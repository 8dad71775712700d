/** Order-preserving filtering, the shape of the program's list
    comprehensions `[x for x in xs if p(x)]` and of loops that append
    what they make of each element, skipping some. */
module Seqs {
  import opened Wrappers

  /** A prefix one element longer. */
  lemma PrefixSnoc<T>(s: seq<T>, i: nat)
    requires i < |s|
    ensures s[..i + 1] == s[..i] + [s[i]]
  {
  }

  /** Concatenation of three sequences, regrouped. */
  lemma Concat3<T>(a: seq<T>, b: seq<T>, c: seq<T>)
    ensures a + b + c == a + (b + c)
  {
  }

  /** Concatenation of four sequences, regrouped. */
  lemma Concat4<T>(a: seq<T>, b: seq<T>, c: seq<T>, d: seq<T>)
    ensures a + b + c + d == a + (b + c + d)
  {
  }

  /** `a` is `b` with some elements left out, the rest in their order. */
  predicate SubseqOf<T(==)>(a: seq<T>, b: seq<T>)
    decreases |b|
  {
    a == [] || (b != [] && (if a[0] == b[0] then SubseqOf(a[1..], b[1..]) else SubseqOf(a, b[1..])))
  }

  function Filter<T>(s: seq<T>, p: T -> bool): (r: seq<T>)
    ensures |r| <= |s|
    ensures forall i :: 0 <= i < |r| ==> p(r[i])
  {
    if s == [] then [] else if p(s[0]) then [s[0]] + Filter(s[1..], p) else Filter(s[1..], p)
  }

  /** A filter keeps exactly the elements that satisfy the predicate. */
  lemma {:induction false} FilterMembers<T>(s: seq<T>, p: T -> bool, x: T)
    ensures x in Filter(s, p) <==> x in s && p(x)
  {
    if s != [] {
      FilterMembers(s[1..], p, x);
      assert s == [s[0]] + s[1..];
    }
  }

  /** Filtering one more element at the end. */
  /** Sequences with the same elements at the same positions are equal. */
  lemma SameElements<T>(a: seq<T>, b: seq<T>)
    requires |a| == |b| && forall i :: 0 <= i < |a| ==> a[i] == b[i]
    ensures a == b
  {
  }

  /** A filter every element passes keeps the whole sequence. */
  lemma {:induction false} FilterAll<T>(s: seq<T>, p: T -> bool)
    requires forall i :: 0 <= i < |s| ==> p(s[i])
    ensures Filter(s, p) == s
  {
    if s != [] {
      assert forall i :: 0 <= i < |s[1..]| ==> s[1..][i] == s[i + 1];
      FilterAll(s[1..], p);
    }
  }

  /** Filters by predicates that agree keep the same elements. */
  lemma {:induction false} FilterAgree<T>(s: seq<T>, p: T -> bool, q: T -> bool)
    requires forall x :: x in s ==> p(x) == q(x)
    ensures Filter(s, p) == Filter(s, q)
  {
    if s != [] {
      assert forall x :: x in s[1..] ==> x in s;
      FilterAgree(s[1..], p, q);
    }
  }

  lemma {:induction false} FilterSnoc<T>(s: seq<T>, x: T, p: T -> bool)
    ensures Filter(s + [x], p) == Filter(s, p) + (if p(x) then [x] else [])
    decreases |s|
  {
    if s == [] {
      assert s + [x] == [x];
    } else {
      assert (s + [x])[0] == s[0] && (s + [x])[1..] == s[1..] + [x];
      FilterSnoc(s[1..], x, p);
    }
  }

  /** A filter's result is a subsequence of its input. */
  lemma {:induction false} FilterSubseq<T>(s: seq<T>, p: T -> bool)
    ensures SubseqOf(Filter(s, p), s)
  {
    if s != [] {
      FilterSubseq(s[1..], p);
      if !p(s[0]) {
        var r := Filter(s[1..], p);
        if r != [] && r[0] == s[0] {
          assert p(r[0]);
        }
        SubseqSkip(r, s);
      }
    }
  }

  /** Dropping the head of `b` that `a` does not use keeps `a` a subsequence. */
  lemma {:induction false} SubseqSkip<T>(a: seq<T>, b: seq<T>)
    requires b != [] && SubseqOf(a, b[1..])
    ensures SubseqOf(a, b)
    decreases |b|, 0
  {
    if a != [] && a[0] == b[0] {
      SubseqTail(a, b[1..]);
    }
  }

  lemma {:induction false} SubseqTail<T>(a: seq<T>, b: seq<T>)
    requires a != [] && SubseqOf(a, b)
    ensures SubseqOf(a[1..], b)
    decreases |b|, 1
  {
    if a[0] == b[0] {
      if a[1..] != [] { SubseqSkip(a[1..], b); }
    } else {
      SubseqTail(a, b[1..]);
      if a[1..] != [] { SubseqSkip(a[1..], b); }
    }
  }

  /** A prefix of a subsequence is a subsequence. */
  lemma {:induction false} SubseqPrefix<T>(a: seq<T>, b: seq<T>, k: nat)
    requires SubseqOf(a, b) && k <= |a|
    ensures SubseqOf(a[..k], b)
    decreases |b|
  {
    if k > 0 {
      if a[0] == b[0] {
        SubseqPrefix(a[1..], b[1..], k - 1);
        assert a[..k][1..] == a[1..][..k - 1];
      } else {
        SubseqPrefix(a, b[1..], k);
      }
    }
  }

  /** Subsequences of subsequences are subsequences. */
  lemma {:induction false} SubseqTrans<T>(a: seq<T>, b: seq<T>, c: seq<T>)
    requires SubseqOf(a, b) && SubseqOf(b, c)
    ensures SubseqOf(a, c)
    decreases |c|
  {
    if a != [] {
      if b[0] == c[0] {
        if a[0] == b[0] {
          SubseqTrans(a[1..], b[1..], c[1..]);
        } else {
          SubseqTrans(a, b[1..], c[1..]);
          SubseqSkip(a, c);
        }
      } else {
        SubseqTrans(a, b, c[1..]);
        SubseqSkip(a, c);
      }
    }
  }

  /** Elements of a subsequence come from the sequence. */
  lemma {:induction false} SubseqMembers<T>(a: seq<T>, b: seq<T>, x: T)
    requires SubseqOf(a, b) && x in a
    ensures x in b
    decreases |b|
  {
    if a[0] == b[0] {
      if x != a[0] { SubseqMembers(a[1..], b[1..], x); }
    } else {
      SubseqMembers(a, b[1..], x);
    }
  }

  lemma {:induction false} SubseqRefl<T>(a: seq<T>)
    ensures SubseqOf(a, a)
  {
    if a != [] { SubseqRefl(a[1..]); }
  }

  /** Appending the same element to both sides, or only to the larger
      one, keeps a subsequence. */
  lemma {:induction false} SubseqAppendOne<T>(a: seq<T>, b: seq<T>, x: T, keep: bool)
    requires SubseqOf(a, b)
    ensures SubseqOf(if keep then a + [x] else a, b + [x])
    decreases |b|
  {
    if a == [] {
      if keep {
        SubseqSingle(b, x);
        assert a + [x] == [x];
      }
    } else if a[0] == b[0] {
      SubseqAppendOne(a[1..], b[1..], x, keep);
      assert (if keep then a + [x] else a)[1..] == if keep then a[1..] + [x] else a[1..];
      assert (b + [x])[1..] == b[1..] + [x];
    } else {
      SubseqAppendOne(a, b[1..], x, keep);
      assert (b + [x])[1..] == b[1..] + [x];
      if keep { assert (a + [x])[0] != (b + [x])[0]; }
    }
  }

  lemma {:induction false} SubseqSingle<T>(b: seq<T>, x: T)
    ensures SubseqOf([x], b + [x])
    decreases |b|
  {
    if b != [] {
      SubseqSingle(b[1..], x);
      assert (b + [x])[1..] == b[1..] + [x];
    }
  }

  /** The position of the first element that fails `p`, or `|s|` when none does. */
  function FirstFailing<T>(s: seq<T>, p: T -> bool): (j: nat)
    ensures j <= |s|
  {
    if s == [] then 0
    else
      var j := FirstFailing(s[..|s| - 1], p);
      if j < |s| - 1 || !p(s[|s| - 1]) then j else |s|
  }

  /** Every element before `FirstFailing` satisfies `p`, and the one at it does not. */
  lemma {:induction false} FirstFailingSpec<T>(s: seq<T>, p: T -> bool)
    ensures forall k :: 0 <= k < FirstFailing(s, p) ==> p(s[k])
    ensures FirstFailing(s, p) < |s| ==> !p(s[FirstFailing(s, p)])
  {
    if s != [] {
      var init := s[..|s| - 1];
      FirstFailingSpec(init, p);
      forall k | 0 <= k < FirstFailing(s, p) ensures p(s[k]) {
        if k < |init| {
          assert s[k] == init[k];
        }
      }
      if FirstFailing(init, p) < |init| {
        assert s[FirstFailing(init, p)] == init[FirstFailing(init, p)];
      }
    }
  }

  /** The defined results of `f` on the elements, in order. */
  function FilterMap<A, B>(s: seq<A>, f: A -> Option<B>): (r: seq<B>)
    ensures |r| <= |s|
  {
    if s == [] then []
    else
      var prev := FilterMap(s[..|s| - 1], f);
      match f(s[|s| - 1])
      case None => prev
      case Some(y) => prev + [y]
  }

  lemma FilterMapSnoc<A, B>(s: seq<A>, x: A, f: A -> Option<B>)
    ensures FilterMap(s + [x], f) == FilterMap(s, f) + (if f(x).Some? then [f(x).value] else [])
  {
    assert (s + [x])[..|s|] == s;
  }

  /** One more element of the prefix. */
  lemma FilterMapPrefix<A, B>(s: seq<A>, i: nat, f: A -> Option<B>)
    requires i < |s|
    ensures FilterMap(s[..i + 1], f) == FilterMap(s[..i], f) + (if f(s[i]).Some? then [f(s[i]).value] else [])
  {
    assert s[..i + 1][..i] == s[..i];
  }

  /** Every result satisfies what every defined value of `f` satisfies. */
  lemma {:induction false} FilterMapAll<A, B>(s: seq<A>, f: A -> Option<B>, p: B -> bool)
    requires forall x :: f(x).Some? ==> p(f(x).value)
    ensures forall i :: 0 <= i < |FilterMap(s, f)| ==> p(FilterMap(s, f)[i])
  {
    if s != [] {
      FilterMapAll(s[..|s| - 1], f, p);
    }
  }

  /** `[f(x) for x in s]`. */
  function MapSeq<A, B>(s: seq<A>, f: A --> B): (r: seq<B>)
    requires forall i :: 0 <= i < |s| ==> f.requires(s[i])
    ensures |r| == |s| && forall i :: 0 <= i < |s| ==> r[i] == f(s[i])
  {
    seq(|s|, i requires 0 <= i < |s| => f(s[i]))
  }

  /** One more element of the prefix. */
  lemma MapSeqPrefix<A, B>(s: seq<A>, i: nat, f: A --> B)
    requires forall i :: 0 <= i < |s| ==> f.requires(s[i])
    requires i < |s|
    ensures MapSeq(s[..i + 1], f) == MapSeq(s[..i], f) + [f(s[i])]
  {
    assert forall k :: 0 <= k <= i ==> s[..i + 1][k] == s[k];
  }

  /** Decoding what was encoded gives back the elements that `dec` undoes `enc` on. */
  lemma {:induction false} FilterMapUndoes<A, B>(xs: seq<B>, enc: B -> A, dec: A -> Option<B>)
    requires forall i :: 0 <= i < |xs| ==> dec(enc(xs[i])) == Some(xs[i])
    ensures FilterMap(MapSeq(xs, enc), dec) == xs
  {
    if xs != [] {
      var prev := xs[..|xs| - 1];
      assert MapSeq(xs, enc)[..|xs| - 1] == MapSeq(prev, enc);
      FilterMapUndoes(prev, enc, dec);
      assert xs == prev + [xs[|xs| - 1]];
    }
  }

  /** `[f(x) for x in s]` where `f` may raise: the results in order, or the
      first error. */
  function MapResults<A(!new), B>(s: seq<A>, f: A --> Result<B>): (r: Result<seq<B>>)
    requires forall x :: f.requires(x)
    ensures r.Ok? ==> |r.value| == |s| && forall i :: 0 <= i < |s| ==> f(s[i]) == Ok(r.value[i])
    ensures r.Err? ==> exists i :: 0 <= i < |s| && f(s[i]) == Err(r.error)
  {
    if s == [] then Ok([])
    else
      var init := s[..|s| - 1];
      match MapResults(init, f)
      case Err(e) =>
        var i :| 0 <= i < |init| && f(init[i]) == Err(e);
        assert s[i] == init[i];
        Err(e)
      case Ok(ys) =>
        match f(s[|s| - 1])
        case Err(e) => Err(e)
        case Ok(y) =>
          assert forall i :: 0 <= i < |init| ==> s[i] == init[i];
          Ok(ys + [y])
  }

  /** One more element of the prefix. */
  lemma MapResultsStep<A(!new), B>(s: seq<A>, i: nat, f: A --> Result<B>)
    requires forall x :: f.requires(x)
    requires i < |s| && MapResults(s[..i], f).Ok?
    ensures f(s[i]).Err? ==> MapResults(s[..i + 1], f) == Err(f(s[i]).error)
    ensures f(s[i]).Ok? ==> MapResults(s[..i + 1], f) == Ok(MapResults(s[..i], f).value + [f(s[i]).value])
  {
    assert s[..i + 1][..i] == s[..i];
  }

  /** Once a prefix fails, the whole sequence fails the same way. */
  lemma {:induction false} MapResultsPrefixErr<A(!new), B>(s: seq<A>, i: nat, f: A --> Result<B>)
    requires forall x :: f.requires(x)
    requires i <= |s| && MapResults(s[..i], f).Err?
    ensures MapResults(s, f) == MapResults(s[..i], f)
    decreases |s|
  {
    if i < |s| {
      var init := s[..|s| - 1];
      assert init[..i] == s[..i];
      MapResultsPrefixErr(init, i, f);
    } else {
      assert s[..i] == s;
    }
  }

  /** When no element raises, the results are all there. */
  lemma {:induction false} MapResultsAllOk<A(!new), B>(s: seq<A>, f: A --> Result<B>)
    requires forall x :: f.requires(x)
    requires forall i :: 0 <= i < |s| ==> f(s[i]).Ok?
    ensures MapResults(s, f).Ok?
  {
    if s != [] {
      var init := s[..|s| - 1];
      assert forall i :: 0 <= i < |init| ==> init[i] == s[i];
      MapResultsAllOk(init, f);
    }
  }

  /** The elements of `s` in first-occurrence order, each once: the loop
      that appends an element unless it has already been kept. */
  function Dedup<T(==)>(s: seq<T>): (r: seq<T>)
    ensures |r| <= |s|
  {
    if s == [] then []
    else
      var d := Dedup(s[..|s| - 1]);
      if s[|s| - 1] in d then d else d + [s[|s| - 1]]
  }

  /** No element occurs twice. */
  predicate Distinct<T(==)>(s: seq<T>) {
    forall i, j :: 0 <= i < j < |s| ==> s[i] != s[j]
  }

  /** One more element of the prefix. */
  lemma DedupPrefix<T>(s: seq<T>, i: nat)
    requires i < |s|
    ensures Dedup(s[..i + 1]) == if s[i] in Dedup(s[..i]) then Dedup(s[..i]) else Dedup(s[..i]) + [s[i]]
  {
    assert s[..i + 1][..i] == s[..i];
  }

  /** One more element at the end. */
  lemma DedupSnoc<T>(s: seq<T>, x: T)
    ensures Dedup(s + [x]) == if x in Dedup(s) then Dedup(s) else Dedup(s) + [x]
  {
    assert (s + [x])[..|s|] == s;
  }

  /** De-duplication keeps exactly the elements of the input. */
  lemma {:induction false} DedupMembers<T>(s: seq<T>, x: T)
    ensures x in Dedup(s) <==> x in s
  {
    if s != [] {
      var init := s[..|s| - 1];
      DedupMembers(init, x);
      assert s == init + [s[|s| - 1]];
    }
  }

  /** The result of de-duplication has no repeats. */
  lemma {:induction false} DedupDistinct<T>(s: seq<T>)
    ensures Distinct(Dedup(s))
  {
    if s != [] {
      DedupDistinct(s[..|s| - 1]);
    }
  }

  /** A sequence without repeats is its own de-duplication. */
  lemma {:induction false} DedupOfDistinct<T>(s: seq<T>)
    requires Distinct(s)
    ensures Dedup(s) == s
  {
    if s != [] {
      var init := s[..|s| - 1];
      assert Distinct(init);
      DedupOfDistinct(init);
      assert s[|s| - 1] !in init;
      assert init + [s[|s| - 1]] == s;
    }
  }

  /** De-duplicating twice is de-duplicating once. */
  lemma DedupIdempotent<T>(s: seq<T>)
    ensures Dedup(Dedup(s)) == Dedup(s)
  {
    DedupDistinct(s);
    DedupOfDistinct(Dedup(s));
  }

  /** The kept elements appear in the input's order. */
  lemma {:induction false} DedupSubseq<T>(s: seq<T>)
    ensures SubseqOf(Dedup(s), s)
  {
    if s == [] {
    } else {
      var init := s[..|s| - 1];
      var x := s[|s| - 1];
      DedupSubseq(init);
      SubseqAppendOne(Dedup(init), init, x, x !in Dedup(init));
      assert init + [x] == s;
    }
  }
}
