/** The pieces of Python's `str` behaviour the program relies on: `strip`,
    ASCII `lower`/`upper`, `startswith`/`endswith`, `in`, `split` on one
    separator character, and `int()` on a decimal literal. */
module Text {
  import opened Wrappers

  /** The characters `str.strip()` removes (`str.isspace`): the code
      points of the ranges `SpaceRange(0)` to `SpaceRange(SpaceRanges - 1)`. */
  predicate IsSpace(c: char) {
    SpaceFrom(c as int, 0)
  }

  const SpaceRanges := 10

  /** The inclusive code-point ranges of whitespace, in increasing order. */
  function SpaceRange(i: nat): (r: (int, int))
    requires i < SpaceRanges
  {
    match i
    case 0 => (0x09, 0x0D)
    case 1 => (0x1C, 0x20)
    case 2 => (0x85, 0x85)
    case 3 => (0xA0, 0xA0)
    case 4 => (0x1680, 0x1680)
    case 5 => (0x2000, 0x200A)
    case 6 => (0x2028, 0x2029)
    case 7 => (0x202F, 0x202F)
    case 8 => (0x205F, 0x205F)
    case _ => (0x3000, 0x3000)
  }

  /** `x` lies in one of the ranges from the `i`-th on. */
  predicate SpaceFrom(x: int, i: nat)
    decreases SpaceRanges - i
  {
    i < SpaceRanges && (SpaceRange(i).0 <= x <= SpaceRange(i).1 || SpaceFrom(x, i + 1))
  }

  lemma {:induction false} SpaceFromAbove(x: int, i: nat)
    requires 2 <= i && x < 0x85
    ensures !SpaceFrom(x, i)
    decreases SpaceRanges - i
  {
    if i < SpaceRanges {
      SpaceFromAbove(x, i + 1);
    }
  }

  /** No printable ASCII character other than the blank is whitespace. */
  lemma PrintableNotSpace(c: char)
    requires '!' <= c <= '~'
    ensures !IsSpace(c)
  {
    SpaceFromAbove(c as int, 2);
    assert !SpaceFrom(c as int, 1);
  }

  /** The `k`-th character of `s` is whitespace. Quantified facts about
      whitespace are stated with it, so that they apply only where a proof
      asks about a position. */
  predicate SpaceAt(s: string, k: nat) {
    k < |s| && IsSpace(s[k])
  }

  predicate AllSpace(s: string) {
    forall k: nat :: k < |s| ==> SpaceAt(s, k)
  }

  /** How many whitespace characters `s` starts with. */
  function LeadingSpaces(s: string): (n: nat)
    ensures n <= |s| && (forall k: nat :: k < n ==> SpaceAt(s, k)) && (n < |s| ==> !IsSpace(s[n]))
  {
    if s != [] && IsSpace(s[0]) then
      var m := LeadingSpaces(s[1..]);
      assert forall k: nat :: 0 < k < m + 1 ==> SpaceAt(s[1..], k - 1) && s[k] == s[1..][k - 1];
      1 + m
    else 0
  }

  /** How many whitespace characters `s` ends with. */
  function TrailingSpaces(s: string): (n: nat)
    ensures n <= |s| && (forall k: nat :: |s| - n <= k < |s| ==> SpaceAt(s, k)) && (n < |s| ==> !IsSpace(s[|s| - n - 1]))
  {
    if s != [] && IsSpace(s[|s| - 1]) then
      var m := TrailingSpaces(s[..|s| - 1]);
      assert forall k: nat :: |s| - 1 - m <= k < |s| - 1 ==> SpaceAt(s[..|s| - 1], k) && s[k] == s[..|s| - 1][k];
      1 + m
    else 0
  }

  /** The counts are the only ones with their property. */
  lemma LeadingSpacesUnique(s: string, n: nat)
    requires n <= |s| && (forall k: nat :: k < n ==> SpaceAt(s, k)) && (n < |s| ==> !IsSpace(s[n]))
    ensures LeadingSpaces(s) == n
  {
    var m := LeadingSpaces(s);
    assert !SpaceAt(s, m) && !SpaceAt(s, n);
  }

  lemma TrailingSpacesUnique(s: string, n: nat)
    requires n <= |s| && (forall k: nat :: |s| - n <= k < |s| ==> SpaceAt(s, k)) && (n < |s| ==> !IsSpace(s[|s| - n - 1]))
    ensures TrailingSpaces(s) == n
  {
    var m := TrailingSpaces(s);
    assert m < |s| ==> !SpaceAt(s, |s| - m - 1);
    assert n < |s| ==> !SpaceAt(s, |s| - n - 1);
  }

  /** `s.lstrip()`: the suffix left after the leading whitespace. */
  function TrimStart(s: string): (r: string)
    ensures |r| <= |s|
    ensures forall k: nat :: k < |s| - |r| ==> SpaceAt(s, k)
    ensures r == [] || !IsSpace(r[0])
  {
    if s != [] && IsSpace(s[0]) then
      var r := TrimStart(s[1..]);
      assert forall k: nat :: 0 < k < |s| - |r| ==> SpaceAt(s[1..], k - 1) && s[k] == s[1..][k - 1];
      r
    else s
  }

  /** What `lstrip` keeps is a suffix of its input. (Kept out of the
      function's contract: an equation between a string and a slice of an
      equal string sends the solver's slice axioms round in a loop.) */
  lemma {:induction false} TrimStartSuffix(s: string)
    ensures TrimStart(s) == s[|s| - |TrimStart(s)|..]
  {
    if s != [] && IsSpace(s[0]) {
      TrimStartSuffix(s[1..]);
      var r := TrimStart(s[1..]);
      assert s[1..][|s| - 1 - |r|..] == s[|s| - |r|..];
    }
  }

  /** `s.rstrip()`: the prefix left before the trailing whitespace. */
  function TrimEnd(s: string): (r: string)
    ensures |r| <= |s| && r == s[..|r|]
    ensures forall k: nat :: |r| <= k < |s| ==> SpaceAt(s, k)
    ensures r == [] || !IsSpace(r[|r| - 1])
  {
    if s != [] && IsSpace(s[|s| - 1]) then
      var init := s[..|s| - 1];
      var r := TrimEnd(init);
      assert forall k: nat :: |r| <= k < |s| - 1 ==> SpaceAt(init, k) && s[k] == init[k];
      assert s[..|r|] == init[..|r|];
      r
    else s
  }

  /** `s.strip()`. */
  function Strip(s: string): (r: string)
    ensures r == [] || (!IsSpace(r[0]) && !IsSpace(r[|r| - 1]))
  {
    TrimEnd(TrimStart(s))
  }

  /** `bool(s.strip())`: something is left after stripping. */
  predicate NonBlank(s: string) {
    Strip(s) != ""
  }

  /** The empty string strips, folds and contains nothing. */
  lemma EmptyFacts()
    ensures Strip("") == "" && Lower("") == "" && Upper("") == ""
    ensures forall t: string :: t != "" ==> !Contains("", t)
  {
    assert TrimStart("") == "" && TrimEnd("") == "";
  }

  /** A stripped string is blank exactly when the input held only whitespace. */
  lemma StripEmptyIff(s: string)
    ensures Strip(s) == [] <==> AllSpace(s)
  {
    var t := TrimStart(s);
    TrimStartSuffix(s);
    var d := |s| - |t|;
    if t != [] {
      assert t[0] == s[d] && !SpaceAt(s, d);
      assert !SpaceAt(t, 0);
    }
  }

  /** Stripping twice is stripping once. */
  lemma StripIdempotent(s: string)
    ensures Strip(Strip(s)) == Strip(s)
  {
    var r := Strip(s);
    assert TrimStart(r) == r;
    assert TrimEnd(r) == r;
  }

  /** Stripping a string that has no whitespace at either end changes nothing. */
  lemma StripUnchanged(s: string)
    requires s == [] || (!IsSpace(s[0]) && !IsSpace(s[|s| - 1]))
    ensures Strip(s) == s
  {
    assert TrimStart(s) == s;
  }

  /** Stripping only removes characters. */
  lemma StripKeepsOut(s: string, c: char)
    requires c !in s
    ensures c !in Strip(s)
  {
    var t := TrimStart(s);
    var r := TrimEnd(t);
    var d := |s| - |t|;
    TrimStartSuffix(s);
    forall k | 0 <= k < |r| ensures r[k] != c {
      assert r[k] == t[k] == s[d + k];
    }
    assert Strip(s) == r;
  }

  function LowerChar(c: char): char {
    if 'A' <= c <= 'Z' then c - 'A' + 'a' else c
  }

  function UpperChar(c: char): char {
    if 'a' <= c <= 'z' then c - 'a' + 'A' else c
  }

  /** `s.lower()` (ASCII letters only). */
  function Lower(s: string): (r: string)
    ensures |r| == |s|
  {
    seq(|s|, i requires 0 <= i < |s| => LowerChar(s[i]))
  }

  /** `s.upper()` (ASCII letters only). */
  function Upper(s: string): (r: string)
    ensures |r| == |s|
  {
    seq(|s|, i requires 0 <= i < |s| => UpperChar(s[i]))
  }

  lemma LowerIdempotent(s: string)
    ensures Lower(Lower(s)) == Lower(s)
  {
  }

  lemma UpperIdempotent(s: string)
    ensures Upper(Upper(s)) == Upper(s)
  {
  }

  /** A string without capital ASCII letters is its own lowercase. */
  lemma LowerUnchanged(s: string)
    requires forall k :: 0 <= k < |s| ==> !('A' <= s[k] <= 'Z')
    ensures Lower(s) == s
  {
  }

  predicate StartsWith(s: string, p: string) {
    |p| <= |s| && s[..|p|] == p
  }

  predicate EndsWith(s: string, p: string) {
    |p| <= |s| && s[|s| - |p|..] == p
  }

  /** A string ending with `p` ends with the last character of `p`. */
  lemma EndsWithLast(s: string, p: string)
    requires EndsWith(s, p) && p != []
    ensures s[|s| - 1] == p[|p| - 1]
  {
    assert s[|s| - |p|..][|p| - 1] == s[|s| - 1];
  }

  /** `sub in s`. */
  predicate Contains(s: string, sub: string)
    decreases |s|
  {
    StartsWith(s, sub) || (s != [] && Contains(s[1..], sub))
  }

  /** A piece that does occur at position `i` is found. */
  lemma {:induction false} ContainsAt(s: string, sub: string, i: nat)
    requires i + |sub| <= |s| && s[i..i + |sub|] == sub
    ensures Contains(s, sub)
    decreases i
  {
    if i > 0 {
      assert s[1..][i - 1..i - 1 + |sub|] == sub;
      ContainsAt(s[1..], sub, i - 1);
    }
  }

  /** A found piece occurs at some position. */
  lemma {:induction false} ContainsWitness(s: string, sub: string) returns (i: nat)
    requires Contains(s, sub)
    ensures i + |sub| <= |s| && s[i..i + |sub|] == sub
    decreases |s|
  {
    if StartsWith(s, sub) {
      i := 0;
    } else {
      var j := ContainsWitness(s[1..], sub);
      i := j + 1;
      assert s[i..i + |sub|] == s[1..][j..j + |sub|];
    }
  }

  /** A text without the first character of a piece does not contain it. */
  lemma {:induction false} ContainsFirstChar(s: string, sub: string)
    ensures sub != [] && Contains(s, sub) ==> sub[0] in s
    decreases |s|
  {
    if sub != [] && Contains(s, sub) {
      if StartsWith(s, sub) {
        assert s[0] == sub[0];
      } else {
        ContainsFirstChar(s[1..], sub);
        assert sub[0] in s[1..];
      }
    }
  }

  function CountChar(s: string, c: char): (n: nat)
    ensures n <= |s|
  {
    if s == [] then 0 else (if s[0] == c then 1 else 0) + CountChar(s[1..], c)
  }

  /** `sep.join(parts)` for a one-character separator. */
  function Join(parts: seq<string>, sep: char): string {
    if parts == [] then ""
    else if |parts| == 1 then parts[0]
    else parts[0] + [sep] + Join(parts[1..], sep)
  }

  /** `sep.join(parts)` for a separator of any length. */
  function JoinWith(parts: seq<string>, sep: string): string {
    if parts == [] then ""
    else if |parts| == 1 then parts[0]
    else parts[0] + sep + JoinWith(parts[1..], sep)
  }

  /** `s.split(sep)` for a one-character separator: one piece more than
      there are separators, none of them holding the separator, and joining
      them back gives `s`. */
  function Split(s: string, sep: char): (r: seq<string>)
    ensures |r| == CountChar(s, sep) + 1
    ensures forall k :: 0 <= k < |r| ==> sep !in r[k]
    ensures Join(r, sep) == s
  {
    if s == [] then [""]
    else
      var rest := Split(s[1..], sep);
      if s[0] == sep then
        assert Join([""] + rest, sep) == [sep] + Join(rest, sep);
        [""] + rest
      else
        var r := [[s[0]] + rest[0]] + rest[1..];
        assert |rest| > 1 ==> Join(rest, sep) == rest[0] + [sep] + Join(rest[1..], sep);
        assert |rest| > 1 ==> Join(r, sep) == r[0] + [sep] + Join(rest[1..], sep);
        r
  }

  /** Splitting a join of separator-free pieces gives the pieces back. */
  lemma {:induction false} SplitJoin(parts: seq<string>, sep: char)
    requires |parts| >= 1
    requires forall k :: 0 <= k < |parts| ==> sep !in parts[k]
    ensures Split(Join(parts, sep), sep) == parts
  {
    if |parts| == 1 {
      SplitNoSep(parts[0], sep);
    } else {
      SplitJoin(parts[1..], sep);
      SplitAppend(parts[0], Join(parts[1..], sep), sep);
    }
  }

  lemma {:induction false} SplitNoSep(s: string, sep: char)
    requires sep !in s
    ensures Split(s, sep) == [s]
  {
    if s != [] {
      SplitNoSep(s[1..], sep);
    }
  }

  /** Splitting `a + [sep] + b` where `a` has no separator. */
  lemma {:induction false} SplitAppend(a: string, b: string, sep: char)
    requires sep !in a
    ensures Split(a + [sep] + b, sep) == [a] + Split(b, sep)
  {
    if a != [] {
      assert (a + [sep] + b)[1..] == a[1..] + [sep] + b;
      assert a == [a[0]] + a[1..];
      SplitAppend(a[1..], b, sep);
    } else {
      assert (a + [sep] + b)[1..] == b;
    }
  }

  /** The part of `s` before the first `c` (`s.split(c, 1)[0]`). */
  function BeforeFirst(s: string, c: char): (r: string)
    ensures r == Split(s, c)[0]
  {
    if s == [] || s[0] == c then "" else [s[0]] + BeforeFirst(s[1..], c)
  }

  /** The part of `s` before the last `c`, or all of `s` when it has none
      (`s.rsplit(c, 1)[0]`). */
  function BeforeLast(s: string, c: char): (r: string)
    ensures c !in s ==> r == s
    ensures c in s ==> |r| < |s| && r == s[..|r|] && s[|r|] == c && c !in s[|r| + 1..]
  {
    if c !in s then s
    else if s[|s| - 1] == c then s[..|s| - 1]
    else
      var p := BeforeLast(s[..|s| - 1], c);
      assert s[|p| + 1..] == s[..|s| - 1][|p| + 1..] + [s[|s| - 1]];
      p
  }

  /** The last `c` of `s` is the one at `k` when none follows it. */
  lemma BeforeLastAt(s: string, c: char, k: int)
    requires 0 <= k < |s| && s[k] == c && c !in s[k + 1..]
    ensures BeforeLast(s, c) == s[..k]
  {
    assert c in s;
  }

  /** `s.split(sep, 1)` when `s` holds `sep`: the part before the first
      separator and the part after it. */
  function SplitFirst(s: string, sep: char): (r: (string, string))
    requires sep in s
    ensures s == r.0 + [sep] + r.1 && sep !in r.0
  {
    if s[0] == sep then ("", s[1..])
    else
      var t := SplitFirst(s[1..], sep);
      ([s[0]] + t.0, t.1)
  }

  /** Whether `s` starts with `p` followed by `sep`, for a `p` without
      `sep`, depends only on the part before the first separator. */
  lemma SplitFirstPrefix(s: string, sep: char, p: string)
    requires sep !in p
    ensures sep in s ==> (StartsWith(s, p + [sep]) <==> SplitFirst(s, sep).0 == p)
    ensures sep !in s ==> !StartsWith(s, p + [sep])
  {
    if sep in s {
      var head := SplitFirst(s, sep).0;
      var n := |head|;
      assert s[..n] == head && s[n] == sep;
      if StartsWith(s, p + [sep]) {
        assert s[..|p|] == p && s[|p|] == sep by {
          assert s[..|p| + 1] == p + [sep];
          assert s[..|p|] == (p + [sep])[..|p|];
        }
        assert n == |p|;
      }
      if head == p {
        assert s[..|p| + 1] == p + [sep];
      }
    } else if |p| < |s| {
      assert s[..|p| + 1][|p|] != sep;
    }
  }

  /** Case mapping never changes whether a character is whitespace. */
  lemma CaseKeepsSpace(c: char)
    ensures IsSpace(UpperChar(c)) <==> IsSpace(c)
    ensures IsSpace(LowerChar(c)) <==> IsSpace(c)
  {
    if 'a' <= c <= 'z' || 'A' <= c <= 'Z' {
      PrintableNotSpace(c);
      PrintableNotSpace(UpperChar(c));
      PrintableNotSpace(LowerChar(c));
    }
  }

  /** Strings with whitespace at the same positions have the same counts. */
  lemma SameLeading(s: string, t: string)
    requires |s| == |t| && forall k: nat :: k < |s| ==> (SpaceAt(s, k) <==> SpaceAt(t, k))
    ensures LeadingSpaces(t) == LeadingSpaces(s)
  {
    var n := LeadingSpaces(s);
    assert n < |s| ==> !SpaceAt(s, n) && !SpaceAt(t, n);
    LeadingSpacesUnique(t, n);
  }

  lemma SameTrailing(s: string, t: string)
    requires |s| == |t| && forall k: nat :: k < |s| ==> (SpaceAt(s, k) <==> SpaceAt(t, k))
    ensures TrailingSpaces(t) == TrailingSpaces(s)
  {
    var m := TrailingSpaces(s);
    assert m < |s| ==> !SpaceAt(s, |s| - m - 1) && !SpaceAt(t, |s| - m - 1);
    TrailingSpacesUnique(t, m);
  }

  /** Case mapping keeps every whitespace position. */
  lemma UpperSpaces(s: string)
    ensures LeadingSpaces(Upper(s)) == LeadingSpaces(s) && TrailingSpaces(Upper(s)) == TrailingSpaces(s)
  {
    var u := Upper(s);
    forall k: nat | k < |s| ensures SpaceAt(u, k) <==> SpaceAt(s, k) {
      assert u[k] == UpperChar(s[k]);
      CaseKeepsSpace(s[k]);
    }
    SameLeading(s, u);
    SameTrailing(s, u);
  }

  lemma LowerSpaces(s: string)
    ensures LeadingSpaces(Lower(s)) == LeadingSpaces(s) && TrailingSpaces(Lower(s)) == TrailingSpaces(s)
  {
    var l := Lower(s);
    forall k: nat | k < |s| ensures SpaceAt(l, k) <==> SpaceAt(s, k) {
      assert l[k] == LowerChar(s[k]);
      CaseKeepsSpace(s[k]);
    }
    SameLeading(s, l);
    SameTrailing(s, l);
  }

  /** Case mapping commutes with slicing. */
  lemma CasePrefix(s: string, j: nat)
    requires j <= |s|
    ensures Upper(s)[..j] == Upper(s[..j]) && Lower(s)[..j] == Lower(s[..j])
  {
    forall k | 0 <= k < j ensures Upper(s)[..j][k] == Upper(s[..j])[k] && Lower(s)[..j][k] == Lower(s[..j])[k] {
      assert s[..j][k] == s[k];
    }
  }

  lemma CaseSuffix(s: string, i: nat)
    requires i <= |s|
    ensures Upper(s)[i..] == Upper(s[i..]) && Lower(s)[i..] == Lower(s[i..])
  {
    forall k | 0 <= k < |s| - i ensures Upper(s)[i..][k] == Upper(s[i..])[k] && Lower(s)[i..][k] == Lower(s[i..])[k] {
      assert s[i..][k] == s[i + k];
    }
  }

  lemma TrimEndAt(s: string)
    ensures TrimEnd(s) == s[..|s| - TrailingSpaces(s)]
  {
    var r := TrimEnd(s);
    TrailingSpacesUnique(s, |s| - |r|);
    assert r == s[..|r|];
  }

  lemma TrimStartAt(s: string)
    ensures TrimStart(s) == s[LeadingSpaces(s)..]
  {
    var r := TrimStart(s);
    var n := |s| - |r|;
    TrimStartSuffix(s);
    assert n < |s| ==> s[n] == r[0];
    LeadingSpacesUnique(s, n);
  }

  lemma TrimStartUpper(s: string)
    ensures TrimStart(Upper(s)) == Upper(TrimStart(s))
  {
    UpperSpaces(s);
    CaseSuffix(s, LeadingSpaces(s));
    TrimStartAt(s);
    TrimStartAt(Upper(s));
  }

  lemma TrimStartLower(s: string)
    ensures TrimStart(Lower(s)) == Lower(TrimStart(s))
  {
    LowerSpaces(s);
    CaseSuffix(s, LeadingSpaces(s));
    TrimStartAt(s);
    TrimStartAt(Lower(s));
  }

  lemma TrimEndUpper(s: string)
    ensures TrimEnd(Upper(s)) == Upper(TrimEnd(s))
  {
    UpperSpaces(s);
    CasePrefix(s, |s| - TrailingSpaces(s));
    TrimEndAt(s);
    TrimEndAt(Upper(s));
  }

  lemma TrimEndLower(s: string)
    ensures TrimEnd(Lower(s)) == Lower(TrimEnd(s))
  {
    LowerSpaces(s);
    CasePrefix(s, |s| - TrailingSpaces(s));
    TrimEndAt(s);
    TrimEndAt(Lower(s));
  }

  /** Stripping and case mapping commute. */
  lemma StripCase(s: string)
    ensures Strip(Upper(s)) == Upper(Strip(s))
    ensures Strip(Lower(s)) == Lower(Strip(s))
  {
    TrimStartUpper(s);
    TrimStartLower(s);
    TrimEndUpper(TrimStart(s));
    TrimEndLower(TrimStart(s));
  }

  /** `s.strip().lower()` and `s.strip().upper()` are idempotent. */
  lemma CaseStripIdempotent(s: string)
    ensures Lower(Strip(Lower(Strip(s)))) == Lower(Strip(s))
    ensures Upper(Strip(Upper(Strip(s)))) == Upper(Strip(s))
  {
    var t := Strip(s);
    StripCase(t);
    StripIdempotent(s);
    LowerIdempotent(t);
    UpperIdempotent(t);
  }

  /** Lowercasing forgets an earlier case mapping. */
  lemma LowerOfCase(s: string)
    ensures Lower(Upper(s)) == Lower(s)
    ensures Upper(Lower(s)) == Upper(s)
  {
  }

  /** A string with no capital ASCII letter is the uppercase of itself only. */
  lemma UpperOnlyOfItself(s: string, t: string)
    requires Upper(s) == t
    requires forall k :: 0 <= k < |t| ==> !('A' <= t[k] <= 'Z')
    ensures s == t
  {
    forall k | 0 <= k < |s| ensures s[k] == t[k] {
      assert UpperChar(s[k]) == t[k];
    }
  }

  predicate IsDigit(c: char) { '0' <= c <= '9' }

  predicate AllDigits(s: string) {
    forall k :: 0 <= k < |s| ==> IsDigit(s[k])
  }

  function DigitValue(c: char): nat requires IsDigit(c) { (c - '0') as nat }

  /** The value of a string of decimal digits. */
  function DigitsValue(s: string): nat
    requires AllDigits(s)
  {
    if s == [] then 0 else DigitsValue(s[..|s| - 1]) * 10 + DigitValue(s[|s| - 1])
  }

  /** Python `int(s)` on a decimal literal: surrounding whitespace, an
      optional sign and at least one digit. Anything else is a ValueError. */
  function ParseInt(s: string): (r: Result<int>)
    ensures r.Ok? ==> Strip(s) != []
  {
    var t := Strip(s);
    if t == [] then Err(ValueError("invalid literal for int()"))
    else
      var neg := t[0] == '-';
      var digits := if t[0] == '-' || t[0] == '+' then t[1..] else t;
      if digits == [] || !AllDigits(digits) then Err(ValueError("invalid literal for int()"))
      else
        var v: int := DigitsValue(digits);
        Ok(if neg then -v else v)
  }

  /** The decimal digits of `n`. */
  function NatToDigits(n: nat): (r: string)
    ensures r != [] && AllDigits(r)
  {
    if n < 10 then ['0' + n as char] else NatToDigits(n / 10) + ['0' + (n % 10) as char]
  }

  /** Decimal formatting is undone by parsing. */
  lemma {:induction false} DigitsRoundTrip(n: nat)
    ensures DigitsValue(NatToDigits(n)) == n
  {
    if n >= 10 {
      DigitsRoundTrip(n / 10);
      var d := NatToDigits(n);
      assert d[..|d| - 1] == NatToDigits(n / 10);
    }
  }

  lemma DigitNotSpace(c: char)
    requires IsDigit(c)
    ensures !IsSpace(c)
  {
    PrintableNotSpace(c);
  }

  /** `int()` of a formatted natural number gives it back. */
  lemma ParseIntOfDigits(n: nat)
    ensures ParseInt(NatToDigits(n)) == Ok(n)
  {
    var d := NatToDigits(n);
    ParseIntOfDigitString(d);
    DigitsRoundTrip(n);
  }

  /** `int()` of a non-empty string of digits is its decimal value. */
  lemma ParseIntOfDigitString(d: string)
    requires d != [] && AllDigits(d)
    ensures ParseInt(d) == Ok(DigitsValue(d))
  {
    DigitNotSpace(d[0]);
    DigitNotSpace(d[|d| - 1]);
    StripUnchanged(d);
    assert IsDigit(d[0]);
  }
}
