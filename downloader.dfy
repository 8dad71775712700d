/** The download pipeline (`pipeline/downloader.py`): tasks, the
    incremental plan of one task, chunked fetching, the sequential
    bookkeeping of a run and the CSV failure ledger.

    A provider call is not run: the provider is a function from the
    request to the frame it answers or the exception it raises. */
module Downloader {
  import opened Wrappers
  import opened Text
  import opened Calendar
  import opened TimeUtils
  import opened Schema
  import opened Frames
  import opened FsUtils
  import opened Writer

  datatype DownloadTask = DownloadTask(
    symbol: string, interval: string, start: DateTime, end: DateTime, assetType: string, adjust: string)

  /** What the callers guarantee of a task's datetimes: both aware (they
      come from `parse_date` or the Beijing clock) and, like every Python
      `datetime`, within years 1 to 9999. */
  predicate ValidTask(t: DownloadTask) {
    Aware(t.start) && Aware(t.end) && Representable(t.start) && Representable(t.end)
  }

  predicate AllValidTasks(tasks: seq<DownloadTask>) {
    forall i :: 0 <= i < |tasks| ==> ValidTask(tasks[i])
  }

  datatype FailureRecord = FailureRecord(task: DownloadTask, reason: string)

  /** What `_run_task` reports for a task that did not raise. */
  datatype Status = Skipped | Empty | Written

  // ---------------------------------------------------------------------
  // Failure reasons

  /** `_format_failure_reason`: the exception name, then the stripped
      message unless it is empty or already starts with "<name>:". */
  function FormatFailureReason(e: Exc): (r: string)
    ensures Strip(e.message) == [] ==> r == e.name
    ensures Strip(e.message) != [] && StartsWith(Strip(e.message), e.name + ":") ==> r == Strip(e.message)
    ensures Strip(e.message) != [] && !StartsWith(Strip(e.message), e.name + ":") ==>
      StartsWith(r, e.name + ": ") && r[|e.name| + 2..] == Strip(e.message)
  {
    var msg := Strip(e.message);
    if msg == [] then e.name
    else if StartsWith(msg, e.name + ":") then msg
    else
      var r := e.name + ": " + msg;
      assert r[..|e.name| + 2] == e.name + ": ";
      r
  }

  /** A non-empty reason starts with "<name>:" and formatting it again as
      the message of the same exception changes nothing: the name is never
      doubled. */
  lemma FormatFailureReasonStable(e: Exc)
    requires Strip(e.message) != []
    requires e.name != [] && !IsSpace(e.name[0])
    ensures var r := FormatFailureReason(e);
      StartsWith(r, e.name + ":") && FormatFailureReason(Exc(e.name, r)) == r
  {
    var msg := Strip(e.message);
    var r := FormatFailureReason(e);
    var head := e.name + ":";
    if !StartsWith(msg, head) {
      assert r == e.name + ": " + msg;
      ColonPrefix(e.name, msg);
      assert r[0] == e.name[0];
      assert r[|r| - 1] == msg[|msg| - 1];
      StripUnchanged(r);
    } else {
      assert r == msg;
      StripIdempotent(e.message);
    }
    assert Strip(r) == r && r != [] && StartsWith(r, head);
    FormatOfPrefixed(Exc(e.name, r));
  }

  lemma ColonPrefix(name: string, msg: string)
    ensures StartsWith(name + ": " + msg, name + ":")
  {
    var r, h := name + ": " + msg, name + ":";
    forall k | 0 <= k < |h| ensures r[k] == h[k] {
      if k < |name| {
        assert r[k] == name[k] && h[k] == name[k];
      }
    }
    assert r[..|h|] == h;
  }

  /** A message that is already "<name>:..." and stripped is the reason itself. */
  lemma FormatOfPrefixed(e: Exc)
    requires Strip(e.message) == e.message && e.message != [] && StartsWith(e.message, e.name + ":")
    ensures FormatFailureReason(e) == e.message
  {
  }

  // ---------------------------------------------------------------------
  // Tasks

  /** The tasks of one symbol, one per interval, in interval order. */
  function TasksFor(symbol: string, intervals: seq<string>, start: DateTime, end: DateTime, assetType: string, adjust: string): (r: seq<DownloadTask>)
    ensures |r| == |intervals|
    ensures forall j :: 0 <= j < |r| ==> r[j] == DownloadTask(symbol, intervals[j], start, end, assetType, adjust)
  {
    seq(|intervals|, j requires 0 <= j < |intervals| => DownloadTask(symbol, intervals[j], start, end, assetType, adjust))
  }

  /** The task list of `build_tasks`, symbol by symbol. */
  function Grid(symbols: seq<string>, intervals: seq<string>, start: DateTime, end: DateTime, assetType: string, adjust: string): seq<DownloadTask> {
    if symbols == [] then []
    else
      var init := Grid(symbols[..|symbols| - 1], intervals, start, end, assetType, adjust);
      init + TasksFor(symbols[|symbols| - 1], intervals, start, end, assetType, adjust)
  }

  /** One task per (symbol, interval) pair. */
  lemma {:induction false} GridLength(symbols: seq<string>, intervals: seq<string>, start: DateTime, end: DateTime, assetType: string, adjust: string)
    ensures |Grid(symbols, intervals, start, end, assetType, adjust)| == |symbols| * |intervals|
  {
    if symbols != [] {
      GridLength(symbols[..|symbols| - 1], intervals, start, end, assetType, adjust);
      MulSucc(|symbols| - 1, |intervals|);
    }
  }

  /** Symbol-major order: the task at `a * |intervals| + b` is for the a-th
      symbol and the b-th interval; all tasks share the range, asset type
      and adjustment. */
  lemma {:induction false} GridAt(symbols: seq<string>, intervals: seq<string>, start: DateTime, end: DateTime,
                                  assetType: string, adjust: string, a: nat, b: nat)
    requires a < |symbols| && b < |intervals|
    ensures a * |intervals| + b < |Grid(symbols, intervals, start, end, assetType, adjust)|
    ensures Grid(symbols, intervals, start, end, assetType, adjust)[a * |intervals| + b]
      == DownloadTask(symbols[a], intervals[b], start, end, assetType, adjust)
  {
    var init := symbols[..|symbols| - 1];
    var n := |intervals|;
    var m := |symbols| - 1;
    var gi := Grid(init, intervals, start, end, assetType, adjust);
    var last := TasksFor(symbols[m], intervals, start, end, assetType, adjust);
    GridLength(init, intervals, start, end, assetType, adjust);
    var k := a * n + b;
    if a < m {
      MulLess(a, b, n, m);
      GridAt(init, intervals, start, end, assetType, adjust, a, b);
      assert init[a] == symbols[a];
      assert (gi + last)[k] == gi[k];
    } else {
      assert k == |gi| + b;
      assert (gi + last)[k] == last[b];
    }
  }

  lemma MulSucc(m: int, n: int)
    ensures m * n + n == (m + 1) * n
  {
  }

  lemma MulLess(a: int, b: int, n: int, m: int)
    requires 0 <= a < m && 0 <= b < n
    ensures 0 <= a * n + b < m * n
  {
    assert (a + 1) * n <= m * n;
  }

  lemma TasksForSnoc(symbol: string, intervals: seq<string>, j: int, start: DateTime, end: DateTime, assetType: string, adjust: string)
    requires 0 <= j < |intervals|
    ensures TasksFor(symbol, intervals[..j + 1], start, end, assetType, adjust)
      == TasksFor(symbol, intervals[..j], start, end, assetType, adjust) + [DownloadTask(symbol, intervals[j], start, end, assetType, adjust)]
  {
  }

  lemma GridSnoc(symbols: seq<string>, i: int, intervals: seq<string>, start: DateTime, end: DateTime, assetType: string, adjust: string)
    requires 0 <= i < |symbols|
    ensures Grid(symbols[..i + 1], intervals, start, end, assetType, adjust)
      == Grid(symbols[..i], intervals, start, end, assetType, adjust) + TasksFor(symbols[i], intervals, start, end, assetType, adjust)
  {
    assert symbols[..i + 1][..i] == symbols[..i];
  }

  /** `build_tasks`. */
  method BuildTasks(symbols: seq<string>, intervals: seq<string>, start: DateTime, end: DateTime, assetType: string, adjust: string)
    returns (tasks: seq<DownloadTask>)
    ensures tasks == Grid(symbols, intervals, start, end, assetType, adjust)
  {
    tasks := [];
    for i := 0 to |symbols|
      invariant tasks == Grid(symbols[..i], intervals, start, end, assetType, adjust)
    {
      for j := 0 to |intervals|
        invariant tasks == Grid(symbols[..i], intervals, start, end, assetType, adjust)
          + TasksFor(symbols[i], intervals[..j], start, end, assetType, adjust)
      {
        TasksForSnoc(symbols[i], intervals, j, start, end, assetType, adjust);
        tasks := tasks + [DownloadTask(symbols[i], intervals[j], start, end, assetType, adjust)];
      }
      assert intervals[..|intervals|] == intervals;
      GridSnoc(symbols, i, intervals, start, end, assetType, adjust);
    }
    assert symbols[..|symbols|] == symbols;
  }

  // ---------------------------------------------------------------------
  // Chunks

  /** The instant lies in one of the chunks. */
  predicate InChunk(chunks: seq<(int, int)>, t: int) {
    exists k :: 0 <= k < |chunks| && chunks[k].0 <= t < chunks[k].1
  }

  /** Chunks that follow each other without gap or overlap. */
  predicate Contiguous(chunks: seq<(int, int)>) {
    forall k :: 0 <= k < |chunks| - 1 ==> chunks[k].1 == chunks[k + 1].0
  }

  /** The chunks `_split_range` yields, as a recursive definition. Each
      step computes `current + step` before taking the minimum with the
      end, so a step past the last day a `datetime` holds is an
      OverflowError even when the end comes first. */
  function ChunkList(start: int, end: int, step: int): Result<seq<(int, int)>>
    requires step >= 1
    decreases end - start
  {
    if start >= end then Ok([])
    else if !InDateRange(start + step) then Err(Overflow)
    else
      var chunkEnd := if end <= start + step then end else start + step;
      match ChunkList(chunkEnd, end, step)
      case Err(e) => Err(e)
      case Ok(rest) => Ok([(start, chunkEnd)] + rest)
  }

  /** The start of the last chunk: the last of `start`, `start + step`, ...
      before `end`. */
  function LastChunkStart(start: int, end: int, step: int): (c: int)
    requires step >= 1 && start < end
    ensures start <= c < end && end <= c + step
    decreases end - start
  {
    if end <= start + step then start else LastChunkStart(start + step, end, step)
  }

  /** Splitting fails exactly when the step after the last chunk's start
      leaves the years a `datetime` holds, and then with OverflowError. */
  lemma {:induction false} ChunkListOkIff(start: int, end: int, step: int)
    requires step >= 1 && InDateRange(start) && start < end
    ensures ChunkList(start, end, step).Ok? <==> InDateRange(LastChunkStart(start, end, step) + step)
    ensures ChunkList(start, end, step).Err? ==> ChunkList(start, end, step).error == Overflow
    decreases end - start
  {
    var next := start + step;
    var last := LastChunkStart(start, end, step);
    if !InDateRange(next) {
      BeijingDayMono(start, next);
      BeijingDayMono(next, last + step);
    } else if end > next {
      ChunkListOkIff(next, end, step);
    }
  }

  /** The chunks run from `start` to `end` one after the other, each of
      `step` seconds except a shorter last one; there are none exactly when
      `start >= end`. */
  lemma {:induction false} ChunkListSpec(start: int, end: int, step: int)
    requires step >= 1 && ChunkList(start, end, step).Ok?
    ensures var chunks := ChunkList(start, end, step).value;
      && (chunks == [] <==> start >= end)
      && (chunks != [] ==> chunks[0].0 == start && chunks[|chunks| - 1].1 == end)
      && Contiguous(chunks)
      && (forall k :: 0 <= k < |chunks| ==> chunks[k].0 < chunks[k].1 <= chunks[k].0 + step)
      && (forall k :: 0 <= k < |chunks| - 1 ==> chunks[k].1 == chunks[k].0 + step)
    decreases end - start
  {
    if start < end {
      var chunkEnd := if end <= start + step then end else start + step;
      var rest := ChunkList(chunkEnd, end, step).value;
      var chunks := ChunkList(start, end, step).value;
      ChunkListSpec(chunkEnd, end, step);
      assert chunks == [(start, chunkEnd)] + rest;
      forall k | 1 <= k < |chunks| ensures chunks[k] == rest[k - 1] { }
      if rest == [] {
        assert chunkEnd == end;
      }
    }
  }

  /** Chunks already yielded in front of what the rest of the range gives. */
  function PrependChunks(chunks: seq<(int, int)>, rest: Result<seq<(int, int)>>): Result<seq<(int, int)>> {
    if rest.Err? then rest else Ok(chunks + rest.value)
  }

  /** `list(_split_range(...))` on Beijing instants: the chunks of
      `batchDays` days, or the OverflowError of the first step that leaves
      the years a `datetime` holds. */
  method SplitRange(start: int, end: int, batchDays: int) returns (r: Result<seq<(int, int)>>)
    requires batchDays >= 1
    ensures r == ChunkList(start, end, batchDays * SecondsPerDay)
  {
    var step := batchDays * SecondsPerDay;
    var current := start;
    var chunks := [];
    assert ChunkList(start, end, step).Ok? ==> [] + ChunkList(start, end, step).value == ChunkList(start, end, step).value;
    while current < end
      invariant PrependChunks(chunks, ChunkList(current, end, step)) == ChunkList(start, end, step)
      decreases end - current
    {
      if !InDateRange(current + step) {
        return Err(Overflow);
      }
      var chunkEnd := if end <= current + step then end else current + step;
      var rest := ChunkList(chunkEnd, end, step);
      assert rest.Ok? ==> chunks + ([(current, chunkEnd)] + rest.value) == (chunks + [(current, chunkEnd)]) + rest.value;
      chunks := chunks + [(current, chunkEnd)];
      current := chunkEnd;
    }
    assert chunks + [] == chunks;
    r := Ok(chunks);
  }

  /** The chunks of a non-empty range cover exactly the instants from
      `start` up to (not including) `end`. */
  lemma ChunkListCovers(start: int, end: int, step: int)
    requires step >= 1 && start < end && ChunkList(start, end, step).Ok?
    ensures forall t :: start <= t < end <==> InChunk(ChunkList(start, end, step).value, t)
  {
    ChunkListSpec(start, end, step);
    ChunksCover(ChunkList(start, end, step).value, start, end);
  }

  /** Contiguous non-empty chunks from `start` to `end` cover exactly the
      instants from `start` up to (not including) `end`. */
  lemma {:induction false} ChunksCover(chunks: seq<(int, int)>, start: int, end: int)
    requires chunks != [] && chunks[0].0 == start && chunks[|chunks| - 1].1 == end
    requires Contiguous(chunks)
    requires forall k :: 0 <= k < |chunks| ==> chunks[k].0 < chunks[k].1
    ensures start < end
    ensures forall t :: start <= t < end <==> InChunk(chunks, t)
  {
    if |chunks| > 1 {
      var rest := chunks[1..];
      assert Contiguous(rest) by {
        forall k | 0 <= k < |rest| - 1 ensures rest[k].1 == rest[k + 1].0 {
          assert rest[k] == chunks[k + 1] && rest[k + 1] == chunks[k + 2];
        }
      }
      ChunksCover(rest, chunks[0].1, end);
      forall t ensures start <= t < end <==> InChunk(chunks, t) {
        if start <= t < end {
          if t >= chunks[0].1 {
            assert InChunk(rest, t);
            var k :| 0 <= k < |rest| && rest[k].0 <= t < rest[k].1;
            assert chunks[k + 1] == rest[k];
          } else {
            assert chunks[0].0 <= t < chunks[0].1;
          }
        }
        if InChunk(chunks, t) {
          var k :| 0 <= k < |chunks| && chunks[k].0 <= t < chunks[k].1;
          if k > 0 {
            assert rest[k - 1] == chunks[k];
            assert InChunk(rest, t);
          } else {
            assert chunks[0].1 < end;
          }
        }
      }
    } else {
      forall t ensures start <= t < end <==> InChunk(chunks, t) {
        if start <= t < end {
          assert chunks[0].0 <= t < chunks[0].1;
        }
      }
    }
  }

  // ---------------------------------------------------------------------
  // Fetching

  const Overflow := Exc("OverflowError", "date value out of range")

  /** The provider: `fetch_ohlcv(symbol, interval, start, end, adjust)`
      answers a frame or raises. */
  type Provider = (string, string, int, int, string) -> Result<Table>

  /** The provider's answers for the chunks, in order, keeping the
      non-empty frames; the first call that raises ends the fetch. */
  function Collect(task: DownloadTask, chunks: seq<(int, int)>, fetch: Provider): (r: Result<seq<Table>>)
    ensures r.Ok? ==> forall k :: 0 <= k < |r.value| ==> !IsEmpty(r.value[k])
  {
    if chunks == [] then Ok([])
    else
      match fetch(task.symbol, task.interval, chunks[0].0, chunks[0].1, task.adjust)
      case Err(e) => Err(e)
      case Ok(t) =>
        match Collect(task, chunks[1..], fetch)
        case Err(e) => Err(e)
        case Ok(frames) => Ok((if IsEmpty(t) then [] else [t]) + frames)
  }

  /** Frames collected so far in front of what the remaining chunks give. */
  function Prepend(frames: seq<Table>, rest: Result<seq<Table>>): Result<seq<Table>> {
    if rest.Err? then rest else Ok(frames + rest.value)
  }

  /** No frame gives an empty frame; otherwise the frames concatenated,
      de-duplicated on "datetime" (the last row wins) and sorted. */
  function Combine(frames: seq<Table>): (r: Result<Table>)
    ensures frames == [] ==> r == Ok(EmptyTable)
  {
    if frames == [] then Ok(EmptyTable) else UniqueSorted(ConcatDiagonal(frames))
  }

  lemma CollectStep(task: DownloadTask, chunks: seq<(int, int)>, i: int, fetch: Provider, frames: seq<Table>)
    requires 0 <= i < |chunks|
    ensures var answer := fetch(task.symbol, task.interval, chunks[i].0, chunks[i].1, task.adjust);
      && (answer.Err? ==> Prepend(frames, Collect(task, chunks[i..], fetch)) == Err(answer.error))
      && (answer.Ok? ==>
            var kept := if IsEmpty(answer.value) then [] else [answer.value];
            Prepend(frames, Collect(task, chunks[i..], fetch)) == Prepend(frames + kept, Collect(task, chunks[i + 1..], fetch)))
  {
    assert chunks[i..][0] == chunks[i];
    assert chunks[i..][1..] == chunks[i + 1..];
    var answer := fetch(task.symbol, task.interval, chunks[i].0, chunks[i].1, task.adjust);
    var rest := Collect(task, chunks[i + 1..], fetch);
    if answer.Ok? && rest.Ok? {
      var kept := if IsEmpty(answer.value) then [] else [answer.value];
      assert frames + (kept + rest.value) == (frames + kept) + rest.value;
    }
  }

  /** What `_fetch_range` returns for a range. Moving an instant outside
      the years a `datetime` holds to Beijing time is an OverflowError. */
  function FetchResult(task: DownloadTask, start: int, end: int, batchDays: int, fetch: Provider): (r: Result<Table>)
    requires batchDays >= 1
    ensures r.Ok? ==> InDateRange(start) && InDateRange(end)
  {
    if !InDateRange(start) || !InDateRange(end) then Err(Overflow)
    else match ChunkList(start, end, batchDays * SecondsPerDay)
    case Err(e) => Err(e)
    case Ok(chunks) =>
      match Collect(task, chunks, fetch)
      case Err(e) => Err(e)
      case Ok(frames) => Combine(frames)
  }

  /** A successful fetch holds one row per datetime the non-empty answers
      carry, in strictly increasing order, each being the last answered row
      with its datetime; with no rows answered the frame is empty. */
  lemma FetchResultSpec(task: DownloadTask, start: int, end: int, batchDays: int, fetch: Provider)
    requires batchDays >= 1
    requires FetchResult(task, start, end, batchDays, fetch).Ok?
    ensures var frames := Collect(task, ChunkList(start, end, batchDays * SecondsPerDay).value, fetch).value;
      var rows := FetchResult(task, start, end, batchDays, fetch).value.rows;
      && StrictlySorted(rows)
      && Keys(rows) == Keys(AllRows(frames))
      && (forall i :: 0 <= i < |rows| ==> rows[i] == LastWith(AllRows(frames), Key(rows[i])))
      && (IsEmpty(FetchResult(task, start, end, batchDays, fetch).value) <==> frames == [])
  {
    var frames := Collect(task, ChunkList(start, end, batchDays * SecondsPerDay).value, fetch).value;
    if frames != [] {
      var df := ConcatDiagonal(frames);
      ConcatDiagonalRows(frames);
      UniqueSortedSpec(df);
      assert frames[0].rows != [] by { assert !IsEmpty(frames[0]); }
      assert AllRows(frames) == frames[0].rows + AllRows(frames[1..]);
      assert Key(frames[0].rows[0]) in Keys(AllRows(frames)) by {
        assert AllRows(frames)[0] == frames[0].rows[0];
      }
    }
  }

  /** The request loop of `_fetch_range`: the chunks are requested in
      order, the non-empty answers kept, and the first exception ends it. */
  method FetchChunks(task: DownloadTask, chunks: seq<(int, int)>, fetch: Provider) returns (r: Result<seq<Table>>)
    ensures r == Collect(task, chunks, fetch)
  {
    var frames: seq<Table> := [];
    var i := 0;
    assert chunks[0..] == chunks;
    assert Collect(task, chunks, fetch).Ok? ==> [] + Collect(task, chunks, fetch).value == Collect(task, chunks, fetch).value;
    while i < |chunks|
      invariant 0 <= i <= |chunks|
      invariant Collect(task, chunks, fetch) == Prepend(frames, Collect(task, chunks[i..], fetch))
    {
      CollectStep(task, chunks, i, fetch, frames);
      var answer := fetch(task.symbol, task.interval, chunks[i].0, chunks[i].1, task.adjust);
      if answer.Err? {
        return Err(answer.error);
      }
      if !IsEmpty(answer.value) {
        frames := frames + [answer.value];
      } else {
        assert frames + [] == frames;
      }
      i := i + 1;
    }
    assert chunks[i..] == [];
    assert frames + [] == frames;
    r := Ok(frames);
  }

  /** `_fetch_range`: the range is cut into chunks, the chunks requested,
      and the non-empty answers combined. */
  method FetchRange(task: DownloadTask, start: int, end: int, batchDays: int, fetch: Provider) returns (r: Result<Table>)
    requires batchDays >= 1
    ensures r == FetchResult(task, start, end, batchDays, fetch)
  {
    if !InDateRange(start) || !InDateRange(end) {
      return Err(Overflow);
    }
    var chunks := SplitRange(start, end, batchDays);
    if chunks.Err? {
      return Err(chunks.error);
    }
    var frames := FetchChunks(task, chunks.value, fetch);
    if frames.Err? {
      return Err(frames.error);
    }
    if frames.value == [] {
      r := Ok(EmptyTable);
    } else {
      r := UniqueSorted(ConcatDiagonal(frames.value));
    }
  }

  // ---------------------------------------------------------------------
  // One task

  /** What `_run_task` decides from the newest stored file and its latest
      datetime: skip, or fetch from `from` and store the range starting at
      `rangeStart` (Beijing instants), replacing `existingPath`. */
  datatype Plan = Skip | Fetch(from: int, rangeStart: int, existingPath: Option<Path>)

  function PlanTask(task: DownloadTask, existing: Option<ExistingRange>, existingMax: Option<int>): Result<Plan>
    requires Aware(task.start) && Aware(task.end)
  {
    var start := InstantOf(task.start);
    if existing.None? then Ok(Fetch(start, start, None))
    else
      var e := existing.value;
      var rangeStart := if start < e.start then start else e.start;
      if e.start <= start && existingMax.Some? && existingMax.value >= InstantOf(task.end) then Ok(Skip)
      else if e.start <= start && existingMax.Some? then
        match NextStart(existingMax.value, task.interval)
        case Err(x) => Err(x)
        case Ok(next) => Ok(Fetch(next, rangeStart, Some(e.path)))
      else Ok(Fetch(start, rangeStart, Some(e.path)))
  }

  /** A task is skipped exactly when the newest file starts no later than
      the task and its data already reaches the task's end. */
  lemma PlanSkipIff(task: DownloadTask, existing: Option<ExistingRange>, existingMax: Option<int>)
    requires Aware(task.start) && Aware(task.end)
    ensures PlanTask(task, existing, existingMax) == Ok(Skip) <==>
      existing.Some? && existing.value.start <= InstantOf(task.start) &&
      existingMax.Some? && existingMax.value >= InstantOf(task.end)
  {
  }

  /** A fetch starts one interval after the stored data when the newest file
      starts no later than the task and has data, and at the task's start
      otherwise; the stored range begins at the earlier of the file's and
      the task's starts, so it covers both. */
  lemma PlanFetchFrom(task: DownloadTask, existing: Option<ExistingRange>, existingMax: Option<int>)
    requires Aware(task.start) && Aware(task.end)
    requires PlanTask(task, existing, existingMax).Ok? && PlanTask(task, existing, existingMax).value.Fetch?
    ensures var p := PlanTask(task, existing, existingMax).value;
      var start := InstantOf(task.start);
      && (existing.Some? && existing.value.start <= start && existingMax.Some? ==>
            p.from == NextStart(existingMax.value, task.interval).value && existingMax.value < InstantOf(task.end))
      && (!(existing.Some? && existing.value.start <= start && existingMax.Some?) ==> p.from == start)
      && p.rangeStart <= start
      && (existing.Some? ==> p.rangeStart <= existing.value.start && p.existingPath == Some(existing.value.path))
      && (existing.None? ==> p.existingPath.None?)
  {
  }

  /** An incremental fetch with a positive count starts after the latest
      stored datetime, so stored rows are not requested again. */
  lemma PlanIncrementalAfterMax(task: DownloadTask, existing: Option<ExistingRange>, m: int)
    requires Aware(task.start) && Aware(task.end)
    requires existing.Some? && existing.value.start <= InstantOf(task.start)
    requires PlanTask(task, existing, Some(m)).Ok? && PlanTask(task, existing, Some(m)).value.Fetch?
    requires IntervalDelta(task.interval).Ok?
    requires CountOf(SplitUnit(Lower(Strip(task.interval))).value.0).value >= 1
    ensures PlanTask(task, existing, Some(m)).value.from > m
  {
    var next := NextStart(m, task.interval);
    assert next.Ok?;
    assert PlanTask(task, existing, Some(m)).value.from == next.value;
    IntervalDeltaPositive(task.interval);
  }

  /** A stored file's name ends in ".parquet", so it is never the
      temporary file of an output. */
  lemma ParquetIsNotTmp(name: string, p: Path)
    requires EndsWith(name, ".parquet")
    ensures Path(p.dir, name) != TmpPath(p)
  {
    var t := TmpPath(p);
    EndsWithLast(t.name, ".tmp");
    EndsWithLast(name, ".parquet");
  }

  /** How a task ends, from the state it starts in: the plan's error, a
      skip, the fetch's error, nothing fetched, or the merged file written
      to the path of the stored range. Only a write changes the files. */
  ghost predicate TaskOutcome(before: map<Path, FileData>, after: map<Path, FileData>, root: seq<string>,
                              task: DownloadTask, batchDays: int, fetch: Provider,
                              existing: Option<ExistingRange>, r: Result<Status>)
    requires Aware(task.start) && Aware(task.end) && batchDays >= 1
  {
    var existingMax := if existing.Some? then ReadRangeMax(before, existing.value.path) else None;
    match PlanTask(task, existing, existingMax)
    case Err(e) => r == Err(e) && after == before
    case Ok(Skip) => r == Ok(Skipped) && after == before
    case Ok(Fetch(from, rangeStart, existingPath)) =>
      var end := InstantOf(task.end);
      match FetchResult(task, from, end, batchDays, fetch)
      case Err(e) => r == Err(e) && after == before
      case Ok(data) =>
        if IsEmpty(data) then r == Ok(Empty) && after == before
        else
          && InDateRange(rangeStart)
          && var output := BuildPath(root, task.assetType, task.symbol, task.interval, rangeStart, end);
             match MergedFile(before, existingPath, data, Some(task.adjust))
             case Err(e) => r == Err(e) && after == before
             case Ok(d) => r == Ok(Written) && after == MergeEndState(before, existingPath, output, d)
  }

  /** `_run_task` (without cancellation and pausing). */
  method RunTask(fs: FileSystem, root: seq<string>, task: DownloadTask, batchDays: int, fetch: Provider)
    returns (r: Result<Status>, ghost existing: Option<ExistingRange>)
    requires ValidTask(task) && batchDays >= 1
    modifies fs
    ensures NewestFile(old(fs.files), SymbolDir(root, task.assetType, task.symbol), task.interval, existing)
    ensures TaskOutcome(old(fs.files), fs.files, root, task, batchDays, fetch, existing, r)
  {
    var found := FindExisting(fs, root, task.assetType, task.symbol, task.interval);
    existing := found;
    ghost var before := fs.files;
    ghost var plan := PlanTask(task, found, if found.Some? then ReadRangeMax(before, found.value.path) else None);
    var start := InstantOf(task.start);
    var end := InstantOf(task.end);
    var existingPath: Option<Path> := None;
    var rangeStart := start;
    var from := start;
    if found.Some? {
      existingPath := Some(found.value.path);
      rangeStart := if start < found.value.start then start else found.value.start;
      var existingMax := ReadRangeMax(fs.files, found.value.path);
      if found.value.start <= start && existingMax.Some? && existingMax.value >= end {
        assert plan == Ok(Skip);
        r := Ok(Skipped);
        return;
      }
      if found.value.start <= start && existingMax.Some? {
        var next := NextStart(existingMax.value, task.interval);
        if next.Err? {
          assert plan == Err(next.error);
          r := Err(next.error);
          return;
        }
        from := next.value;
      }
    }
    assert plan == Ok(Fetch(from, rangeStart, existingPath));
    var data := FetchRange(task, from, end, batchDays, fetch);
    if data.Err? {
      r := Err(data.error);
      return;
    }
    if IsEmpty(data.value) {
      r := Ok(Empty);
      return;
    }
    var output := BuildPath(root, task.assetType, task.symbol, task.interval, rangeStart, end);
    if found.Some? {
      var dir := SymbolDir(root, task.assetType, task.symbol);
      var n :| IsCandidate(fs.files, dir, task.interval, n) && found.value == ParseRange(dir, n, task.interval).value;
      ParquetIsNotTmp(n, output);
    }
    var written := MergeAndWrite(fs, existingPath, data.value, output, Some(task.adjust));
    if written.Err? {
      r := Err(written.error);
      return;
    }
    r := Ok(Written);
  }

  /** Only a written task changes the files. */
  lemma OnlyWrittenChangesFiles(before: map<Path, FileData>, after: map<Path, FileData>, root: seq<string>,
                                task: DownloadTask, batchDays: int, fetch: Provider,
                                existing: Option<ExistingRange>, r: Result<Status>)
    requires Aware(task.start) && Aware(task.end) && batchDays >= 1
    requires TaskOutcome(before, after, root, task, batchDays, fetch, existing, r)
    ensures r != Ok(Written) ==> after == before
  {
  }

  // ---------------------------------------------------------------------
  // The failure ledger

  const LedgerFields: seq<string> := ["symbol", "interval", "start", "end", "asset_type", "adjust", "reason"]

  predicate AllValid(failures: seq<FailureRecord>) {
    forall i :: 0 <= i < |failures| ==> ValidTask(failures[i].task)
  }

  /** One row of the ledger: the task's fields, its dates as the calendar
      dates of its datetimes, and the reason. */
  function LedgerRecord(f: FailureRecord): (m: map<string, string>)
    requires ValidTask(f.task)
  {
    LedgerRow(f.task.symbol, f.task.interval, FormatIso(DateOf(f.task.start)), FormatIso(DateOf(f.task.end)),
              f.task.assetType, f.task.adjust, f.reason)
  }

  /** A ledger row from its seven cells. */
  function LedgerRow(symbol: string, interval: string, start: string, end: string,
                     assetType: string, adjust: string, reason: string): (m: map<string, string>)
    ensures "symbol" in m && m["symbol"] == symbol && "interval" in m && m["interval"] == interval
    ensures "start" in m && m["start"] == start && "end" in m && m["end"] == end
    ensures "asset_type" in m && m["asset_type"] == assetType && "adjust" in m && m["adjust"] == adjust
  {
    map["symbol" := symbol, "interval" := interval, "start" := start, "end" := end,
        "asset_type" := assetType, "adjust" := adjust, "reason" := reason]
  }

  function LedgerRecordOf(): FailureRecord --> map<string, string> {
    (f: FailureRecord) requires ValidTask(f.task) => LedgerRecord(f)
  }

  function LedgerRecords(failures: seq<FailureRecord>): (rs: seq<map<string, string>>)
    requires AllValid(failures)
    ensures |rs| == |failures| && forall i :: 0 <= i < |rs| ==> rs[i] == LedgerRecord(failures[i])
  {
    Seqs.MapSeq(failures, LedgerRecordOf())
  }

  /** `_write_failures`: the ledger replaces the file atomically. */
  method WriteFailures(fs: FileSystem, path: Path, failures: seq<FailureRecord>)
    requires AllValid(failures)
    modifies fs
    ensures fs.files == (old(fs.files) - {TmpPath(path)})[path := Csv(LedgerFields, LedgerRecords(failures))]
  {
    var records: seq<map<string, string>> := [];
    for i := 0 to |failures|
      invariant records == Seqs.MapSeq(failures[..i], LedgerRecordOf())
      invariant fs.files == old(fs.files)
    {
      Seqs.MapSeqPrefix(failures, i, LedgerRecordOf());
      records := records + [LedgerRecord(failures[i])];
    }
    assert failures[..|failures|] == failures;
    AtomicWrite(fs, path, Csv(LedgerFields, records));
  }

  function Field(record: map<string, string>, key: string, default: string): string {
    if key in record then record[key] else default
  }

  /** `beijing_now() - timedelta(days=365)`, which overflows in year 1. */
  function YearBefore(now: DateTime): (r: Result<DateTime>)
    requires Aware(now) && Representable(now)
    ensures r.Ok? ==> Aware(r.value) && Representable(r.value) && InstantOf(now) - InstantOf(r.value) == 365 * SecondsPerDay
    ensures r.Err? <==> now.wall < 365 * SecondsPerDay
  {
    var w := now.wall - 365 * SecondsPerDay;
    if 0 <= w then Ok(DateTime(w, now.offset)) else Err(Overflow)
  }

  /** A date cell of the ledger: parsed when not blank, else the default. */
  function DateCell(record: map<string, string>, key: string, default: Result<DateTime>): (r: Result<DateTime>)
    requires default.Ok? ==> Aware(default.value) && Representable(default.value)
    ensures r.Ok? ==> Aware(r.value) && Representable(r.value)
  {
    var s := Strip(Field(record, key, ""));
    if s == [] then default
    else
      ParseDate(s)
  }

  function KeyError(key: string): Exc {
    Exc("KeyError", "'" + key + "'")
  }

  /** One ledger row read back as a task: dates default to a year ago and
      to now, the asset type to "stock" and the adjustment to "auto"; a row
      without a symbol or an interval is a KeyError. */
  function LoadedTask(record: map<string, string>, now: DateTime): (r: Result<DownloadTask>)
    requires Aware(now) && Representable(now)
    ensures r.Ok? ==> ValidTask(r.value)
    ensures r.Ok? <==> (DateCell(record, "start", YearBefore(now)).Ok? && DateCell(record, "end", Ok(now)).Ok?
                        && "symbol" in record && "interval" in record)
    ensures r.Ok? ==> (r.value.symbol == record["symbol"] && r.value.interval == record["interval"]
                       && r.value.assetType == Field(record, "asset_type", "stock") && r.value.adjust == Field(record, "adjust", "auto"))
    ensures r.Ok? ==> (Ok(r.value.start) == DateCell(record, "start", YearBefore(now))
                       && Ok(r.value.end) == DateCell(record, "end", Ok(now)))
  {
    match DateCell(record, "start", YearBefore(now))
    case Err(e) => Err(e)
    case Ok(start) =>
      match DateCell(record, "end", Ok(now))
      case Err(e) => Err(e)
      case Ok(end) =>
        if "symbol" !in record then Err(KeyError("symbol"))
        else if "interval" !in record then Err(KeyError("interval"))
        else Ok(DownloadTask(record["symbol"], record["interval"], start, end,
                             Field(record, "asset_type", "stock"), Field(record, "adjust", "auto")))
  }

  /** `LoadedTask` at a fixed clock reading. */
  function LoadAt(now: DateTime): map<string, string> --> Result<DownloadTask>
    requires Aware(now) && Representable(now)
  {
    record requires Aware(now) && Representable(now) => LoadedTask(record, now)
  }

  /** The rows read in order; the first row that cannot be read ends the load. */
  function LoadAll(records: seq<map<string, string>>, now: DateTime): (r: Result<seq<DownloadTask>>)
    requires Aware(now) && Representable(now)
    ensures r.Ok? ==> |r.value| == |records| && forall i :: 0 <= i < |records| ==> LoadedTask(records[i], now) == Ok(r.value[i])
    ensures r.Ok? ==> AllValidTasks(r.value)
  {
    Seqs.MapResults(records, LoadAt(now))
  }

  /** `_load_failures` on the files: no ledger is no task; a file that is
      not a CSV ledger cannot be read. */
  function LoadedTasks(files: map<Path, FileData>, path: Path, now: DateTime): (r: Result<seq<DownloadTask>>)
    requires Aware(now) && Representable(now)
    ensures path !in files ==> r == Ok([])
    ensures r.Ok? ==> AllValidTasks(r.value)
  {
    if path !in files then Ok([])
    else match files[path]
      case Csv(_, records) => LoadAll(records, now)
      case _ => Err(Exc("Error", "failure ledger is not a CSV file"))
  }

  /** `_load_failures`, row by row. */
  method LoadFailures(fs: FileSystem, path: Path, now: DateTime) returns (r: Result<seq<DownloadTask>>)
    requires Aware(now) && Representable(now)
    ensures r == LoadedTasks(fs.files, path, now)
  {
    if path !in fs.files {
      return Ok([]);
    }
    var file := fs.files[path];
    if !file.Csv? {
      return Err(Exc("Error", "failure ledger is not a CSV file"));
    }
    var records := file.records;
    var tasks: seq<DownloadTask> := [];
    for i := 0 to |records|
      invariant LoadAll(records[..i], now) == Ok(tasks)
    {
      Seqs.MapResultsStep(records, i, LoadAt(now));
      var t := LoadedTask(records[i], now);
      if t.Err? {
        Seqs.MapResultsPrefixErr(records, i + 1, LoadAt(now));
        return Err(t.error);
      }
      tasks := tasks + [t.value];
    }
    assert records[..|records|] == records;
    r := Ok(tasks);
  }

  /** A date written as `YYYY-MM-DD` has no surrounding blanks. */
  lemma IsoStripped(d: Date)
    requires ValidDate(d)
    ensures Strip(FormatIso(d)) == FormatIso(d) && FormatIso(d) != []
  {
    var s := FormatIso(d);
    assert s[0] == Pad4(d.year)[0];
    assert s[9] == Pad2(d.day)[1];
    StripUnchanged(s);
  }

  /** What a task becomes through the ledger: everything but the dates is
      kept, and each date comes back as the Beijing midnight of the
      calendar date that was written. */
  ghost predicate Reloads(t: DownloadTask, u: DownloadTask)
    requires ValidTask(t) && ValidTask(u)
  {
    && u.symbol == t.symbol && u.interval == t.interval && u.assetType == t.assetType && u.adjust == t.adjust
    && DateOf(u.start) == DateOf(t.start) && InstantOf(u.start) == BeijingMidnight(DateOf(t.start))
    && DateOf(u.end) == DateOf(t.end) && InstantOf(u.end) == BeijingMidnight(DateOf(t.end))
  }

  /** A cell holding a date written as `YYYY-MM-DD` reads back as Beijing
      midnight of that date. */
  lemma DateCellOfIso(record: map<string, string>, key: string, d: Date, default: Result<DateTime>)
    requires ValidDate(d) && key in record && record[key] == FormatIso(d)
    requires default.Ok? ==> Aware(default.value) && Representable(default.value)
    ensures DateCell(record, key, default) == Ok(BeijingMidnightOf(d))
  {
    IsoStripped(d);
    ParseDateOfIso(d);
  }

  lemma LoadedTaskOf(record: map<string, string>, now: DateTime, s: DateTime, e: DateTime)
    requires Aware(now) && Representable(now)
    requires DateCell(record, "start", YearBefore(now)) == Ok(s) && DateCell(record, "end", Ok(now)) == Ok(e)
    requires "symbol" in record && "interval" in record
    ensures LoadedTask(record, now) == Ok(DownloadTask(record["symbol"], record["interval"], s, e,
                                                       Field(record, "asset_type", "stock"), Field(record, "adjust", "auto")))
  {
  }

  /** One failure written and read back. */
  lemma LedgerRecordReloads(f: FailureRecord, now: DateTime)
    requires ValidTask(f.task) && Aware(now) && Representable(now)
    ensures LoadedTask(LedgerRecord(f), now).Ok? && Reloads(f.task, LoadedTask(LedgerRecord(f), now).value)
  {
    var m := LedgerRecord(f);
    var t := f.task;
    DateCellOfIso(m, "start", DateOf(t.start), YearBefore(now));
    DateCellOfIso(m, "end", DateOf(t.end), Ok(now));
    LoadedTaskOf(m, now, BeijingMidnightOf(DateOf(t.start)), BeijingMidnightOf(DateOf(t.end)));
  }

  /** Each loaded task is what its failure's task becomes through the ledger. */
  ghost predicate ReloadsAll(failures: seq<FailureRecord>, ts: seq<DownloadTask>)
    requires AllValid(failures)
  {
    |ts| == |failures| && forall i :: 0 <= i < |ts| ==> ValidTask(ts[i]) && Reloads(failures[i].task, ts[i])
  }

  /** The ledger round trip: loading what `_write_failures` wrote gives
      back every failed task, in order, with its dates read as Beijing
      midnights of the same calendar dates. */
  lemma LedgerRoundTrip(failures: seq<FailureRecord>, now: DateTime)
    requires AllValid(failures) && Aware(now) && Representable(now)
    ensures LoadAll(LedgerRecords(failures), now).Ok?
    ensures ReloadsAll(failures, LoadAll(LedgerRecords(failures), now).value)
  {
    var rows := LedgerRecords(failures);
    forall i | 0 <= i < |rows| ensures LoadedTask(rows[i], now).Ok? && Reloads(failures[i].task, LoadedTask(rows[i], now).value) {
      LedgerRecordReloads(failures[i], now);
    }
    Seqs.MapResultsAllOk(rows, LoadAt(now));
  }

  // ---------------------------------------------------------------------
  // A run

  /** How many of the latest failures the statistics keep. */
  const RecentLimit: nat := 20

  /** The last `n` elements of `s`, or all of them when there are fewer. */
  function LastN<T>(s: seq<T>, n: nat): (r: seq<T>)
    ensures |r| <= n && |r| <= |s| && (|s| >= n ==> |r| == n)
    ensures r == s[|s| - |r|..]
  {
    if |s| > n then s[|s| - n..] else s
  }

  /** Appending to the kept failures and trimming them to the limit keeps
      exactly the last failures of the whole list. */
  lemma LastNAppend<T>(s: seq<T>, x: T, n: nat)
    requires n >= 1
    ensures LastN(LastN(s, n) + [x], n) == LastN(s + [x], n)
  {
    var k := LastN(s, n);
    if |s| > n {
      assert (k + [x])[1..] == (s + [x])[|s| + 1 - n..];
    }
  }

  /** `DownloadStats`: counters shared by the workers of a run. */
  class DownloadStats {
    var total: int
    var completed: int
    var active: int
    var failed: int
    var skipped: int
    var recentFailures: seq<FailureRecord>

    constructor (total: int)
      ensures this.total == total && completed == 0 && active == 0 && failed == 0 && skipped == 0
      ensures recentFailures == []
    {
      this.total := total;
      completed := 0;
      active := 0;
      failed := 0;
      skipped := 0;
      recentFailures := [];
    }

    /** Between tasks of a run: nothing is active, every failure is counted
        and the latest ones are kept, and skips and failures are among the
        completed tasks. */
    predicate Consistent(failures: seq<FailureRecord>)
      reads this
    {
      && active == 0
      && failed == |failures|
      && recentFailures == LastN(failures, RecentLimit)
      && 0 <= skipped && skipped + failed <= completed
    }

    /** The bookkeeping after a task ran: count a skip, or count and
        record a failure; then the task is no longer active and is
        completed. */
    method Finish(task: DownloadTask, outcome: Result<Status>, failures: seq<FailureRecord>)
      returns (failures': seq<FailureRecord>)
      requires active == 1 && failed == |failures| && recentFailures == LastN(failures, RecentLimit)
      requires 0 <= skipped && skipped + failed <= completed
      modifies this
      ensures failures' == failures + Failed(task, outcome)
      ensures total == old(total) && completed == old(completed) + 1
      ensures skipped == old(skipped) + (if outcome == Ok(Skipped) then 1 else 0)
      ensures Consistent(failures')
    {
      var added := Failed(task, outcome);
      failures' := failures + added;
      if outcome.Err? {
        assert |added| == 1;
        assert failures' == failures + [added[0]];
        AddFailure(failures, added[0]);
        assert recentFailures == LastN(failures', RecentLimit) && failed == |failures'|;
      } else {
        assert added == [];
        assert failures' == failures;
        if outcome == Ok(Skipped) {
          skipped := skipped + 1;
        }
      }
      active := active - 1;
      completed := completed + 1;
      assert skipped + failed <= completed;
    }

    /** Count a failure and keep it among the latest ones. */
    method AddFailure(failures: seq<FailureRecord>, record: FailureRecord)
      requires failed == |failures| && recentFailures == LastN(failures, RecentLimit)
      modifies this
      ensures failed == |failures| + 1 && recentFailures == LastN(failures + [record], RecentLimit)
      ensures total == old(total) && completed == old(completed) && active == old(active) && skipped == old(skipped)
    {
      failed := failed + 1;
      LastNAppend(failures, record, RecentLimit);
      recentFailures := recentFailures + [record];
      if |recentFailures| > RecentLimit {
        recentFailures := recentFailures[|recentFailures| - RecentLimit..];
      }
    }
  }

  /** The failure a task's outcome adds to the list. */
  function Failed(task: DownloadTask, outcome: Result<Status>): (r: seq<FailureRecord>)
    ensures |r| <= 1 && (r != [] <==> outcome.Err?)
    ensures outcome.Err? ==> r[0].task == task && r[0].reason == FormatFailureReason(outcome.error)
  {
    if outcome.Err? then [FailureRecord(task, FormatFailureReason(outcome.error))] else []
  }

  /** The worker of `run` for one task, without cancellation and progress
      callbacks: count the task as active, run it, count a skip or record
      a failure, then count it as completed. */
  method Worker(fs: FileSystem, root: seq<string>, task: DownloadTask, batchDays: int, fetch: Provider,
                stats: DownloadStats, failures: seq<FailureRecord>)
    returns (outcome: Result<Status>, failures': seq<FailureRecord>, ghost existing: Option<ExistingRange>)
    requires ValidTask(task) && batchDays >= 1
    requires stats.Consistent(failures)
    modifies fs, stats
    ensures Step(Trace(old(fs.files), fs.files, existing, outcome), root, task, batchDays, fetch)
    ensures failures' == failures + Failed(task, outcome)
    ensures stats.total == old(stats.total) && stats.completed == old(stats.completed) + 1
    ensures stats.skipped == old(stats.skipped) + (if outcome == Ok(Skipped) then 1 else 0)
    ensures stats.Consistent(failures')
  {
    stats.active := stats.active + 1;
    outcome, existing := RunTask(fs, root, task, batchDays, fetch);
    failures' := stats.Finish(task, outcome, failures);
  }

  /** What one task of a run did: the files before and after it, its
      newest stored file and its outcome. */
  datatype Trace = Trace(before: map<Path, FileData>, after: map<Path, FileData>,
                         existing: Option<ExistingRange>, outcome: Result<Status>)

  /** The failures of a run, in task order. */
  function FailuresOf(tasks: seq<DownloadTask>, traces: seq<Trace>): (r: seq<FailureRecord>)
    requires |traces| == |tasks|
    ensures |r| <= |tasks|
  {
    if tasks == [] then []
    else
      var n := |tasks| - 1;
      FailuresOf(tasks[..n], traces[..n]) + Failed(tasks[n], traces[n].outcome)
  }

  function TasksOf(failures: seq<FailureRecord>): (r: seq<DownloadTask>)
    ensures |r| == |failures| && forall i :: 0 <= i < |r| ==> r[i] == failures[i].task
  {
    if failures == [] then [] else TasksOf(failures[..|failures| - 1]) + [failures[|failures| - 1].task]
  }

  function CountSkipped(traces: seq<Trace>): (n: nat)
    ensures n <= |traces|
  {
    if traces == [] then 0
    else CountSkipped(traces[..|traces| - 1]) + (if traces[|traces| - 1].outcome == Ok(Skipped) then 1 else 0)
  }

  lemma FailuresOfSnoc(tasks: seq<DownloadTask>, traces: seq<Trace>, task: DownloadTask, tr: Trace)
    requires |traces| == |tasks|
    ensures FailuresOf(tasks + [task], traces + [tr]) == FailuresOf(tasks, traces) + Failed(task, tr.outcome)
    ensures CountSkipped(traces + [tr]) == CountSkipped(traces) + (if tr.outcome == Ok(Skipped) then 1 else 0)
  {
    assert (tasks + [task])[..|tasks|] == tasks;
    assert (traces + [tr])[..|traces|] == traces;
  }

  /** The failed tasks are some of the run's tasks, in the run's order. */
  lemma {:induction false} FailuresOfSubseq(tasks: seq<DownloadTask>, traces: seq<Trace>)
    requires |traces| == |tasks|
    ensures Seqs.SubseqOf(TasksOf(FailuresOf(tasks, traces)), tasks)
  {
    if tasks != [] {
      var n := |tasks| - 1;
      FailuresOfSubseq(tasks[..n], traces[..n]);
      var prev := TasksOf(FailuresOf(tasks[..n], traces[..n]));
      var keep := traces[n].outcome.Err?;
      assert tasks[..n] + [tasks[n]] == tasks;
      assert TasksOf(FailuresOf(tasks, traces)) == (if keep then prev + [tasks[n]] else prev);
      Seqs.SubseqAppendOne(prev, tasks[..n], tasks[n], keep);
    }
  }

  /** Skips and failures are different tasks of the run. */
  lemma {:induction false} FailuresOfBound(tasks: seq<DownloadTask>, traces: seq<Trace>)
    requires |traces| == |tasks|
    ensures |FailuresOf(tasks, traces)| + CountSkipped(traces) <= |tasks|
  {
    if tasks != [] {
      var n := |tasks| - 1;
      var o := traces[n].outcome;
      FailuresOfBound(tasks[..n], traces[..n]);
      assert |FailuresOf(tasks, traces)| == |FailuresOf(tasks[..n], traces[..n])| + |Failed(tasks[n], o)|;
      assert CountSkipped(traces) == CountSkipped(traces[..n]) + (if o == Ok(Skipped) then 1 else 0);
      assert |Failed(tasks[n], o)| + (if o == Ok(Skipped) then 1 else 0) <= 1;
    }
  }

  /** A run has no failures exactly when no task raised. */
  lemma {:induction false} FailuresOfNone(tasks: seq<DownloadTask>, traces: seq<Trace>)
    requires |traces| == |tasks|
    ensures FailuresOf(tasks, traces) == [] <==> forall i :: 0 <= i < |traces| ==> traces[i].outcome.Ok?
  {
    if tasks != [] {
      var n := |tasks| - 1;
      var init := traces[..n];
      FailuresOfNone(tasks[..n], init);
      var prev := FailuresOf(tasks[..n], init);
      assert FailuresOf(tasks, traces) == prev + Failed(tasks[n], traces[n].outcome);
      if forall i :: 0 <= i < |traces| ==> traces[i].outcome.Ok? {
        forall i | 0 <= i < n ensures init[i].outcome.Ok? {
          assert init[i] == traces[i];
        }
      } else {
        var i :| 0 <= i < |traces| && traces[i].outcome.Err?;
        if i < n {
          assert init[i] == traces[i];
        }
      }
    }
  }

  /** One task of a run: its newest file in the state it starts from, and
      how it ends. */
  ghost predicate Step(tr: Trace, root: seq<string>, task: DownloadTask, batchDays: int, fetch: Provider)
    requires batchDays >= 1
  {
    && ValidTask(task)
    && NewestFile(tr.before, SymbolDir(root, task.assetType, task.symbol), task.interval, tr.existing)
    && TaskOutcome(tr.before, tr.after, root, task, batchDays, fetch, tr.existing, tr.outcome)
  }

  /** The files after the traced tasks. */
  function Final(start: map<Path, FileData>, traces: seq<Trace>): map<Path, FileData> {
    if traces == [] then start else traces[|traces| - 1].after
  }

  /** Each task starts from the files the previous one left. */
  ghost predicate Chained(start: map<Path, FileData>, traces: seq<Trace>) {
    traces == [] || (Chained(start, traces[..|traces| - 1]) && traces[|traces| - 1].before == Final(start, traces[..|traces| - 1]))
  }

  /** A run from `start`: the tasks one after the other, each a step. */
  ghost predicate RunSteps(start: map<Path, FileData>, traces: seq<Trace>, root: seq<string>, tasks: seq<DownloadTask>,
                           batchDays: int, fetch: Provider)
    requires batchDays >= 1
  {
    && |traces| == |tasks|
    && (forall i {:trigger Step(traces[i], root, tasks[i], batchDays, fetch)} :: 0 <= i < |tasks| ==>
          Step(traces[i], root, tasks[i], batchDays, fetch))
    && Chained(start, traces)
  }

  lemma RunStepsSnoc(start: map<Path, FileData>, traces: seq<Trace>, root: seq<string>, tasks: seq<DownloadTask>,
                     batchDays: int, fetch: Provider, task: DownloadTask, tr: Trace)
    requires batchDays >= 1
    requires RunSteps(start, traces, root, tasks, batchDays, fetch)
    requires tr.before == Final(start, traces) && Step(tr, root, task, batchDays, fetch)
    ensures RunSteps(start, traces + [tr], root, tasks + [task], batchDays, fetch)
    ensures Final(start, traces + [tr]) == tr.after
  {
    var traces', tasks' := traces + [tr], tasks + [task];
    forall i | 0 <= i < |tasks'|
      ensures Step(traces'[i], root, tasks'[i], batchDays, fetch)
    {
      if i < |tasks| {
        assert traces'[i] == traces[i] && tasks'[i] == tasks[i];
      }
    }
    assert traces'[..|traces|] == traces;
  }

  /** One worker of `run`, with the trace of the run so far extended by
      its task. */
  method RunOne(fs: FileSystem, root: seq<string>, task: DownloadTask, batchDays: int, fetch: Provider,
                stats: DownloadStats, failures: seq<FailureRecord>, ghost start: map<Path, FileData>,
                ghost done: seq<DownloadTask>, ghost traces: seq<Trace>)
    returns (failures': seq<FailureRecord>, ghost traces': seq<Trace>)
    requires ValidTask(task) && batchDays >= 1
    requires RunSteps(start, traces, root, done, batchDays, fetch) && Final(start, traces) == fs.files
    requires failures == FailuresOf(done, traces) && stats.Consistent(failures)
    requires stats.skipped == CountSkipped(traces)
    modifies fs, stats
    ensures RunSteps(start, traces', root, done + [task], batchDays, fetch) && Final(start, traces') == fs.files
    ensures failures' == FailuresOf(done + [task], traces') && stats.Consistent(failures')
    ensures stats.total == old(stats.total) && stats.completed == old(stats.completed) + 1
    ensures stats.skipped == CountSkipped(traces')
  {
    ghost var before := fs.files;
    var outcome;
    ghost var existing;
    outcome, failures', existing := Worker(fs, root, task, batchDays, fetch, stats, failures);
    ghost var tr := Trace(before, fs.files, existing, outcome);
    RunStepsSnoc(start, traces, root, done, batchDays, fetch, task, tr);
    FailuresOfSnoc(done, traces, task, tr);
    traces' := traces + [tr];
  }

  /** The workers of `run`, one task after the other. */
  method RunAll(fs: FileSystem, root: seq<string>, tasks: seq<DownloadTask>, batchDays: int, fetch: Provider,
                stats: DownloadStats)
    returns (failures: seq<FailureRecord>, ghost traces: seq<Trace>)
    requires AllValidTasks(tasks) && batchDays >= 1
    requires stats.total == |tasks| && stats.completed == 0 && stats.skipped == 0 && stats.Consistent([])
    modifies fs, stats
    ensures RunSteps(old(fs.files), traces, root, tasks, batchDays, fetch) && Final(old(fs.files), traces) == fs.files
    ensures failures == FailuresOf(tasks, traces)
    ensures stats.total == |tasks| && stats.completed == |tasks| && stats.skipped == CountSkipped(traces)
    ensures stats.Consistent(failures)
  {
    failures, traces := [], [];
    for i := 0 to |tasks|
      invariant RunSteps(old(fs.files), traces, root, tasks[..i], batchDays, fetch)
      invariant Final(old(fs.files), traces) == fs.files
      invariant failures == FailuresOf(tasks[..i], traces)
      invariant stats.total == |tasks| && stats.completed == i && stats.skipped == CountSkipped(traces)
      invariant stats.Consistent(failures)
    {
      Seqs.PrefixSnoc(tasks, i);
      failures, traces := RunOne(fs, root, tasks[i], batchDays, fetch, stats, failures, old(fs.files), tasks[..i], traces);
    }
    assert tasks[..|tasks|] == tasks;
  }

  /** The part of `run` after the tasks are known: run them all, then
      write the ledger when any failed. */
  method RunTasks(fs: FileSystem, root: seq<string>, tasks: seq<DownloadTask>, failuresPath: Path,
                  batchDays: int, fetch: Provider)
    returns (failures: seq<FailureRecord>, stats: DownloadStats, ghost traces: seq<Trace>)
    requires AllValidTasks(tasks) && batchDays >= 1
    modifies fs
    ensures RunSteps(old(fs.files), traces, root, tasks, batchDays, fetch)
    ensures failures == FailuresOf(tasks, traces)
    ensures stats.total == |tasks| && stats.completed == |tasks|
    ensures stats.skipped == CountSkipped(traces) && stats.Consistent(failures)
    ensures failures == [] ==> fs.files == Final(old(fs.files), traces)
    ensures failures != [] ==> AllValid(failures)
    ensures failures != [] ==>
      fs.files == (Final(old(fs.files), traces) - {TmpPath(failuresPath)})[failuresPath := Csv(LedgerFields, LedgerRecords(failures))]
  {
    stats := new DownloadStats(|tasks|);
    failures, traces := RunAll(fs, root, tasks, batchDays, fetch, stats);
    FailuresValid(tasks, traces);
    if failures != [] {
      WriteFailures(fs, failuresPath, failures);
    }
  }

  /** `run` with the tasks in the given order and one worker at a time:
      every task is run from the files the previous one left; the
      failures are returned and, when there are any, written to the
      ledger. With `onlyFailures` the tasks are those of the ledger. */
  method Run(fs: FileSystem, root: seq<string>, tasks: seq<DownloadTask>, failuresPath: Path, onlyFailures: bool,
             now: DateTime, batchDays: int, fetch: Provider)
    returns (r: Result<seq<FailureRecord>>, stats: DownloadStats?, ghost ran: seq<DownloadTask>, ghost traces: seq<Trace>)
    requires Aware(now) && Representable(now) && batchDays >= 1
    requires !onlyFailures ==> AllValidTasks(tasks)
    modifies fs
    ensures !onlyFailures ==> ran == tasks
    ensures onlyFailures && LoadedTasks(old(fs.files), failuresPath, now).Err? ==>
      r == Err(LoadedTasks(old(fs.files), failuresPath, now).error) && fs.files == old(fs.files)
    ensures onlyFailures && LoadedTasks(old(fs.files), failuresPath, now).Ok? ==>
      ran == LoadedTasks(old(fs.files), failuresPath, now).value
    ensures r.Ok? ==> RunSteps(old(fs.files), traces, root, ran, batchDays, fetch)
    ensures r.Ok? ==> r.value == FailuresOf(ran, traces)
    ensures r.Ok? ==> stats != null && stats.total == |ran| && stats.completed == |ran|
    ensures r.Ok? ==> stats != null && stats.skipped == CountSkipped(traces) && stats.Consistent(r.value)
    ensures r == Ok([]) ==> fs.files == Final(old(fs.files), traces)
    ensures r.Ok? && r.value != [] ==> AllValid(r.value)
    ensures r.Ok? && r.value != [] ==>
      fs.files == (Final(old(fs.files), traces) - {TmpPath(failuresPath)})[failuresPath := Csv(LedgerFields, LedgerRecords(r.value))]
  {
    var run := tasks;
    ran, traces := tasks, [];
    if onlyFailures {
      var loaded := LoadFailures(fs, failuresPath, now);
      if loaded.Err? {
        return Err(loaded.error), null, ran, traces;
      }
      run := loaded.value;
      ran := run;
    }
    var failures, st;
    failures, st, traces := RunTasks(fs, root, run, failuresPath, batchDays, fetch);
    r, stats := Ok(failures), st;
  }

  /** Every failure of a run is a task of the run. */
  lemma {:induction false} FailuresValid(tasks: seq<DownloadTask>, traces: seq<Trace>)
    requires |traces| == |tasks| && AllValidTasks(tasks)
    ensures AllValid(FailuresOf(tasks, traces))
  {
    if tasks != [] {
      var n := |tasks| - 1;
      assert AllValidTasks(tasks[..n]) by {
        forall i | 0 <= i < n ensures ValidTask(tasks[..n][i]) {
          assert tasks[..n][i] == tasks[i];
        }
      }
      FailuresValid(tasks[..n], traces[..n]);
      var prev, added := FailuresOf(tasks[..n], traces[..n]), Failed(tasks[n], traces[n].outcome);
      var all := prev + added;
      assert FailuresOf(tasks, traces) == all;
      forall i | 0 <= i < |all| ensures ValidTask(all[i].task) {
        if i < |prev| {
          assert all[i] == prev[i];
        } else {
          assert all[i] == added[0];
        }
      }
    }
  }
}
