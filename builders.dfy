/** The decisions of `build_parquet` and `_build_parquet_worker` in
    elbow/builders.py: argument validation, what happens to an existing
    destination, how many workers run and which ids are launched, how a worker
    narrows its stream of paths, and how it names its output segment.

    The filesystem, the clock, the process pool, `iglob`, `cpu_count` and
    `hash_partitioner` are parameters: an "exists" flag, a timestamp, the
    list of launched ids, an abstract glob function, a CPU count and an
    abstract partition predicate. */
module Builders {
  import opened Wrappers
  import opened Seqs
  import MetaFilter

  /** The keyword arguments of `build_parquet` that steer its decisions. */
  datatype BuildConfig = BuildConfig(
    incremental: bool,
    overwrite: bool,
    workers: Option<int>,
    workerId: Option<int>)

  /** The exceptions `build_parquet` and its workers raise. */
  datatype BuildError =
    | OverwriteWithWorkerId                      // ValueError
    | WorkerIdNeedsWorkers                       // ValueError
    | DestinationExists                          // FileExistsError
    | SegmentExists(segment: string)             // FileExistsError
    | IndexUnreadable(cause: MetaFilter.IndexReadError)  // ValueError from `from_parquet`

  // ---------------------------------------------------------------------------
  // Validation, destination and worker count

  /** The two checks on `worker_id`, in source order: overwrite first. */
  function Validate(c: BuildConfig): (r: Option<BuildError>)
    ensures r.None? <==> c.workerId.None? || (!c.overwrite && c.workers.Some? && c.workers.value > 0)
    ensures r == Some(OverwriteWithWorkerId) <==> c.workerId.Some? && c.overwrite
    ensures r == Some(WorkerIdNeedsWorkers) <==>
              c.workerId.Some? && !c.overwrite && (c.workers.None? || c.workers.value <= 0)
  {
    if c.workerId.None? then None
    else if c.overwrite then Some(OverwriteWithWorkerId)
    else if c.workers.None? || c.workers.value <= 0 then Some(WorkerIdNeedsWorkers)
    else None
  }

  /** A build adds to the destination rather than replacing it when it is
      incremental or is one externally scheduled worker. */
  predicate InPlace(c: BuildConfig)
  {
    c.incremental || c.workerId.Some?
  }

  datatype DirAction = KeepDestination | RemoveDestination

  /** What happens to the destination directory: an existing one is removed
      (overwrite) or refused, unless the build works in place. */
  function DestinationAction(c: BuildConfig, destExists: bool): (r: Result<DirAction, BuildError>)
    ensures r.Failure? <==> destExists && !InPlace(c) && !c.overwrite
    ensures r.Failure? ==> r.error == DestinationExists
    ensures r == Success(RemoveDestination) <==> destExists && !InPlace(c) && c.overwrite
  {
    if destExists && !InPlace(c) then
      if c.overwrite then Success(RemoveDestination) else Failure(DestinationExists)
    else Success(KeepDestination)
  }

  /** `workers`: None means one, zero or less means one per core. */
  function ResolveWorkers(workers: Option<int>, cpuCount: int): (n: int)
    requires cpuCount >= 1
    ensures n >= 1
    ensures workers.Some? && workers.value >= 1 ==> n == workers.value
    ensures workers.None? ==> n == 1
    ensures workers.Some? && workers.value <= 0 ==> n == cpuCount
  {
    if workers.None? then 1
    else if workers.value <= 0 then cpuCount
    else workers.value
  }

  // ---------------------------------------------------------------------------
  // Dispatch

  /** The ids 0, 1, ..., n-1 in order. */
  function Ids(n: nat): (r: seq<int>)
    ensures |r| == n
    ensures forall k :: 0 <= k < n ==> r[k] == k
  {
    if n == 0 then [] else Ids(n - 1) + [n - 1]
  }

  /** The worker ids that run, given the resolved worker count: one worker
      runs as worker 0 whatever id was given, an explicit id runs alone, and
      otherwise every id below the count is submitted to the pool. */
  function Launches(workers: int, workerId: Option<int>): (r: seq<int>)
    requires workers >= 1
    ensures r != []
    ensures workers == 1 ==> r == [0]
    ensures workers > 1 && workerId.Some? ==> r == [workerId.value]
    ensures workerId.None? ==> |r| == workers && forall x :: x in r ==> 0 <= x < workers
    ensures workers > 1 && workerId.None? ==> r == Ids(workers)
  {
    if workers == 1 then [0]
    else if workerId.Some? then [workerId.value]
    else Ids(workers)
  }

  /** The outcome of `build_parquet` up to the point where the workers run. */
  datatype BuildPlan = BuildPlan(action: DirAction, workers: int, launched: seq<int>)

  /** The decisions of `build_parquet`, in the order the source takes them. */
  function Plan(c: BuildConfig, destExists: bool, cpuCount: int): (r: Result<BuildPlan, BuildError>)
    requires cpuCount >= 1
    ensures r.Success? <==> Validate(c).None? && DestinationAction(c, destExists).Success?
    ensures Validate(c).Some? ==> r == Failure(Validate(c).value)
    ensures r.Success? ==> r.value.workers >= 1 && r.value.launched != []
    ensures r.Success? && r.value.action == RemoveDestination ==>
              destExists && c.overwrite && c.workerId.None? && !c.incremental
    ensures Validate(c).None? && DestinationAction(c, destExists).Failure? ==> r == Failure(DestinationExists)
    ensures r.Success? ==>
              && r.value.action == DestinationAction(c, destExists).value
              && r.value.workers == ResolveWorkers(c.workers, cpuCount)
              && r.value.launched == Launches(r.value.workers, c.workerId)
  {
    match Validate(c)
    case Some(e) => Failure(e)
    case None =>
      match DestinationAction(c, destExists)
      case Failure(e) => Failure(e)
      case Success(action) =>
        var n := ResolveWorkers(c.workers, cpuCount);
        Success(BuildPlan(action, n, Launches(n, c.workerId)))
  }

  /** `build_parquet` up to the workers: the checks, then the dispatch, whose
      fan-out builds the id-to-future table one id at a time. */
  method BuildParquet(c: BuildConfig, destExists: bool, cpuCount: int) returns (r: Result<BuildPlan, BuildError>)
    requires cpuCount >= 1
    ensures r == Plan(c, destExists, cpuCount)
  {
    var invalid := Validate(c);
    if invalid.Some? {
      return Failure(invalid.value);
    }
    var action := DestinationAction(c, destExists);
    if action.Failure? {
      return Failure(action.error);
    }
    var workers := ResolveWorkers(c.workers, cpuCount);
    var launched: seq<int>;
    if workers == 1 {
      launched := [0];
    } else if c.workerId.Some? {
      launched := [c.workerId.value];
    } else {
      launched := [];
      var ii := 0;
      while ii < workers
        invariant 0 <= ii <= workers
        invariant launched == Ids(ii)
      {
        launched := launched + [ii];
        ii := ii + 1;
      }
    }
    r := Success(BuildPlan(action.value, workers, launched));
  }

  /** Fanning out submits every id below the worker count exactly once and
      nothing else. */
  lemma {:induction false} IdsEachOnce(n: nat)
    ensures forall id :: 0 <= id < n ==> multiset(Ids(n))[id] == 1
    ensures forall x :: x in Ids(n) ==> 0 <= x < n
  {
    if n > 0 {
      var prev := Ids(n - 1);
      IdsEachOnce(n - 1);
      assert Ids(n) == prev + [n - 1];
      assert multiset(Ids(n)) == multiset(prev) + multiset{n - 1};
      forall id | 0 <= id < n
        ensures multiset(Ids(n))[id] == 1
      {
        assert multiset(Ids(n))[id] == multiset(prev)[id] + multiset{n - 1}[id];
        if id == n - 1 {
          assert id !in prev;
        }
      }
    }
  }

  /** The three dispatch cases of `build_parquet`. */
  lemma DispatchCases(c: BuildConfig, destExists: bool, cpuCount: int)
    requires cpuCount >= 1
    requires Plan(c, destExists, cpuCount).Success?
    ensures var p := Plan(c, destExists, cpuCount).value;
      && (p.workers == 1 ==> p.launched == [0])
      && (p.workers > 1 && c.workerId.Some? ==> p.launched == [c.workerId.value])
      && (p.workers > 1 && c.workerId.None? ==>
            |p.launched| == p.workers &&
            (forall id :: 0 <= id < p.workers ==> multiset(p.launched)[id] == 1) &&
            (forall x :: x in p.launched ==> 0 <= x < p.workers))
  {
    var p := Plan(c, destExists, cpuCount).value;
    if p.workers > 1 && c.workerId.None? {
      IdsEachOnce(p.workers);
    }
  }

  /** Running a from-scratch build a second time fails: the first run leaves
      the destination behind and neither overwrite nor in-place applies. */
  lemma RepeatedBuildFails(c: BuildConfig, cpuCount: int)
    requires cpuCount >= 1
    requires !c.incremental && !c.overwrite && c.workerId.None?
    ensures Plan(c, false, cpuCount).Success?
    ensures Plan(c, true, cpuCount) == Failure(DestinationExists)
  {
  }

  // ---------------------------------------------------------------------------
  // Segment names

  /** The calendar fields of `datetime.now()` that `%Y%m%d%H%M%S` prints. */
  datatype DateTime = DateTime(year: int, month: int, day: int, hour: int, minute: int, second: int)
  {
    /** Years before 1000 are printed without padding on some platforms, so
        the model keeps to four-digit years. */
    predicate Valid()
    {
      1000 <= year <= 9999 && 1 <= month <= 12 && 1 <= day <= 31 &&
      0 <= hour <= 23 && 0 <= minute <= 59 && 0 <= second <= 59
    }
  }

  predicate IsDigit(c: char)
  {
    '0' <= c <= '9'
  }

  predicate AllDigits(s: string)
  {
    forall i :: 0 <= i < |s| ==> IsDigit(s[i])
  }

  function DigitChar(d: int): (c: char)
    requires 0 <= d < 10
    ensures IsDigit(c)
  {
    ('0' as int + d) as char
  }

  function DigitValue(c: char): int
  {
    c as int - '0' as int
  }

  function Pow10(k: nat): nat
  {
    if k == 0 then 1 else 10 * Pow10(k - 1)
  }

  /** The decimal digits of `n`, without leading zeros. */
  function Digits(n: nat): (s: string)
    ensures |s| >= 1 && AllDigits(s)
  {
    (if n < 10 then [] else Digits(n / 10)) + [DigitChar(n % 10)]
  }

  function Zeros(k: nat): (s: string)
    ensures |s| == k && AllDigits(s)
  {
    if k == 0 then [] else ['0'] + Zeros(k - 1)
  }

  /** `n` zero-padded on the left to at least `width` digits. */
  function ZeroPad(n: nat, width: nat): (s: string)
    ensures AllDigits(s) && |s| >= width
  {
    var d := Digits(n);
    Zeros(if |d| < width then width - |d| else 0) + d
  }

  /** Python's `format(n, "0<width>d")`: the sign counts towards the width,
      so a negative number gets one padding digit fewer. */
  function FormatInt(n: int, width: nat): (s: string)
    ensures |s| >= width
  {
    if n >= 0 then ZeroPad(n, width)
    else "-" + ZeroPad(-n, if width >= 1 then width - 1 else 0)
  }

  /** The value of a string of decimal digits. */
  function Value(s: string): int
  {
    if s == [] then 0 else Value(s[..|s| - 1]) * 10 + DigitValue(s[|s| - 1])
  }

  /** The value of an optionally signed decimal string. */
  function ParseInt(s: string): int
  {
    if |s| > 0 && s[0] == '-' then -Value(s[1..]) else Value(s)
  }

  /** Reading the last digit of `Digits(n)` separately. */
  lemma {:induction false} ValueLastDigit(n: nat)
    ensures Value(Digits(n)) == (if n < 10 then 0 else Value(Digits(n / 10))) * 10 + n % 10
  {
    var d := Digits(n);
    var front: string := if n < 10 then [] else Digits(n / 10);
    assert d == front + [DigitChar(n % 10)];
    assert d[..|d| - 1] == front;
  }

  lemma {:induction false} ValueDigits(n: nat)
    ensures Value(Digits(n)) == n
  {
    ValueLastDigit(n);
    if n < 10 {
      assert n % 10 == n;
    } else {
      var q := n / 10;
      ValueDigits(q);
      assert Value(Digits(n)) == q * 10 + n % 10;
    }
  }

  lemma {:induction false} ValueLeadingZero(s: string)
    ensures Value(['0'] + s) == Value(s)
  {
    if s != [] {
      assert (['0'] + s)[..|s|] == ['0'] + s[..|s| - 1];
      ValueLeadingZero(s[..|s| - 1]);
    }
  }

  lemma {:induction false} ValueZeros(k: nat, s: string)
    ensures Value(Zeros(k) + s) == Value(s)
  {
    if k > 0 {
      var rest := Zeros(k - 1) + s;
      ValueZeros(k - 1, s);
      assert Value(rest) == Value(s);
      assert Zeros(k) + s == ['0'] + rest;
      ValueLeadingZero(rest);
    } else {
      assert Zeros(k) + s == s;
    }
  }

  lemma {:induction false} ValueZeroPad(n: nat, width: nat)
    ensures Value(ZeroPad(n, width)) == n
  {
    var d := Digits(n);
    var k: nat := if |d| < width then width - |d| else 0;
    var padded := Zeros(k) + d;
    assert ZeroPad(n, width) == padded;
    ValueZeros(k, d);
    assert Value(padded) == Value(d);
    ValueDigits(n);
  }

  /** Formatting an id and reading it back gives the id. */
  lemma {:induction false} FormatIntRoundTrip(n: int, width: nat)
    ensures ParseInt(FormatInt(n, width)) == n
  {
    if n >= 0 {
      ValueZeroPad(n, width);
      assert IsDigit(FormatInt(n, width)[0]);
    } else {
      var w := if width >= 1 then width - 1 else 0;
      ValueZeroPad(-n, w);
      assert FormatInt(n, width)[1..] == ZeroPad(-n, w);
    }
  }

  lemma {:induction false} DigitsLength(n: nat, k: nat)
    requires k >= 1 && n < Pow10(k)
    ensures |Digits(n)| <= k
  {
    if n >= 10 {
      assert k >= 2;
      assert n / 10 < Pow10(k - 1);
      DigitsLength(n / 10, k - 1);
    }
  }

  lemma {:induction false} ZeroPadExact(n: nat, width: nat)
    requires width >= 1 && n < Pow10(width)
    ensures |ZeroPad(n, width)| == width
  {
    DigitsLength(n, width);
  }

  /** `start.strftime('%Y%m%d%H%M%S')`. */
  function Timestamp(t: DateTime): string
    requires t.Valid()
  {
    (ZeroPad(t.year, 4) + ZeroPad(t.month, 2) + ZeroPad(t.day, 2)) +
    (ZeroPad(t.hour, 2) + ZeroPad(t.minute, 2) + ZeroPad(t.second, 2))
  }

  /** Reads the six fields back out of a 14-digit timestamp. */
  function ParseTimestamp(s: string): DateTime
    requires |s| == 14
  {
    var date := s[..8];
    var time := s[8..];
    DateTime(Value(date[..4]), Value(date[4..6]), Value(date[6..]),
             Value(time[..2]), Value(time[2..4]), Value(time[4..]))
  }

  /** The three parts of a concatenation can be sliced back out. */
  lemma SliceThree(a: string, b: string, c: string)
    ensures (a + b + c)[..|a|] == a
    ensures (a + b + c)[|a|..|a| + |b|] == b
    ensures (a + b + c)[|a| + |b|..] == c
  {
  }

  /** A field below `10^width` pads to exactly `width` digits and reads back. */
  lemma {:induction false} FieldRoundTrip(n: nat, width: nat)
    requires width >= 1 && n < Pow10(width)
    ensures |ZeroPad(n, width)| == width && Value(ZeroPad(n, width)) == n
  {
    ZeroPadExact(n, width);
    ValueZeroPad(n, width);
  }

  /** The timestamp of a valid date has exactly 14 digits and determines the date. */
  lemma TimestampRoundTrip(t: DateTime)
    requires t.Valid()
    ensures |Timestamp(t)| == 14 && AllDigits(Timestamp(t))
    ensures ParseTimestamp(Timestamp(t)) == t
  {
    FieldRoundTrip(t.year, 4);
    FieldRoundTrip(t.month, 2);
    FieldRoundTrip(t.day, 2);
    FieldRoundTrip(t.hour, 2);
    FieldRoundTrip(t.minute, 2);
    FieldRoundTrip(t.second, 2);
    var date := ZeroPad(t.year, 4) + ZeroPad(t.month, 2) + ZeroPad(t.day, 2);
    var time := ZeroPad(t.hour, 2) + ZeroPad(t.minute, 2) + ZeroPad(t.second, 2);
    SliceThree(ZeroPad(t.year, 4), ZeroPad(t.month, 2), ZeroPad(t.day, 2));
    SliceThree(ZeroPad(t.hour, 2), ZeroPad(t.minute, 2), ZeroPad(t.second, 2));
    var s := date + time;
    assert s[..8] == date && s[8..] == time;
    AllDigitsConcat(ZeroPad(t.year, 4), ZeroPad(t.month, 2));
    AllDigitsConcat(ZeroPad(t.year, 4) + ZeroPad(t.month, 2), ZeroPad(t.day, 2));
    AllDigitsConcat(ZeroPad(t.hour, 2), ZeroPad(t.minute, 2));
    AllDigitsConcat(ZeroPad(t.hour, 2) + ZeroPad(t.minute, 2), ZeroPad(t.second, 2));
    AllDigitsConcat(date, time);
    assert s == Timestamp(t);
  }

  lemma AllDigitsConcat(a: string, b: string)
    requires AllDigits(a) && AllDigits(b)
    ensures AllDigits(a + b)
  {
  }

  const SegmentPrefix: string := "part-"
  const SegmentSuffix: string := ".parquet"

  /** The file name of a worker's output segment. */
  function SegmentName(start: DateTime, workerId: int): (name: string)
    requires start.Valid()
    ensures |name| >= |SegmentPrefix| + 1 + |SegmentSuffix|
    ensures name[..|SegmentPrefix|] == SegmentPrefix
    ensures name[|name| - |SegmentSuffix|..] == SegmentSuffix
  {
    SegmentPrefix + Timestamp(start) + "-" + FormatInt(workerId, 4) + SegmentSuffix
  }

  /** A segment name is `part-`, the 14-digit start time, `-`, the id padded to
      at least four characters (exactly four when it fits), and `.parquet`; the id and the start time can
      be read back out of it. */
  lemma SegmentNameFields(start: DateTime, workerId: int)
    requires start.Valid()
    ensures var name := SegmentName(start, workerId);
      && |name| >= 5 + 14 + 1 + 4 + 8
      && name[..20][..5] == SegmentPrefix
      && AllDigits(name[..20][5..19]) && ParseTimestamp(name[..20][5..19]) == start
      && name[..20][19] == '-'
      && name[|name| - 8..] == SegmentSuffix
      && |name[20..|name| - 8]| >= 4
      && ParseInt(name[20..|name| - 8]) == workerId
      && (workerId >= 0 ==> AllDigits(name[20..|name| - 8]))
      && (-1000 < workerId < 10000 ==> |name[20..|name| - 8]| == 4)
  {
    TimestampRoundTrip(start);
    FormatIntRoundTrip(workerId, 4);
    if 0 <= workerId < 10000 {
      assert Pow10(4) == 10000;
      ZeroPadExact(workerId, 4);
    } else if -1000 < workerId < 0 {
      assert Pow10(3) == 1000;
      ZeroPadExact(-workerId, 3);
    }
    var ts := Timestamp(start);
    var id := FormatInt(workerId, 4);
    var head := SegmentPrefix + ts + "-";
    SliceThree(SegmentPrefix, ts, "-");
    SliceThree(head, id, SegmentSuffix);
    assert SegmentName(start, workerId) == head + id + SegmentSuffix;
  }

  /** Distinct workers, or distinct start times, never share a segment name. */
  lemma SegmentNameInjective(t1: DateTime, id1: int, t2: DateTime, id2: int)
    requires t1.Valid() && t2.Valid()
    requires SegmentName(t1, id1) == SegmentName(t2, id2)
    ensures t1 == t2 && id1 == id2
  {
    SegmentNameFields(t1, id1);
    SegmentNameFields(t2, id2);
  }

  // ---------------------------------------------------------------------------
  // The worker

  /** `source`: a glob pattern or an explicit iterable of paths. */
  datatype Source = Pattern(pattern: string) | Paths(paths: seq<string>)

  /** What a worker sees of the world: `iglob(pattern, recursive=True)`,
      `hash_partitioner(worker_id, workers)`, the filesystem, whether the
      destination exists, what `read_table` finds there, and the names of the
      files already in it. */
  datatype WorkerEnv = WorkerEnv(
    glob: string -> seq<string>,
    partitioner: (int, int) -> (string -> bool),
    fs: MetaFilter.FileSystem,
    destExists: bool,
    stored: MetaFilter.StoredTable,
    existing: set<string>)

  /** The paths a source yields, in order. */
  function SourcePaths(source: Source, glob: string -> seq<string>): seq<string>
  {
    match source
    case Pattern(p) => glob(p)
    case Paths(ps) => ps
  }

  /** The file-modified index a worker loads: only for an incremental build
      into an existing destination. */
  function LoadIndex(incremental: bool, env: WorkerEnv): (r: Result<Option<MetaFilter.FileModifiedIndex>, BuildError>)
    ensures r.Failure? <==>
              incremental && env.destExists && MetaFilter.FromParquet(env.stored).Failure?
    ensures r.Success? && r.value.Some? ==>
              incremental && env.destExists && r.value.value == MetaFilter.FromParquet(env.stored).value
    ensures incremental && env.destExists && MetaFilter.FromParquet(env.stored).Success? ==>
              r == Success(Some(MetaFilter.FromParquet(env.stored).value))
    ensures !(incremental && env.destExists) ==> r == Success(None)
  {
    if incremental && env.destExists then
      match MetaFilter.FromParquet(env.stored)
      case Failure(e) => Failure(IndexUnreadable(e))
      case Success(idx) => Success(Some(idx))
    else Success(None)
  }

  /** A path reaches a worker's pipeline when it passes every filter that
      applies: the index when one was loaded, the partition when there is more
      than one worker. */
  function Selected(index: Option<MetaFilter.FileModifiedIndex>, env: WorkerEnv,
                    workerId: int, workers: int): string -> bool
  {
    (p: string) =>
      (index.Some? ==> index.value.Filter(env.fs, p)) &&
      (workers > 1 ==> env.partitioner(workerId, workers)(p))
  }

  /** What a worker hands to its pipeline: the segment it writes and the
      paths it extracts, in source order. */
  datatype WorkerPlan = WorkerPlan(segment: string, stream: seq<string>)

  /** `_build_parquet_worker` up to the pipeline: rebinding the source through
      each applicable filter, naming the segment, and refusing to overwrite an
      existing one. */
  method BuildParquetWorker(workerId: int, source: Source, incremental: bool, workers: int,
                            start: DateTime, env: WorkerEnv)
    returns (r: Result<WorkerPlan, BuildError>)
    requires start.Valid()
    ensures LoadIndex(incremental, env).Failure? ==> r == Failure(LoadIndex(incremental, env).error)
    ensures LoadIndex(incremental, env).Success? ==>
              (r.Failure? <==> SegmentName(start, workerId) in env.existing)
    ensures r.Failure? ==> r.error.IndexUnreadable? || r.error == SegmentExists(SegmentName(start, workerId))
    ensures r.Success? ==>
              && r.value.segment == SegmentName(start, workerId)
              && r.value.segment !in env.existing
              && r.value.stream ==
                 Filter(Selected(LoadIndex(incremental, env).value, env, workerId, workers),
                        SourcePaths(source, env.glob))
  {
    var paths := SourcePaths(source, env.glob);
    var stream := paths;
    var index: Option<MetaFilter.FileModifiedIndex> := None;
    if incremental && env.destExists {
      var loaded := MetaFilter.FromParquet(env.stored);
      if loaded.Failure? {
        return Failure(IndexUnreadable(loaded.error));
      }
      var idx := loaded.value;
      index := Some(idx);
      stream := Filter((p: string) => idx.Filter(env.fs, p), stream);
    }
    if workers > 1 {
      stream := Filter(env.partitioner(workerId, workers), stream);
    }
    var segment := SegmentName(start, workerId);
    if segment in env.existing {
      return Failure(SegmentExists(segment));
    }

    var selected := Selected(index, env, workerId, workers);
    if index.Some? && workers > 1 {
      FilterCompose((p: string) => index.value.Filter(env.fs, p),
                    env.partitioner(workerId, workers), selected, paths);
    } else if index.Some? {
      FilterCongruent((p: string) => index.value.Filter(env.fs, p), selected, paths);
    } else if workers > 1 {
      FilterCongruent(env.partitioner(workerId, workers), selected, paths);
    } else {
      FilterKeepsAll(selected, paths);
    }
    r := Success(WorkerPlan(segment, stream));
  }

  /** When the partition predicates of workers 0..W-1 give each path to exactly
      one of them, the workers' streams split the index-selected paths: each
      such path reaches exactly one worker, and no worker sees another path. */
  lemma PartitionCovers(index: Option<MetaFilter.FileModifiedIndex>, env: WorkerEnv,
                        workers: int, paths: seq<string>, p: string)
    requires workers > 1
    requires p in paths && (index.Some? ==> index.value.Filter(env.fs, p))
    requires exists k :: 0 <= k < workers && env.partitioner(k, workers)(p)
    requires forall k1, k2 ::
               (0 <= k1 < workers && 0 <= k2 < workers &&
                env.partitioner(k1, workers)(p) && env.partitioner(k2, workers)(p)) ==> k1 == k2
    ensures exists k :: 0 <= k < workers && p in Filter(Selected(index, env, k, workers), paths)
    ensures forall k1, k2 ::
              (0 <= k1 < workers && 0 <= k2 < workers &&
               p in Filter(Selected(index, env, k1, workers), paths) &&
               p in Filter(Selected(index, env, k2, workers), paths)) ==> k1 == k2
  {
    var k :| 0 <= k < workers && env.partitioner(k, workers)(p);
    assert p in Filter(Selected(index, env, k, workers), paths);
  }
}
