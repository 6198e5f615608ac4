/**
 * The `main` of the asynchronous Java 3.x benchmark. There is no shared cursor: worker
 * `i` of `concurrency` gets the static range [i * (tasks / c), (i + 1) * (tasks / c)),
 * the last one running to `tasks`, and walks it with the recursive `execute`, whose
 * future completes exceptionally at the first fault and then runs nothing further.
 * `main` waits on the futures in order, so the fault it reports is the one of the
 * first range that faulted. A missing row makes `rs.one()` null, so `r.getLong("v1")`
 * throws a NullPointerException; a wrong row throws the RuntimeException, whose message
 * reads the columns with `getLong` as the bigint schema allows. Either way the model
 * records the pk and the kind of bad row (`Fault`).
 */
module AsyncMain {
  import opened Wrappers
  import opened Numeric
  import opened Workloads
  import opened Executor
  import opened TaskCursor
  import opened Benchmark
  import JavaConfig

  /** The range of worker `i`, with Java's truncating `tasks / concurrency`. */
  function RangeOf(i: int, concurrency: int, tasks: int): Batch
    requires concurrency != 0
  {
    var q := TruncDiv(tasks, concurrency);
    if i + 1 == concurrency then Batch(i * q, tasks) else Batch(i * q, (i + 1) * q)
  }

  /** The ranges of the partition loop, one per worker. */
  function Partition(tasks: int, concurrency: int): seq<Batch> {
    if concurrency <= 0 then []
    else seq(concurrency, i => RangeOf(i, concurrency, tasks))
  }

  /** The partition loop: `for (int i = 0; i < concurrency; i++) arr.add(execute(...))`. */
  method PartitionRanges(tasks: int, concurrency: int) returns (ranges: seq<Batch>)
    ensures ranges == Partition(tasks, concurrency)
  {
    ranges := [];
    var i := 0;
    while i < concurrency
      invariant 0 <= i <= Max(0, concurrency)
      invariant |ranges| == i
      invariant forall k :: 0 <= k < i ==> ranges[k] == RangeOf(k, concurrency, tasks)
    {
      var q := TruncDiv(tasks, concurrency);
      if i + 1 == concurrency {
        ranges := ranges + [Batch(i * q, tasks)];
      } else {
        ranges := ranges + [Batch(i * q, (i + 1) * q)];
      }
      i := i + 1;
    }
  }

  /**
   * For a nonnegative task count the ranges start at 0, each starts where the previous
   * ended, the last ends at `tasks`; the first c - 1 hold tasks / c pks each and the
   * last holds tasks / c + tasks % c.
   */
  lemma PartitionShape(tasks: int, c: int)
    requires tasks >= 0 && c > 0
    ensures var rs := Partition(tasks, c);
      |rs| == c && rs[0].start == 0 && rs[c - 1].end == tasks &&
      (forall i :: 0 <= i < c - 1 ==> rs[i].end == rs[i + 1].start) &&
      (forall i :: 0 <= i < c - 1 ==> rs[i].end - rs[i].start == tasks / c) &&
      rs[c - 1].end - rs[c - 1].start == tasks / c + tasks % c &&
      (forall i :: 0 <= i < c ==> rs[i].start <= rs[i].end)
  {
    var rs := Partition(tasks, c);
    forall i | 0 <= i < c
      ensures rs[i] == RangeOf(i, c, tasks)
      ensures rs[i].start <= rs[i].end
      ensures i < c - 1 ==> rs[i].end - rs[i].start == tasks / c
      ensures i == c - 1 ==> rs[i].end - rs[i].start == tasks / c + tasks % c
    {
      RangeSize(i, c, tasks);
    }
  }

  /** The size of one range, from `tasks == c * (tasks / c) + tasks % c`. */
  lemma RangeSize(i: int, c: int, tasks: int)
    requires tasks >= 0 && 0 <= i < c
    ensures RangeOf(i, c, tasks).start == i * (tasks / c)
    ensures i + 1 < c ==> RangeOf(i, c, tasks).end - RangeOf(i, c, tasks).start == tasks / c
    ensures i + 1 == c ==> RangeOf(i, c, tasks).end - RangeOf(i, c, tasks).start == tasks / c + tasks % c
    ensures RangeOf(i, c, tasks).start <= RangeOf(i, c, tasks).end
  {
    var q := tasks / c;
    var r := tasks % c;
    assert TruncDiv(tasks, c) == q;
    EuclidSplit(tasks, c, q, r);
    RangeArithmetic(i, c, q, r, tasks);
  }

  lemma RangeArithmetic(i: int, c: int, q: int, r: int, tasks: int)
    requires tasks == c * q + r && q >= 0 && r >= 0 && 0 <= i < c
    ensures i * q <= (i + 1) * q && (i + 1) * q - i * q == q
    ensures i + 1 == c ==> i * q <= tasks && tasks - i * q == q + r
  {
    NextMultiple(i, q);
  }

  lemma NextMultiple(i: int, q: int)
    ensures (i + 1) * q == i * q + q
  {
  }

  lemma EuclidSplit(tasks: int, c: int, q: int, r: int)
    requires tasks >= 0 && c > 0 && q == tasks / c && r == tasks % c
    ensures tasks == c * q + r && q >= 0 && r >= 0
  {
  }

  /** The ranges chained one after the other, from `lo` to `hi`. */
  ghost predicate Chained(rs: seq<Batch>, lo: int, hi: int) {
    (|rs| == 0 ==> lo == hi) &&
    (|rs| > 0 ==> rs[0].start == lo && rs[|rs| - 1].end == hi) &&
    (forall i :: 0 <= i < |rs| ==> rs[i].start <= rs[i].end) &&
    (forall i :: 0 <= i < |rs| - 1 ==> rs[i].end == rs[i + 1].start)
  }

  /** The futures waited on in order: the ranges run one after another up to the first fault. */
  function RunChains(t: Table, w: Workload, rs: seq<Batch>): Run {
    if |rs| == 0 then Run(t, None)
    else
      var r := RunChains(t, w, rs[..|rs| - 1]);
      if r.fault.Some? then r else RunRange(r.table, w, rs[|rs| - 1].start, rs[|rs| - 1].end)
  }

  /** Chained ranges from lo to hi do what one ascending pass over [lo, hi) does. */
  lemma {:induction false} ChainsAreOnePass(t: Table, w: Workload, rs: seq<Batch>, lo: int, hi: int)
    requires Chained(rs, lo, hi)
    ensures lo <= hi
    ensures RunChains(t, w, rs) == RunRange(t, w, lo, hi)
  {
    if |rs| > 0 {
      var init := rs[..|rs| - 1];
      var last := rs[|rs| - 1];
      var mid := if |init| == 0 then lo else init[|init| - 1].end;
      assert Chained(init, lo, mid);
      ChainsAreOnePass(t, w, init, lo, mid);
      assert mid == last.start;
      RunRangeSplit(t, w, lo, mid, hi);
    }
  }

  /** The partition of a nonnegative task count is a single pass over [0, tasks). */
  lemma PartitionIsOnePass(t: Table, w: Workload, tasks: int, c: int)
    requires tasks >= 0 && c > 0
    ensures RunChains(t, w, Partition(tasks, c)) == RunRange(t, w, 0, tasks)
  {
    PartitionShape(tasks, c);
    ChainsAreOnePass(t, w, Partition(tasks, c), 0, tasks);
  }

  /** Insert-only chains never fault, whatever the ranges. */
  lemma {:induction false} InsertingChainsNeverFault(t: Table, rs: seq<Batch>)
    ensures RunChains(t, Inserts, rs).fault.None?
  {
    if |rs| > 0 {
      var init := rs[..|rs| - 1];
      InsertingChainsNeverFault(t, init);
      var r := RunChains(t, Inserts, init);
      RunRangeInserting(r.table, Inserts, rs[|rs| - 1].start, rs[|rs| - 1].end);
    }
  }

  /**
   * Every range's `execute` chain runs (they are all started before any is awaited);
   * then the futures are awaited in order and the first that failed is reported.
   */
  method RunAll(t: Table, w: Workload, rs: seq<Batch>) returns (r: Run)
    ensures r.fault == RunChains(t, w, rs).fault
    ensures r.fault.None? ==> r.table == RunChains(t, w, rs).table
  {
    var table := t;
    var failure: Option<Fault> := None;
    var i := 0;
    while i < |rs|
      invariant 0 <= i <= |rs|
      invariant failure == RunChains(t, w, rs[..i]).fault
      invariant failure.None? ==> table == RunChains(t, w, rs[..i]).table
    {
      assert rs[..i + 1][..i] == rs[..i];
      var chain := RunBatch(table, w, rs[i].start, rs[i].end);
      table := chain.table;
      if failure.None? {
        failure := chain.fault;
      }
      i := i + 1;
    }
    assert rs[..|rs|] == rs;
    r := Run(table, failure);
  }

  /** The verdict of a run from the configuration `s` read at start-up. */
  function AsyncOutcome(s: JavaConfig.Settings, t0: Table): Verdict {
    var ranges := Partition(s.tasks, s.concurrency);
    var t1 := Provision(t0);
    var t2 := if !s.dontPrepare && s.workload == Selects then RunChains(t1, Inserts, ranges).table else t1;
    Conclude(RunChains(t2, s.workload, ranges))
  }

  /**
   * `prepareSelectsBenchmark`: the configuration's workload is switched to Inserts for
   * the partitioned run and then restored to what it was.
   */
  method PrepareSelectsBenchmark(config: JavaConfig.Config, t: Table) returns (t': Table)
    modifies config
    ensures config.Current() == old(config.Current())
    ensures t' == RunChains(t, Inserts, Partition(config.tasks, config.concurrency)).table
  {
    var originalWorkload := config.workload;
    config.workload := Inserts;
    var ranges := PartitionRanges(config.tasks, config.concurrency);
    var r := RunAll(t, config.workload, ranges);
    InsertingChainsNeverFault(t, ranges);
    t' := r.table;
    config.workload := originalWorkload;
  }

  /** `main` after `new Config(args)`; the configuration is left as it was read. */
  method AsyncBenchmark(config: JavaConfig.Config, t0: Table) returns (v: Verdict)
    modifies config
    ensures config.Current() == old(config.Current())
    ensures v == AsyncOutcome(old(config.Current()), t0)
  {
    var table := Provision(t0);
    if !config.dontPrepare {
      table := Provision(table);
      if config.workload == Selects {
        table := PrepareSelectsBenchmark(config, table);
        RunRangeInserting(Provision(t0), Inserts, 0, config.tasks);
        if config.tasks >= 0 && config.concurrency > 0 {
          PartitionIsOnePass(Provision(t0), Inserts, config.tasks, config.concurrency);
        }
      }
    }
    var ranges := PartitionRanges(config.tasks, config.concurrency);
    var r := RunAll(table, config.workload, ranges);
    v := Conclude(r);
  }

  /** A prepared Selects run passes, over every pk of [0, tasks). */
  lemma AsyncPreparedSelectsPass(s: JavaConfig.Settings, t0: Table)
    requires s.workload == Selects && !s.dontPrepare && s.concurrency > 0 && s.tasks >= 0
    ensures AsyncOutcome(s, t0) == Finished(Fill(map[], 0, s.tasks))
  {
    PartitionIsOnePass(map[], Inserts, s.tasks, s.concurrency);
    RunRangeInserting(map[], Inserts, 0, s.tasks);
    PartitionIsOnePass(Fill(map[], 0, s.tasks), Selects, s.tasks, s.concurrency);
    RunRangeSelecting(Fill(map[], 0, s.tasks), 0, s.tasks);
  }

  /** Inserts and Mixed runs write the expected row of every pk of [0, tasks) into the provisioned table. */
  lemma AsyncWritesEveryPk(s: JavaConfig.Settings, t0: Table)
    requires IssuesInsert(s.workload) && s.concurrency > 0 && s.tasks >= 0
    ensures AsyncOutcome(s, t0) == Finished(Fill(map[], 0, s.tasks))
  {
    PartitionIsOnePass(map[], s.workload, s.tasks, s.concurrency);
    RunRangeInserting(map[], s.workload, 0, s.tasks);
  }

  /** Because provisioning runs even under `dont_prepare`, such a Selects run faults on pk 0. */
  lemma AsyncUnpreparedSelectsFault(s: JavaConfig.Settings, t0: Table)
    requires s.workload == Selects && s.dontPrepare && s.concurrency > 0 && s.tasks > 0
    ensures AsyncOutcome(s, t0) == Faulted(MissingRow(0))
  {
    PartitionIsOnePass(map[], Selects, s.tasks, s.concurrency);
  }
}
