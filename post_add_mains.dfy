/**
 * The `main` of the benchmarks whose workers share an add-and-get cursor: gocql
 * (`atomic.AddInt64`) and the two thread-pool Java benchmarks (`AtomicLong.addAndGet`).
 * Both use `concurrency` workers for pre-population as well as for the run. Go
 * provisions unless `noPrepare`; Java provisions unconditionally and once more
 * unless `dont_prepare`. A Go worker's panic ends the process; a Java worker's
 * exception surfaces from `Future.get` after the pool has terminated. Which exception
 * that is differs from what the Java code appears to say: a missing row makes `rs.one()`
 * null, and `r.getLong("v1")` then throws a NullPointerException (java-driver-4.x's
 * `assert r != null` runs only when assertions are enabled); for a wrong row, formatting
 * the RuntimeException's message calls `r.getInt` on a bigint column, and the driver's
 * type error is thrown in its place. The model records only the pk and the kind of bad
 * row (`Fault`), which every one of these carries.
 *
 * The cursor kind is a parameter of the verdict relations so that the cursor the
 * sources use (post-add) and the one they evidently intend (pre-add) can be compared.
 */
module PostAddMains {
  import opened Wrappers
  import opened Numeric
  import opened Workloads
  import opened Executor
  import opened TaskCursor
  import opened WorkerPool
  import opened Benchmark

  /** The table gocql's benchmark pool starts from: pre-population fills [FirstStart, tasks) only if it has workers. */
  function GoPrepared(p: Plan, t0: Table, kind: Kind): Table {
    var t1 := if p.dontPrepare then t0 else Provision(t0);
    if p.workload == Selects && !p.dontPrepare && p.concurrency > 0
    then Fill(t1, FirstStart(kind, p.batchSize), p.tasks) else t1
  }

  /** The gocql verdicts for a cursor of kind `kind`: the pools cover [FirstStart, tasks). */
  predicate GoAllows(p: Plan, t0: Table, kind: Kind, v: Verdict) {
    if p.concurrency <= 0 then v == Finished(GoPrepared(p, t0, kind))
    else PassAllows(GoPrepared(p, t0, kind), p.workload, FirstStart(kind, p.batchSize), p.tasks, v)
  }

  /**
   * gocql's `main` after `readConfig`, for any interleaving of the two pools' steps;
   * the first worker to panic ends the process.
   */
  method GoBenchmark(p: Plan, t0: Table, prepopSchedule: seq<int>, schedule: seq<int>)
    returns (v: Verdict)
    requires p.batchSize >= 1
    ensures GoAllows(p, t0, PostAdd, v)
  {
    var table := t0;
    if !p.dontPrepare {
      table := Provision(table);
    }
    if p.workload == Selects && !p.dontPrepare {
      var prepop;
      ghost var prepopBatches;
      prepop, prepopBatches := RunPool(PostAdd, p.batchSize, p.tasks, p.concurrency, Inserts, table,
                                       FirstPanic, prepopSchedule);
      table := prepop.table;
    }
    var r;
    ghost var batches;
    r, batches := RunPool(PostAdd, p.batchSize, p.tasks, p.concurrency, p.workload, table, FirstPanic, schedule);
    v := Conclude(r);
  }

  /** The gocql run never aborts. */
  lemma GoNeverAborts(p: Plan, t0: Table, kind: Kind, v: Verdict)
    requires GoAllows(p, t0, kind, v)
    ensures !v.Aborted?
  {
    if p.concurrency > 0 && p.workload == Selects {
      SelectsPassIffCanonical(GoPrepared(p, t0, kind), FirstStart(kind, p.batchSize), p.tasks, v);
    }
  }

  /** The table the Java benchmark pool starts from: provisioned whatever `dont_prepare` says. */
  function JavaPrepared(p: Plan, t0: Table, kind: Kind): Table {
    var t1 := Provision(t0);
    if p.workload == Selects && !p.dontPrepare then Fill(t1, FirstStart(kind, p.batchSize), p.tasks) else t1
  }

  /**
   * The Java verdicts for a cursor of kind `kind`. A fixed thread pool of no threads
   * is rejected; otherwise the pools cover [FirstStart, tasks).
   */
  predicate JavaAllows(p: Plan, t0: Table, kind: Kind, v: Verdict) {
    if p.concurrency <= 0 then v == Aborted(EmptyThreadPool)
    else PassAllows(JavaPrepared(p, t0, kind), p.workload, FirstStart(kind, p.batchSize), p.tasks, v)
  }

  /**
   * The `main` of java-driver-3.x and java-driver-4.x after `new Config(args)`, for
   * any interleaving; the futures are checked in submission order.
   */
  method JavaBenchmark(p: Plan, t0: Table, prepopSchedule: seq<int>, schedule: seq<int>)
    returns (v: Verdict)
    requires p.batchSize >= 1
    ensures JavaAllows(p, t0, PostAdd, v)
  {
    var table := Provision(t0);
    if !p.dontPrepare {
      table := Provision(table);
      if p.workload == Selects {
        if p.concurrency <= 0 {
          return Aborted(EmptyThreadPool);
        }
        var prepop;
        ghost var prepopBatches;
        prepop, prepopBatches := RunPool(PostAdd, p.batchSize, p.tasks, p.concurrency, Inserts, table,
                                         InOrder, prepopSchedule);
        table := prepop.table;
      }
    }
    if p.concurrency <= 0 {
      return Aborted(EmptyThreadPool);
    }
    var r;
    ghost var batches;
    r, batches := RunPool(PostAdd, p.batchSize, p.tasks, p.concurrency, p.workload, table, InOrder, schedule);
    v := Conclude(r);
  }

  /** The Java run aborts exactly when the thread pool would have no threads. */
  lemma JavaAborts(p: Plan, t0: Table, kind: Kind, v: Verdict)
    requires JavaAllows(p, t0, kind, v)
    ensures v.Aborted? <==> p.concurrency <= 0
    ensures v.Aborted? ==> v.reason == EmptyThreadPool
  {
    if p.concurrency > 0 && p.workload == Selects {
      SelectsPassIffCanonical(JavaPrepared(p, t0, kind), FirstStart(kind, p.batchSize), p.tasks, v);
    }
  }

  /**
   * As written, an inserting gocql run writes only [batch_size, tasks): every pk below
   * the batch size is left out of the provisioned table.
   */
  lemma GoSkipsFirstBatch(p: Plan, t0: Table, v: Verdict)
    requires GoAllows(p, t0, PostAdd, v)
    requires p.batchSize >= 1 && IssuesInsert(p.workload) && !p.dontPrepare && p.concurrency > 0
    ensures v == Finished(Fill(map[], p.batchSize, p.tasks))
    ensures forall pk :: 0 <= pk < p.batchSize ==> pk !in v.table
  {
  }

  /** 1000 inserts at concurrency 10 (batch size 100): pk 0 is never written, pk 100 is. */
  lemma GoMissesPkZero(v: Verdict)
    requires GoAllows(Plan(Inserts, 1000, 10, 100, false), map[], PostAdd, v)
    ensures v.Finished? && 0 !in v.table && 100 in v.table
  {
    GoSkipsFirstBatch(Plan(Inserts, 1000, 10, 100, false), map[], v);
  }

  /**
   * The pre-population skips the same first batch that the selects skip, so a prepared
   * Selects run still passes — over [batch_size, tasks) only.
   */
  lemma GoPreparedSelectsPass(p: Plan, t0: Table, v: Verdict)
    requires GoAllows(p, t0, PostAdd, v)
    requires p.batchSize >= 1 && p.workload == Selects && !p.dontPrepare && p.concurrency > 0
    ensures v == Finished(Fill(map[], p.batchSize, p.tasks))
  {
    SelectsPassIffCanonical(Fill(map[], p.batchSize, p.tasks), p.batchSize, p.tasks, v);
  }

  /**
   * With a fetch-and-add cursor (the value before the add) the same run writes every
   * pk of [0, tasks), and a prepared Selects run reads every one of them.
   */
  lemma GoPreAddFillsEveryPk(p: Plan, t0: Table, v: Verdict)
    requires GoAllows(p, t0, PreAdd, v)
    requires p.batchSize >= 1 && p.concurrency > 0 && !p.dontPrepare
    ensures IssuesInsert(p.workload) ==> v == Finished(Fill(map[], 0, p.tasks))
    ensures p.workload == Selects ==> v == Finished(Fill(map[], 0, p.tasks))
  {
    if p.workload == Selects {
      SelectsPassIffCanonical(Fill(map[], 0, p.tasks), 0, p.tasks, v);
    }
  }

  /** As written, an inserting Java run leaves every pk below the batch size unwritten. */
  lemma JavaSkipsFirstBatch(p: Plan, t0: Table, v: Verdict)
    requires JavaAllows(p, t0, PostAdd, v)
    requires p.batchSize >= 1 && IssuesInsert(p.workload) && p.concurrency > 0
    ensures v == Finished(Fill(map[], p.batchSize, p.tasks))
    ensures forall pk :: 0 <= pk < p.batchSize ==> pk !in v.table
  {
  }

  /** With a fetch-and-add cursor an inserting Java run writes every pk of [0, tasks). */
  lemma JavaPreAddFillsEveryPk(p: Plan, t0: Table, v: Verdict)
    requires JavaAllows(p, t0, PreAdd, v)
    requires p.batchSize >= 1 && IssuesInsert(p.workload) && p.concurrency > 0
    ensures v == Finished(Fill(map[], 0, p.tasks))
  {
  }

  /**
   * Because Java provisions even under `dont_prepare`, a Selects run with
   * `dont_prepare` reads an empty table and faults on a missing row: one of
   * [batch_size, tasks), whichever a worker selects first.
   */
  lemma JavaUnpreparedSelectsFault(p: Plan, t0: Table, v: Verdict)
    requires JavaAllows(p, t0, PostAdd, v)
    requires p.batchSize >= 1 && p.workload == Selects && p.dontPrepare && p.concurrency > 0
    requires p.tasks > p.batchSize
    ensures v.Faulted? && v.fault == MissingRow(v.fault.pk) && p.batchSize <= v.fault.pk < p.tasks
  {
    assert !CanonicalAt(map[], p.batchSize);
  }
}
