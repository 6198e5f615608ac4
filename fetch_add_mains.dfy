/**
 * The `main` of the three Rust benchmarks whose workers share a `fetch_add` cursor
 * (scylla-rust-driver, cdrs-tokio and cassandra-cpp): provisioning unless
 * `dont_prepare`, a pre-population of the table for a Selects run, then `concurrency`
 * workers over the cursor, all joined. A panicking worker (a failed request or a
 * failed row assertion) makes the joined handle an error, which `main` returns.
 */
module FetchAddMains {
  import opened Wrappers
  import opened Numeric
  import opened Workloads
  import opened Executor
  import opened TaskCursor
  import opened WorkerPool
  import opened Benchmark

  /** The table the benchmark pool starts from: provisioned unless `dont_prepare`, pre-populated for a prepared Selects run. */
  function Prepared(p: Plan, t0: Table): Table {
    var t1 := if p.dontPrepare then t0 else Provision(t0);
    if p.workload == Selects && !p.dontPrepare then Fill(t1, 0, p.tasks) else t1
  }

  /**
   * The verdicts a run may end with: a negative concurrency cannot become a vector
   * capacity; with no workers the table is the prepared one; otherwise it is what a
   * concurrent pass over [0, tasks) of the prepared table allows.
   */
  predicate FetchAddAllows(p: Plan, t0: Table, v: Verdict) {
    if p.concurrency < 0 then v == Aborted(NegativeCapacity)
    else if p.concurrency == 0 then v == Finished(Prepared(p, t0))
    else PassAllows(Prepared(p, t0), p.workload, 0, p.tasks, v)
  }

  /**
   * `main` after `Config::read`, for any interleaving of the workers' steps: the
   * pre-population pool (`max(1024, concurrency)` insert-only workers) and the
   * benchmark pool (`concurrency` workers) each follow their own schedule, and the
   * handles are awaited in spawn order.
   */
  method FetchAddBenchmark(p: Plan, t0: Table, prepopSchedule: seq<int>, schedule: seq<int>)
    returns (v: Verdict)
    requires p.batchSize >= 1
    ensures FetchAddAllows(p, t0, v)
  {
    var table := t0;
    if !p.dontPrepare {
      table := Provision(table);
    }
    if p.workload == Selects && !p.dontPrepare {
      // `Vec::with_capacity(config.concurrency.try_into().unwrap())`
      if p.concurrency < 0 {
        return Aborted(NegativeCapacity);
      }
      var prepop;
      ghost var prepopBatches;
      prepop, prepopBatches := RunPool(PreAdd, p.batchSize, p.tasks, Max(1024, p.concurrency), Inserts, table,
                                       InOrder, prepopSchedule);
      table := prepop.table;
    }
    if p.concurrency < 0 {
      return Aborted(NegativeCapacity);
    }
    var r;
    ghost var batches;
    r, batches := RunPool(PreAdd, p.batchSize, p.tasks, p.concurrency, p.workload, table, InOrder, schedule);
    v := Conclude(r);
  }

  /** The run aborts exactly when the concurrency is negative. */
  lemma FetchAddAborts(p: Plan, t0: Table, v: Verdict)
    requires FetchAddAllows(p, t0, v)
    ensures v.Aborted? <==> p.concurrency < 0
    ensures v.Aborted? ==> v.reason == NegativeCapacity
  {
    if p.concurrency > 0 && p.workload == Selects {
      SelectsPassIffCanonical(Prepared(p, t0), 0, p.tasks, v);
    }
  }

  /** One ascending pass of the whole range in a single worker is one of the runs allowed. */
  lemma FetchAddSequentialAllowed(p: Plan, t0: Table)
    requires p.concurrency > 0
    ensures FetchAddAllows(p, t0, Conclude(RunRange(Prepared(p, t0), p.workload, 0, p.tasks)))
  {
    SequentialPassAllowed(Prepared(p, t0), p.workload, 0, p.tasks);
  }

  /**
   * A prepared Selects run never faults: pre-population inserts every pk of [0, tasks)
   * into the freshly provisioned table, and the selects find each of them.
   */
  lemma PreparedSelectsPass(p: Plan, t0: Table, v: Verdict)
    requires FetchAddAllows(p, t0, v)
    requires p.workload == Selects && !p.dontPrepare && p.concurrency > 0
    ensures v == Finished(Fill(map[], 0, p.tasks))
  {
    SelectsPassIffCanonical(Fill(map[], 0, p.tasks), 0, p.tasks, v);
  }

  /** Inserts and Mixed runs write the expected row of every pk in [0, tasks) and touch nothing else. */
  lemma WritingRunsFillEveryPk(p: Plan, t0: Table, v: Verdict)
    requires FetchAddAllows(p, t0, v)
    requires IssuesInsert(p.workload) && p.concurrency > 0
    ensures v == Finished(Fill(if p.dontPrepare then t0 else map[], 0, p.tasks))
  {
  }

  /**
   * A Selects run on an existing table (`dont_prepare`) leaves it untouched and passes
   * exactly when every pk of [0, tasks) holds its row; otherwise the fault is the
   * select of some pk of the range that does not (which one depends on the interleaving).
   */
  lemma UnpreparedSelects(p: Plan, t0: Table, v: Verdict)
    requires FetchAddAllows(p, t0, v)
    requires p.workload == Selects && p.dontPrepare && p.concurrency > 0
    ensures v.Finished? <==> Canonical(t0, 0, p.tasks)
    ensures v.Finished? ==> v.table == t0
    ensures v.Faulted? ==> 0 <= v.fault.pk < p.tasks && !CanonicalAt(t0, v.fault.pk) && v.fault == FaultAt(t0, v.fault.pk)
  {
    SelectsPassIffCanonical(t0, 0, p.tasks, v);
  }

  /**
   * The I/O queue size the cassandra-cpp benchmark requests: `max(2048, 2 * concurrency)`,
   * after `2 * concurrency` has been converted to the driver's `u32`.
   */
  function CassandraQueueSize(concurrency: int): (r: Option<int>)
    ensures r.Some? <==> 0 <= 2 * concurrency <= UINT32_MAX
    ensures r.Some? ==> r.value >= 2048 && r.value >= 2 * concurrency
    ensures r.Some? ==> (r.value == 2048 || r.value == 2 * concurrency)
  {
    if 0 <= 2 * concurrency <= UINT32_MAX then Some(Max(2048, 2 * concurrency)) else None
  }

  /**
   * The cassandra-cpp `main`: the queue size is set before anything else, and then the
   * run is the shared fetch-and-add run.
   */
  method CassandraCppBenchmark(p: Plan, t0: Table, prepopSchedule: seq<int>, schedule: seq<int>)
    returns (v: Verdict)
    requires p.batchSize >= 1
    ensures CassandraQueueSize(p.concurrency).None? ==> v == Aborted(QueueSizeOutOfRange)
    ensures CassandraQueueSize(p.concurrency).Some? ==> FetchAddAllows(p, t0, v)
  {
    var queueSize := CassandraQueueSize(p.concurrency);
    if queueSize.None? {
      return Aborted(QueueSizeOutOfRange);
    }
    v := FetchAddBenchmark(p, t0, prepopSchedule, schedule);
  }

  /** Every concurrency the queue size accepts is nonnegative, so the run never aborts afterwards. */
  lemma QueueSizeAdmitsRun(p: Plan, t0: Table, v: Verdict)
    requires CassandraQueueSize(p.concurrency).Some? && FetchAddAllows(p, t0, v)
    ensures !v.Aborted?
  {
    FetchAddAborts(p, t0, v);
  }
}
