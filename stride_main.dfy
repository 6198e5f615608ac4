/**
 * The `main` of the basic Rust benchmark (`benchmarks/basic/rust`). There is no shared
 * cursor: one loop walks `i = 0, 256, 512, ...` while `i < tasks`, acquires a permit of
 * a semaphore of `concurrency` permits, and spawns a task for the batch starting at
 * `i`; the task releases its permit when it ends, also when it panics. After the loop,
 * acquiring (and forgetting) all `concurrency` permits waits for every spawned task.
 * A failed row assertion panics only its own task: the run still ends normally.
 *
 * The timed loop clamps a batch to `min(i + 256, tasks)`; the pre-population loop
 * does not (`i + 256`). Both are `StrideLoop`, told which by `clamped`.
 */
module StrideMain {
  import opened Wrappers
  import opened Numeric
  import opened Workloads
  import opened Executor
  import opened TaskCursor
  import opened Benchmark
  import RustBasicConfig

  /** The fixed batch size of this benchmark. */
  const STRIDE: int := 256

  /** What a stride loop leaves: the table and the faults its tasks panicked on, or why it never ends. */
  datatype StrideOutcome = Ran(table: Table, faults: set<Fault>) | Halted(reason: Abort)

  /** Where a batch starting at `begin` ends. */
  function StrideEnd(begin: int, tasks: int, clamped: bool): int {
    if clamped then Min(begin + STRIDE, tasks) else begin + STRIDE
  }

  /** The k-th batch the loop spawns. */
  function StrideBatch(k: int, tasks: int, clamped: bool): Batch {
    Batch(STRIDE * k, StrideEnd(STRIDE * k, tasks, clamped))
  }

  /** The first `n` batches the loop spawns, in order. */
  function Spawned(n: nat, tasks: int, clamped: bool): seq<Batch> {
    seq(n, k => StrideBatch(k, tasks, clamped))
  }

  lemma SpawnedSnoc(n: nat, tasks: int, clamped: bool)
    ensures Spawned(n + 1, tasks, clamped) == Spawned(n, tasks, clamped) + [StrideBatch(n, tasks, clamped)]
  {
  }

  /** How many times `while i < tasks { ...; i += 256 }` runs: ceil(tasks / 256), or 0. */
  function NumStrides(tasks: int): nat {
    if tasks <= 0 then 0 else (tasks + STRIDE - 1) / STRIDE
  }

  /** The loop runs `n` times exactly when `256 * n` is the first multiple of 256 at or past `tasks`. */
  lemma NumStridesExact(n: nat, tasks: int)
    requires STRIDE * n >= tasks && (n == 0 || STRIDE * (n - 1) < tasks)
    ensures n == NumStrides(tasks)
  {
  }

  /** The pks the spawned batches end at: `tasks` (or 0) when clamped, the next multiple of 256 otherwise. */
  function StrideLimit(tasks: int, clamped: bool): int {
    if clamped then Max(0, tasks) else STRIDE * NumStrides(tasks)
  }

  /**
   * The batches are non-empty, ascending and contiguous from 0, and end at the stride
   * limit: so they are disjoint and cover exactly [0, limit).
   */
  lemma SpawnedContiguous(tasks: int, clamped: bool)
    ensures Contiguous(Spawned(NumStrides(tasks), tasks, clamped), 0)
    ensures End(Spawned(NumStrides(tasks), tasks, clamped), 0) == StrideLimit(tasks, clamped)
    ensures Covered(Spawned(NumStrides(tasks), tasks, clamped)) == Range(0, StrideLimit(tasks, clamped))
  {
    var n := NumStrides(tasks);
    var bs := Spawned(n, tasks, clamped);
    if n > 0 {
      assert STRIDE * (n - 1) < tasks <= STRIDE * n;
      forall k | 0 <= k < n
        ensures bs[k].start < bs[k].end
        ensures k < n - 1 ==> bs[k].end == STRIDE * (k + 1)
      {
        assert STRIDE * k <= STRIDE * (n - 1);
        if k < n - 1 {
          assert STRIDE * (k + 1) <= STRIDE * (n - 1);
        }
      }
    }
    ContiguousCovers(bs, 0);
  }

  /** The timed loop's batches cover exactly [0, tasks). */
  lemma ClampedCoversTasks(tasks: int)
    requires tasks >= 0
    ensures Covered(Spawned(NumStrides(tasks), tasks, true)) == Range(0, tasks)
    ensures |Spawned(NumStrides(tasks), tasks, true)| == (tasks + STRIDE - 1) / STRIDE
  {
    SpawnedContiguous(tasks, true);
  }

  /** The fault a Selects batch panics on, if any. */
  function BatchFault(t: Table, b: Batch): Option<Fault> {
    RunRange(t, Selects, b.start, b.end).fault
  }

  /** The faults of a set of Selects batches on an unchanging table. */
  function SelectFaults(t: Table, bs: seq<Batch>): set<Fault> {
    if |bs| == 0 then {}
    else
      var last := bs[|bs| - 1];
      SelectFaults(t, bs[..|bs| - 1]) + (if BatchFault(t, last).Some? then {BatchFault(t, last).value} else {})
  }

  lemma {:induction false} SelectFaultsMembers(t: Table, bs: seq<Batch>, f: Fault)
    ensures f in SelectFaults(t, bs) <==> exists b :: b in bs && BatchFault(t, b) == Some(f)
  {
    if |bs| > 0 {
      var init := bs[..|bs| - 1];
      SelectFaultsMembers(t, init, f);
      assert forall b :: b in bs <==> b in init || b == bs[|bs| - 1] by {
        assert bs == init + [bs[|bs| - 1]];
      }
    }
  }

  lemma {:induction false} CoveredMembers(bs: seq<Batch>, pk: int)
    ensures pk in Covered(bs) <==> exists b :: b in bs && b.start <= pk < b.end
  {
    if |bs| > 0 {
      var init := bs[..|bs| - 1];
      CoveredMembers(init, pk);
      assert forall b :: b in bs <==> b in init || b == bs[|bs| - 1] by {
        assert bs == init + [bs[|bs| - 1]];
      }
    }
  }

  /** Completion order does not matter: the same batches cover the same pks and panic on the same faults. */
  lemma SameBatches(t: Table, a: seq<Batch>, b: seq<Batch>)
    requires multiset(a) == multiset(b)
    ensures Covered(a) == Covered(b)
    ensures SelectFaults(t, a) == SelectFaults(t, b)
  {
    assert forall x :: x in a <==> x in b by {
      forall x ensures x in a <==> x in b {
        assert x in a <==> x in multiset(a);
        assert x in b <==> x in multiset(b);
      }
    }
    forall pk ensures pk in Covered(a) <==> pk in Covered(b) {
      CoveredMembers(a, pk);
      CoveredMembers(b, pk);
    }
    forall f ensures f in SelectFaults(t, a) <==> f in SelectFaults(t, b) {
      SelectFaultsMembers(t, a, f);
      SelectFaultsMembers(t, b, f);
    }
  }

  /**
   * What a stride loop leaves, whatever order its tasks end in: a negative concurrency
   * cannot become a permit count, a semaphore of no permits blocks the first acquire
   * forever, and otherwise inserting workloads fill [0, limit) while Selects leaves the
   * table alone and panics on the first bad pk of each bad batch.
   */
  function StrideSpec(w: Workload, tasks: int, concurrency: int, t: Table, clamped: bool): StrideOutcome {
    var bs := Spawned(NumStrides(tasks), tasks, clamped);
    if concurrency < 0 then Halted(NegativeCapacity)
    else if concurrency == 0 && tasks > 0 then Halted(ZeroPermits)
    else if IssuesInsert(w) then Ran(Fill(t, 0, StrideLimit(tasks, clamped)), {})
    else Ran(t, SelectFaults(t, bs))
  }

  /** The task to wait for when no permit is free: any of those in flight. */
  function Pick(choices: seq<nat>, k: nat, n: nat): (j: nat)
    requires n > 0
    ensures j < n
  {
    if k < |choices| then choices[k] % n else 0
  }

  /** The tracked state of a loop: what the completed batches have done to the table and the faults. */
  ghost predicate Accounted(w: Workload, t: Table, table: Table, faults: set<Fault>, completed: seq<Batch>) {
    (IssuesInsert(w) ==> table == FillSet(t, Covered(completed)) && faults == {}) &&
    (w == Selects ==> table == t && faults == SelectFaults(t, completed))
  }

  /** A spawned task runs its batch to the end or to its panic, and drops its permit. */
  method FinishTask(w: Workload, t: Table, table: Table, faults: set<Fault>, ghost completed: seq<Batch>, b: Batch)
    returns (table': Table, faults': set<Fault>)
    requires Accounted(w, t, table, faults, completed)
    ensures Accounted(w, t, table', faults', completed + [b])
  {
    var r := RunBatch(table, w, b.start, b.end);
    table' := r.table;
    faults' := if r.fault.Some? then faults + {r.fault.value} else faults;
    ghost var all := completed + [b];
    assert all[..|all| - 1] == completed;
    if IssuesInsert(w) {
      RunRangeInserting(table, w, b.start, b.end);
      FillSetStep(t, Covered(completed), b.start, b.end);
    } else if w == Selects {
      RunRangeSelecting(table, b.start, b.end);
    }
  }

  /**
   * `acquire`: a free permit is taken at once; when none is free the acquire waits
   * until some task in flight (the one `choices` names) has ended and dropped its
   * permit; with no permit free and no task in flight it blocks forever.
   */
  method Acquire(w: Workload, t: Table, table: Table, faults: set<Fault>, inflight: seq<Batch>, permits: int,
                 ghost completed: seq<Batch>, choices: seq<nat>, k: nat)
    returns (blocked: bool, table': Table, faults': set<Fault>, inflight': seq<Batch>, permits': int, k': nat,
             ghost completed': seq<Batch>)
    requires permits >= 0 && Accounted(w, t, table, faults, completed)
    ensures blocked <==> permits == 0 && inflight == []
    ensures !blocked ==> permits' >= 0 && permits' + 1 + |inflight'| == permits + |inflight|
    ensures blocked ==> permits' == permits && inflight' == inflight
    ensures multiset(completed') + multiset(inflight') == multiset(completed) + multiset(inflight)
    ensures Accounted(w, t, table', faults', completed')
  {
    blocked, table', faults', inflight', permits', k', completed' := false, table, faults, inflight, permits, k, completed;
    if permits == 0 {
      if inflight == [] {
        blocked := true;
        return;
      }
      var j := Pick(choices, k, |inflight|);
      table', faults' := FinishTask(w, t, table, faults, completed, inflight[j]);
      assert inflight == inflight[..j] + [inflight[j]] + inflight[j + 1..];
      completed' := completed + [inflight[j]];
      inflight' := inflight[..j] + inflight[j + 1..];
      k' := k + 1;
      permits' := permits + 1;
    }
    permits' := permits' - 1;
  }

  /** Once every spawned task has ended, in whatever order, the loop's result is its specification's. */
  lemma AllTasksEnded(w: Workload, tasks: int, concurrency: int, t: Table, clamped: bool,
                      table: Table, faults: set<Fault>, completed: seq<Batch>)
    requires concurrency > 0 || (concurrency == 0 && tasks <= 0)
    requires multiset(completed) == multiset(Spawned(NumStrides(tasks), tasks, clamped))
    requires Accounted(w, t, table, faults, completed)
    ensures Ran(table, faults) == StrideSpec(w, tasks, concurrency, t, clamped)
  {
    var spawned := Spawned(NumStrides(tasks), tasks, clamped);
    SameBatches(t, completed, spawned);
    SpawnedContiguous(tasks, clamped);
    FillSetRange(t, 0, StrideLimit(tasks, clamped));
  }

  /** A spawned batch is in flight: every spawned batch is still either completed or in flight. */
  lemma SpawnKeepsBooks(completed: seq<Batch>, inflight: seq<Batch>, spawned: seq<Batch>, b: Batch)
    requires multiset(completed) + multiset(inflight) == multiset(spawned)
    ensures multiset(completed) + multiset(inflight + [b]) == multiset(spawned + [b])
  {
  }

  /**
   * `while i < tasks { acquire; spawn [i, end); i += 256 }`. `choices` decides which
   * task in flight ends when no permit is free. With no permits at all the first
   * acquire blocks forever (`blocked`); otherwise every batch is spawned, with at
   * most `concurrency` tasks in flight at any time.
   */
  method SpawnLoop(w: Workload, tasks: int, concurrency: int, t: Table, clamped: bool, choices: seq<nat>)
    returns (blocked: bool, table: Table, faults: set<Fault>, inflight: seq<Batch>, permits: int, k: nat,
             ghost completed: seq<Batch>, ghost spawned: seq<Batch>, ghost peak: int)
    requires concurrency >= 0
    ensures blocked <==> concurrency == 0 && tasks > 0
    ensures !blocked ==> spawned == Spawned(NumStrides(tasks), tasks, clamped)
    ensures permits >= 0 && permits + |inflight| == concurrency && peak <= concurrency
    ensures multiset(completed) + multiset(inflight) == multiset(spawned)
    ensures Accounted(w, t, table, faults, completed)
  {
    blocked := false;
    spawned := [];
    peak := 0;
    permits := concurrency;
    table := t;
    faults := {};
    inflight := [];
    completed := [];
    k := 0;
    var i := 0;
    while i < tasks
      invariant i == STRIDE * |spawned| && spawned == Spawned(|spawned|, tasks, clamped)
      invariant |spawned| == 0 || STRIDE * (|spawned| - 1) < tasks
      invariant permits >= 0 && permits + |inflight| == concurrency && peak <= concurrency
      invariant concurrency == 0 ==> i == 0
      invariant multiset(completed) + multiset(inflight) == multiset(spawned)
      invariant Accounted(w, t, table, faults, completed)
      decreases tasks - i
    {
      blocked, table, faults, inflight, permits, k, completed :=
        Acquire(w, t, table, faults, inflight, permits, completed, choices, k);
      if blocked {
        // No task holds a permit, so none can ever be released.
        return;
      }
      var b := Batch(i, StrideEnd(i, tasks, clamped));
      assert b == StrideBatch(|spawned|, tasks, clamped);
      SpawnedSnoc(|spawned|, tasks, clamped);
      SpawnKeepsBooks(completed, inflight, spawned, b);
      inflight := inflight + [b];
      spawned := spawned + [b];
      peak := Max(peak, |inflight|);
      i := i + STRIDE;
    }
    NumStridesExact(|spawned|, tasks);
  }

  /** `for _ in 0..config.concurrency { concurrency_semaphore.acquire().await?.forget(); }` */
  method DrainLoop(w: Workload, t: Table, table: Table, faults: set<Fault>, inflight: seq<Batch>, permits: int,
                   concurrency: int, ghost completed: seq<Batch>, choices: seq<nat>, k: nat)
    returns (table': Table, faults': set<Fault>, ghost completed': seq<Batch>)
    requires permits >= 0 && permits + |inflight| == concurrency
    requires Accounted(w, t, table, faults, completed)
    ensures Accounted(w, t, table', faults', completed')
    ensures multiset(completed') == multiset(completed) + multiset(inflight)
  {
    table', faults', completed' := table, faults, completed;
    var rest, free, next := inflight, permits, k;
    var n := 0;
    while n < concurrency
      invariant 0 <= n <= concurrency
      invariant free >= 0 && free + |rest| + n == concurrency
      invariant multiset(completed') + multiset(rest) == multiset(completed) + multiset(inflight)
      invariant Accounted(w, t, table', faults', completed')
    {
      var blocked;
      blocked, table', faults', rest, free, next, completed' :=
        Acquire(w, t, table', faults', rest, free, completed', choices, next);
      n := n + 1;
    }
    assert rest == [];
  }

  /** The stride loop and the wait for all its tasks, for any order in which the tasks end. */
  method StrideLoop(w: Workload, tasks: int, concurrency: int, t: Table, clamped: bool, choices: seq<nat>)
    returns (r: StrideOutcome, ghost spawned: seq<Batch>, ghost peak: int)
    ensures r == StrideSpec(w, tasks, concurrency, t, clamped)
    ensures r.Ran? ==> spawned == Spawned(NumStrides(tasks), tasks, clamped) && peak <= concurrency
  {
    // `Semaphore::new(config.concurrency.try_into().unwrap())`
    if concurrency < 0 {
      return Halted(NegativeCapacity), [], 0;
    }
    var blocked, table, faults, inflight, permits, k;
    ghost var completed;
    blocked, table, faults, inflight, permits, k, completed, spawned, peak :=
      SpawnLoop(w, tasks, concurrency, t, clamped, choices);
    if blocked {
      return Halted(ZeroPermits), spawned, peak;
    }
    table, faults, completed := DrainLoop(w, t, table, faults, inflight, permits, concurrency, completed, choices, k);
    AllTasksEnded(w, tasks, concurrency, t, clamped, table, faults, completed);
    r := Ran(table, faults);
  }

  /** Every fault a Selects run reports is the select of a pk of [0, limit) that does not hold its row. */
  lemma SelectFaultsSound(t: Table, tasks: int, clamped: bool)
    ensures forall f :: f in SelectFaults(t, Spawned(NumStrides(tasks), tasks, clamped)) ==>
      0 <= f.pk < StrideLimit(tasks, clamped) && f == FaultAt(t, f.pk) && !CanonicalAt(t, f.pk)
  {
    var bs := Spawned(NumStrides(tasks), tasks, clamped);
    SpawnedContiguous(tasks, clamped);
    forall f | f in SelectFaults(t, bs)
      ensures 0 <= f.pk < StrideLimit(tasks, clamped) && f == FaultAt(t, f.pk) && !CanonicalAt(t, f.pk)
    {
      SelectFaultsMembers(t, bs, f);
      var b :| b in bs && BatchFault(t, b) == Some(f);
      RunRangeSelecting(t, b.start, b.end);
      CoveredMembers(bs, f.pk);
    }
  }

  /** Under Selects the tasks panic on no pk exactly when every pk of [0, limit) holds its row. */
  lemma SelectFaultsExactlyBadRows(t: Table, tasks: int, clamped: bool)
    ensures SelectFaults(t, Spawned(NumStrides(tasks), tasks, clamped)) == {} <==>
      Canonical(t, 0, StrideLimit(tasks, clamped))
  {
    var bs := Spawned(NumStrides(tasks), tasks, clamped);
    var hi := StrideLimit(tasks, clamped);
    SpawnedContiguous(tasks, clamped);
    if !Canonical(t, 0, hi) {
      var pk :| 0 <= pk < hi && !CanonicalAt(t, pk);
      CoveredMembers(bs, pk);
      var b :| b in bs && b.start <= pk < b.end;
      RunRangeSelecting(t, b.start, b.end);
      SelectFaultsMembers(t, bs, BatchFault(t, b).value);
    } else {
      SelectFaultsSound(t, tasks, clamped);
    }
  }

  /**
   * The run of `main` after `read_config`: provisioning unless `no_prepare`; for a
   * prepared Selects run the unclamped pre-population loop; then the timed loop.
   */
  function RustBasicOutcome(c: RustBasicConfig.Config, t0: Table): (v: StrideOutcome) {
    var t1 := if c.noPrepare then t0 else Provision(t0);
    if c.workload == Selects && !c.noPrepare then
      match StrideSpec(Inserts, c.tasks, c.concurrency, t1, false)
      case Halted(reason) => Halted(reason)
      case Ran(t2, _) => StrideSpec(c.workload, c.tasks, c.concurrency, t2, true)
    else StrideSpec(c.workload, c.tasks, c.concurrency, t1, true)
  }

  method RustBasicBenchmark(c: RustBasicConfig.Config, t0: Table, prepopChoices: seq<nat>, choices: seq<nat>)
    returns (v: StrideOutcome)
    ensures v == RustBasicOutcome(c, t0)
  {
    var table := t0;
    if !c.noPrepare {
      table := Provision(table);
    }
    if c.workload == Selects && !c.noPrepare {
      var prepop;
      ghost var prepopBatches, prepopPeak;
      prepop, prepopBatches, prepopPeak := StrideLoop(Inserts, c.tasks, c.concurrency, table, false, prepopChoices);
      if prepop.Halted? {
        return prepop;
      }
      table := prepop.table;
    }
    ghost var batches, peak;
    v, batches, peak := StrideLoop(c.workload, c.tasks, c.concurrency, table, true, choices);
  }

  /**
   * As written, pre-population inserts every pk up to the next multiple of 256, past
   * `tasks`: for 1000 tasks it writes pks 1000 to 1023 as well.
   */
  lemma PrepopOverrun()
    ensures StrideSpec(Inserts, 1000, 256, map[], false) == Ran(Fill(map[], 0, 1024), {})
    ensures 1023 in StrideSpec(Inserts, 1000, 256, map[], false).table
  {
    assert NumStrides(1000) == 4;
  }

  /** With the batch end clamped, pre-population writes exactly the pks of [0, tasks). */
  lemma ClampedPrepopExact(tasks: int, concurrency: int, t: Table)
    requires tasks >= 0 && concurrency > 0
    ensures StrideSpec(Inserts, tasks, concurrency, t, true) == Ran(Fill(t, 0, tasks), {})
  {
  }

  /**
   * A prepared Selects run reads back every pk it inserted; its tasks panic on nothing,
   * and the table holds the rows of [0, ceil(tasks / 256) * 256).
   */
  lemma PreparedSelectsPass(c: RustBasicConfig.Config, t0: Table)
    requires c.workload == Selects && !c.noPrepare && c.concurrency > 0 && c.tasks >= 0
    ensures RustBasicOutcome(c, t0) == Ran(Fill(map[], 0, STRIDE * NumStrides(c.tasks)), {})
  {
    var hi := STRIDE * NumStrides(c.tasks);
    var t2 := Fill(map[], 0, hi);
    SelectFaultsExactlyBadRows(t2, c.tasks, true);
    assert Canonical(t2, 0, Max(0, c.tasks)) by {
      SpawnedContiguous(c.tasks, false);
    }
  }

  /** Faults do not stop this benchmark: a Selects run on a bad table still ends, reporting them. */
  lemma FaultsAreNotFatal(c: RustBasicConfig.Config, t0: Table, pk: int)
    requires c.workload == Selects && c.noPrepare && c.concurrency > 0
    requires 0 <= pk < c.tasks && !CanonicalAt(t0, pk)
    ensures RustBasicOutcome(c, t0).Ran?
    ensures RustBasicOutcome(c, t0).faults != {}
  {
    SelectFaultsExactlyBadRows(t0, c.tasks, true);
  }
}
