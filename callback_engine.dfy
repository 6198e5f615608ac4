/**
 * The callback state machine of the C++ benchmark (`benchmarks/basic/cpp`). The main
 * thread starts `concurrency` workers, one record (`CallbackData`) each, taking a
 * permit of a semaphore of `concurrency` permits before each start; a worker then
 * lives only in driver callbacks: `run_concurrent_task` pulls a batch from the shared
 * fetch-and-add cursor when its current one is used up and issues the next request;
 * the insert and select callbacks record the result and call it again. A worker that
 * finds the cursor past `tasks` frees one permit and issues nothing more, so the
 * second loop of `concurrency` acquires returns only once every worker has done so.
 * A failed row check ends the process.
 *
 * Each callback runs as one atomic step; which of the pending callbacks (or the main
 * thread) runs next is left to a schedule. The fields marked ghost record what the
 * program does not store: which pks are done, which worker owns each pending pk, and
 * which pks have been written.
 */
module CallbackEngine {
  import opened Wrappers
  import opened Numeric
  import opened Workloads
  import opened Executor
  import opened Benchmark
  import ScyllaCppConfig

  /** Which callback a worker waits for; `Ready` is the moment `run_concurrent_task` is about to run. */
  datatype Phase = Ready | AwaitInsert | AwaitSelect | Exhausted

  /** The mutable part of a worker's `CallbackData`: its current pk and the end of its batch. */
  datatype CallbackData = CallbackData(curPk: int, endPk: int, phase: Phase)

  /** A record as the main loop initialises it. */
  const FRESH: CallbackData := CallbackData(0, 0, Ready)

  predicate Awaiting(d: CallbackData) {
    d.phase == AwaitInsert || d.phase == AwaitSelect
  }

  /** The request `run_concurrent_task` issues: an insert for Inserts and Mixed, a select for Selects. */
  function RequestFor(w: Workload): Phase {
    if IssuesInsert(w) then AwaitInsert else AwaitSelect
  }

  function Ind(d: CallbackData): nat {
    if d.phase == Exhausted then 1 else 0
  }

  /** How many workers have freed their permit. */
  function ExhaustedCount(s: seq<CallbackData>): (n: nat)
    ensures n <= |s|
  {
    if |s| == 0 then 0 else ExhaustedCount(s[..|s| - 1]) + Ind(s[|s| - 1])
  }

  lemma {:induction false} ExhaustedCountUpdate(s: seq<CallbackData>, i: int, d: CallbackData, s': seq<CallbackData>)
    requires 0 <= i < |s| && s' == s[i := d]
    ensures ExhaustedCount(s') == ExhaustedCount(s) - Ind(s[i]) + Ind(d)
  {
    var n := |s| - 1;
    if i < n {
      assert s'[..n] == s[..n][i := d];
      ExhaustedCountUpdate(s[..n], i, d, s'[..n]);
    } else {
      assert s'[..n] == s[..n];
    }
  }

  /** Fewer exhausted workers than workers: some worker has not freed its permit. */
  lemma {:induction false} SomeNotExhausted(s: seq<CallbackData>)
    requires ExhaustedCount(s) < |s|
    ensures exists i :: 0 <= i < |s| && s[i].phase != Exhausted
  {
    var n := |s| - 1;
    if s[n].phase == Exhausted {
      SomeNotExhausted(s[..n]);
      var i :| 0 <= i < n && s[..n][i].phase != Exhausted;
      assert s[i] == s[..n][i];
    }
  }

  /** As many exhausted workers as workers: all of them have freed their permit. */
  lemma {:induction false} AllExhausted(s: seq<CallbackData>)
    requires ExhaustedCount(s) == |s|
    ensures forall i :: 0 <= i < |s| ==> s[i].phase == Exhausted
  {
    if |s| > 0 {
      var n := |s| - 1;
      AllExhausted(s[..n]);
      assert forall i :: 0 <= i < n ==> s[i] == s[..n][i];
    }
  }

  /**
   * The callbacks and the permit a worker record still owes: nothing once it has exhausted;
   * otherwise one run of `run_concurrent_task` that frees the permit, plus one callback per
   * pk left in its batch (two under Mixed, less the insert already done while a select waits).
   */
  function RecordWork(d: CallbackData, w: Workload): nat {
    if d.phase == Exhausted then 0
    else
      var left := Max(0, d.endPk - d.curPk);
      1 + (if w == Mixed then 2 * left - (if d.phase == AwaitSelect && left > 0 then 1 else 0) else left)
  }

  function PendingWork(s: seq<CallbackData>, w: Workload): nat {
    if |s| == 0 then 0 else PendingWork(s[..|s| - 1], w) + RecordWork(s[|s| - 1], w)
  }

  lemma {:induction false} PendingWorkUpdate(s: seq<CallbackData>, w: Workload, i: int, d: CallbackData,
                                              s': seq<CallbackData>)
    requires 0 <= i < |s| && s' == s[i := d]
    ensures PendingWork(s', w) == PendingWork(s, w) - RecordWork(s[i], w) + RecordWork(d, w)
  {
    var n := |s| - 1;
    if i < n {
      assert s'[..n] == s[..n][i := d];
      PendingWorkUpdate(s[..n], w, i, d, s'[..n]);
    } else {
      assert s'[..n] == s[..n];
    }
  }

  /** A record's batch lies in [0, tasks), and it awaits only a request its workload issues. */
  predicate RecordOk(d: CallbackData, w: Workload, tasks: int) {
    (d.phase == Ready ==> d.curPk <= d.endPk) &&
    (d.phase != Exhausted && d.curPk < d.endPk ==> 0 <= d.curPk && d.endPk <= tasks) &&
    (Awaiting(d) ==> d.curPk < d.endPk) &&
    (d.phase == AwaitInsert ==> IssuesInsert(w)) &&
    (d.phase == AwaitSelect ==> IssuesSelect(w))
  }

  /** Every record is fresh until its worker starts, and each is well formed. */
  ghost predicate WorkersOf(s: seq<CallbackData>, started: int, w: Workload, tasks: int) {
    forall i :: 0 <= i < |s| ==> (started <= i ==> s[i] == FRESH) && RecordOk(s[i], w, tasks)
  }

  /** A started worker's record is replaced by a well-formed one. */
  lemma WorkersUpdate(s: seq<CallbackData>, started: int, w: Workload, tasks: int, i: int, d: CallbackData,
                      s': seq<CallbackData>)
    requires WorkersOf(s, started, w, tasks) && 0 <= i < |s| && i < started && RecordOk(d, w, tasks)
    requires s' == s[i := d]
    ensures WorkersOf(s', started, w, tasks)
  {
  }

  /** One more worker starts, from a fresh record. */
  lemma WorkersStart(s: seq<CallbackData>, started: int, w: Workload, tasks: int, started': int)
    requires WorkersOf(s, started, w, tasks) && started' == started + 1
    ensures WorkersOf(s, started', w, tasks)
  {
  }

  /** Every started worker other than `except` awaits a callback or has exhausted. */
  ghost predicate BusyExcept(s: seq<CallbackData>, started: int, except: int) {
    forall j :: 0 <= j < |s| && j < started && j != except ==> s[j].phase != Ready
  }

  /** The worker that starts is the only ready one. */
  lemma BusyStart(s: seq<CallbackData>, started: int, started': int)
    requires BusyExcept(s, started, -1) && started' == started + 1
    ensures BusyExcept(s, started', started)
  {
  }

  /** Worker `i` becomes ready while the others stay busy. */
  lemma BusyOthers(s: seq<CallbackData>, started: int, i: int, d: CallbackData, s': seq<CallbackData>)
    requires BusyExcept(s, started, -1) && 0 <= i < |s| && s' == s[i := d]
    ensures BusyExcept(s', started, i)
  {
  }

  /** The one ready worker issues a request or exhausts: all started workers are busy again. */
  lemma BusyAgain(s: seq<CallbackData>, started: int, i: int, d: CallbackData, s': seq<CallbackData>)
    requires BusyExcept(s, started, i) && 0 <= i < |s| && d.phase != Ready && s' == s[i := d]
    ensures BusyExcept(s', started, -1)
  {
  }

  /** A busy worker that stays busy keeps every started worker busy. */
  lemma BusyStays(s: seq<CallbackData>, started: int, i: int, d: CallbackData, s': seq<CallbackData>)
    requires BusyExcept(s, started, -1) && 0 <= i < |s| && d.phase != Ready && s' == s[i := d]
    ensures BusyExcept(s', started, -1)
  {
  }

  /** Worker `i` stays the only ready one while its batch changes. */
  lemma BusyKeep(s: seq<CallbackData>, started: int, i: int, d: CallbackData, s': seq<CallbackData>)
    requires BusyExcept(s, started, i) && 0 <= i < |s| && s' == s[i := d]
    ensures BusyExcept(s', started, i)
  {
  }

  /** Worker `i` has `pk` still to do in its current batch. */
  ghost predicate OwnsAt(s: seq<CallbackData>, i: int, pk: int) {
    0 <= i < |s| && s[i].phase != Exhausted && s[i].curPk <= pk < s[i].endPk
  }

  /** Worker `i` waits for the select of `pk`. */
  ghost predicate SelectPendingAt(s: seq<CallbackData>, i: int, pk: int) {
    0 <= i < |s| && s[i].phase == AwaitSelect && s[i].curPk == pk
  }

  /** Two records that have the same pks still to do. */
  predicate SameOwned(a: CallbackData, b: CallbackData) {
    if a.phase == Exhausted || a.curPk >= a.endPk then b.phase == Exhausted || b.curPk >= b.endPk
    else b.phase != Exhausted && b.curPk == a.curPk && b.endPk == a.endPk
  }

  /** Two records that wait for the same select, if any. */
  predicate SameSelect(a: CallbackData, b: CallbackData) {
    (a.phase == AwaitSelect <==> b.phase == AwaitSelect) && (a.phase == AwaitSelect ==> a.curPk == b.curPk)
  }

  /** The pulled pks [0, issued) are done or owned by exactly one worker, which still has them to do. */
  ghost predicate OwnershipOf(s: seq<CallbackData>, owner: map<int, int>, done: set<int>, issued: int) {
    (forall pk :: pk in owner ==> OwnsAt(s, owner[pk], pk)) &&
    (forall i, pk :: OwnsAt(s, i, pk) ==> pk in owner && owner[pk] == i) &&
    (forall pk :: pk in done ==> pk !in owner) &&
    done + owner.Keys == Range(0, issued)
  }

  /**
   * What the callbacks have done to the table: inserting workloads have written the
   * rows of `written` (every done pk, and under Mixed the pks whose select is pending)
   * and never fault; Selects leaves the table alone and faults only on a bad pk.
   */
  ghost predicate EffectsOf(s: seq<CallbackData>, w: Workload, tasks: int, initial: Table, table: Table,
                            fault: Option<Fault>, done: set<int>, owner: map<int, int>, written: set<int>) {
    (forall pk :: pk in written ==> pk in done || pk in owner) &&
    (IssuesInsert(w) ==> done <= written && table == FillSet(initial, written) && fault.None?) &&
    (w == Inserts ==> written == done) &&
    (w == Mixed ==> forall pk :: pk in written && pk in owner ==> SelectPendingAt(s, owner[pk], pk)) &&
    (w == Mixed ==> forall i :: 0 <= i < |s| && s[i].phase == AwaitSelect ==> s[i].curPk in written) &&
    (w == Selects ==>
      table == initial && written == {} &&
      (forall pk :: pk in done ==> CanonicalAt(initial, pk)) &&
      (fault.Some? ==> BadPk(initial, 0, tasks, fault.value)))
  }

  /** Changing a record without changing what it still has to do keeps the ownership. */
  lemma OwnershipSameOwners(s: seq<CallbackData>, owner: map<int, int>, done: set<int>, issued: int,
                            i: int, d: CallbackData, s': seq<CallbackData>)
    requires OwnershipOf(s, owner, done, issued) && 0 <= i < |s| && SameOwned(s[i], d) && s' == s[i := d]
    ensures OwnershipOf(s', owner, done, issued)
  {
    assert forall j, pk :: OwnsAt(s', j, pk) <==> OwnsAt(s, j, pk);
  }

  /** Changing a record without changing the select it waits for keeps the effects. */
  lemma EffectsSameSelects(s: seq<CallbackData>, w: Workload, tasks: int, initial: Table, table: Table,
                           fault: Option<Fault>, done: set<int>, owner: map<int, int>, written: set<int>,
                           i: int, d: CallbackData, s': seq<CallbackData>)
    requires EffectsOf(s, w, tasks, initial, table, fault, done, owner, written)
    requires 0 <= i < |s| && SameSelect(s[i], d) && s' == s[i := d]
    ensures EffectsOf(s', w, tasks, initial, table, fault, done, owner, written)
  {
    assert forall j, pk :: SelectPendingAt(s', j, pk) <==> SelectPendingAt(s, j, pk);
  }

  /** A worker that owns nothing takes the fresh batch [start, end) that follows every pulled pk. */
  lemma NewBatchOwnership(s: seq<CallbackData>, done: set<int>, owner: map<int, int>, i: int, start: int, end: int,
                          s': seq<CallbackData>, owner': map<int, int>)
    requires OwnershipOf(s, owner, done, start)
    requires 0 <= i < |s| && s[i].phase == Ready && s[i].curPk >= s[i].endPk && 0 <= start < end
    requires s' == s[i := CallbackData(start, end, Ready)]
    requires owner' == Claim(owner, start, end, i)
    ensures forall pk :: start <= pk < end ==> pk !in owner && pk !in done
    ensures OwnershipOf(s', owner', done, end)
  {
    var added := map pk | pk in Range(start, end) :: i;
    forall pk | pk in owner || pk in done
      ensures pk < start
    {
      assert pk in done + owner.Keys;
    }
    forall pk | pk in owner'
      ensures OwnsAt(s', owner'[pk], pk)
    {
      if pk !in added {
        assert OwnsAt(s, owner[pk], pk);
      }
    }
    forall j, pk | OwnsAt(s', j, pk)
      ensures pk in owner' && owner'[pk] == j
    {
      if j != i {
        assert OwnsAt(s, j, pk);
      }
    }
    assert owner'.Keys == owner.Keys + Range(start, end);
    assert Range(0, end) == Range(0, start) + Range(start, end);
  }

  /** Taking a fresh batch keeps the effects: the new pks are neither written nor pending. */
  lemma NewBatchEffects(s: seq<CallbackData>, w: Workload, tasks: int, initial: Table, table: Table, fault: Option<Fault>,
                        done: set<int>, owner: map<int, int>, written: set<int>, i: int, start: int, end: int,
                        s': seq<CallbackData>, owner': map<int, int>)
    requires EffectsOf(s, w, tasks, initial, table, fault, done, owner, written)
    requires forall pk :: start <= pk < end ==> pk !in owner && pk !in done
    requires 0 <= i < |s| && s[i].phase == Ready
    requires s' == s[i := CallbackData(start, end, Ready)]
    requires owner' == Claim(owner, start, end, i)
    ensures EffectsOf(s', w, tasks, initial, table, fault, done, owner', written)
  {
    assert forall pk :: start <= pk < end ==> pk !in written;
    assert forall j, pk :: SelectPendingAt(s', j, pk) <==> SelectPendingAt(s, j, pk);
  }

  /** Worker `i` is done with its current pk and moves to the next one in its batch. */
  lemma PkDoneOwnership(s: seq<CallbackData>, owner: map<int, int>, done: set<int>, issued: int, i: int,
                        s': seq<CallbackData>, owner': map<int, int>, done': set<int>)
    requires OwnershipOf(s, owner, done, issued)
    requires 0 <= i < |s| && Awaiting(s[i]) && s[i].curPk < s[i].endPk
    requires s' == s[i := CallbackData(s[i].curPk + 1, s[i].endPk, Ready)]
    requires owner' == owner - {s[i].curPk} && done' == done + {s[i].curPk}
    ensures s[i].curPk in owner && s[i].curPk !in done
    ensures OwnershipOf(s', owner', done', issued)
  {
    var pk0 := s[i].curPk;
    assert OwnsAt(s, i, pk0);
    assert forall j, pk :: OwnsAt(s', j, pk) <==> OwnsAt(s, j, pk) && !(j == i && pk == pk0);
  }

  /** An Inserts insert callback: the pk is written and done. */
  lemma InsertDoneEffects(s: seq<CallbackData>, w: Workload, tasks: int, initial: Table, table: Table,
                          fault: Option<Fault>, done: set<int>, owner: map<int, int>, written: set<int>, i: int,
                          s': seq<CallbackData>, table': Table, done': set<int>, owner': map<int, int>, written': set<int>)
    requires EffectsOf(s, w, tasks, initial, table, fault, done, owner, written) && w == Inserts
    requires 0 <= i < |s| && s[i].phase == AwaitInsert
    requires s' == s[i := CallbackData(s[i].curPk + 1, s[i].endPk, Ready)]
    requires table' == table[s[i].curPk := Expected(s[i].curPk)]
    requires done' == done + {s[i].curPk} && owner' == owner - {s[i].curPk} && written' == written + {s[i].curPk}
    ensures EffectsOf(s', w, tasks, initial, table', fault, done', owner', written')
  {
    FillSetAdd(initial, written, s[i].curPk);
  }

  /** A Mixed insert callback: the pk is written and its select is now pending. */
  lemma InsertThenSelectEffects(s: seq<CallbackData>, w: Workload, tasks: int, initial: Table, table: Table,
                                fault: Option<Fault>, done: set<int>, owner: map<int, int>, written: set<int>,
                                issued: int, i: int, s': seq<CallbackData>, table': Table, written': set<int>)
    requires OwnershipOf(s, owner, done, issued) && EffectsOf(s, w, tasks, initial, table, fault, done, owner, written)
    requires w == Mixed
    requires 0 <= i < |s| && s[i].phase == AwaitInsert && s[i].curPk < s[i].endPk
    requires s' == s[i := s[i].(phase := AwaitSelect)]
    requires table' == table[s[i].curPk := Expected(s[i].curPk)] && written' == written + {s[i].curPk}
    ensures s[i].curPk !in written && s[i].curPk !in done
    ensures EffectsOf(s', w, tasks, initial, table', fault, done, owner, written')
  {
    var pk := s[i].curPk;
    assert OwnsAt(s, i, pk);
    assert pk !in written;
    FillSetAdd(initial, written, pk);
    forall q | q in written' && q in owner
      ensures SelectPendingAt(s', owner[q], q)
    {
      if q != pk {
        assert SelectPendingAt(s, owner[q], q);
        assert owner[q] != i;
      }
    }
  }

  /** A select callback that found its row: the pk is done. */
  lemma SelectDoneEffects(s: seq<CallbackData>, w: Workload, tasks: int, initial: Table, table: Table,
                          fault: Option<Fault>, done: set<int>, owner: map<int, int>, written: set<int>,
                          issued: int, i: int, s': seq<CallbackData>, done': set<int>, owner': map<int, int>)
    requires OwnershipOf(s, owner, done, issued) && EffectsOf(s, w, tasks, initial, table, fault, done, owner, written)
    requires IssuesSelect(w)
    requires 0 <= i < |s| && s[i].phase == AwaitSelect && s[i].curPk < s[i].endPk && CanonicalAt(table, s[i].curPk)
    requires s' == s[i := CallbackData(s[i].curPk + 1, s[i].endPk, Ready)]
    requires done' == done + {s[i].curPk} && owner' == owner - {s[i].curPk}
    ensures w == Mixed ==> s[i].curPk in written
    ensures EffectsOf(s', w, tasks, initial, table, fault, done', owner', written)
  {
    var pk := s[i].curPk;
    assert OwnsAt(s, i, pk);
    if w == Mixed {
      forall q | q in written && q in owner'
        ensures SelectPendingAt(s', owner'[q], q)
      {
        assert SelectPendingAt(s, owner[q], q);
      }
    }
  }

  /** A select callback that found a bad row ends the run with that fault. */
  lemma SelectFaultEffects(s: seq<CallbackData>, w: Workload, tasks: int, initial: Table, table: Table,
                           done: set<int>, owner: map<int, int>, written: set<int>, i: int, fault': Option<Fault>)
    requires EffectsOf(s, w, tasks, initial, table, None, done, owner, written)
    requires IssuesSelect(w)
    requires 0 <= i < |s| && s[i].phase == AwaitSelect && 0 <= s[i].curPk < tasks && !CanonicalAt(table, s[i].curPk)
    requires fault' == Some(FaultAt(table, s[i].curPk))
    ensures w == Selects
    ensures EffectsOf(s, w, tasks, initial, table, fault', done, owner, written)
  {
    if w == Mixed {
      assert s[i].curPk in written;
      FillSetCanonical(initial, written, s[i].curPk);
      assert false;
    }
  }

  lemma FillSetCanonical(t: Table, s: set<int>, pk: int)
    requires pk in s
    ensures CanonicalAt(FillSet(t, s), pk)
  {
  }

  /** What stays fixed during a run: the configuration and the table before the workers start. */
  datatype Setup = Setup(workload: Workload, tasks: int, batchSize: int, concurrency: int, initial: Table)

  /** A snapshot of everything the engine changes. */
  datatype State = State(data: seq<CallbackData>, nextBatchStart: int, freePermits: int, started: int, waited: int,
                         table: Table, fault: Option<Fault>, done: set<int>, owner: map<int, int>, written: set<int>)

  /** Where the pulled batches end. */
  function IssuedOf(p: Setup, st: State): int {
    Min(st.nextBatchStart, p.tasks)
  }

  /** The counters: the permits held by running workers and by the main thread add up. */
  ghost predicate CountersOf(p: Setup, st: State) {
    |st.data| == p.concurrency && p.batchSize >= 1 &&
    0 <= st.started <= p.concurrency && 0 <= st.waited <= p.concurrency &&
    (st.waited > 0 ==> st.started == p.concurrency) && st.nextBatchStart >= 0 &&
    st.freePermits == p.concurrency - st.started + ExhaustedCount(st.data) - st.waited && st.freePermits >= 0 &&
    (ExhaustedCount(st.data) > 0 ==> st.nextBatchStart >= p.tasks)
  }

  /** The counters, the records, the ownership of the pulled pks and the effects on the table. */
  ghost predicate CoreOf(p: Setup, st: State) {
    CountersOf(p, st) &&
    WorkersOf(st.data, st.started, p.workload, p.tasks) &&
    OwnershipOf(st.data, st.owner, st.done, IssuedOf(p, st)) &&
    EffectsOf(st.data, p.workload, p.tasks, p.initial, st.table, st.fault, st.done, st.owner, st.written)
  }

  /** Between events: every started worker awaits a callback or has exhausted. */
  ghost predicate ValidOf(p: Setup, st: State) {
    CoreOf(p, st) && BusyExcept(st.data, st.started, -1)
  }

  /** Inside an event: worker `i` is the one started worker about to run `run_concurrent_task`. */
  ghost predicate OnlyReadyOf(p: Setup, st: State, i: int) {
    CoreOf(p, st) && 0 <= i < st.started && st.data[i].phase == Ready && BusyExcept(st.data, st.started, i)
  }

  /**
   * The work left: starts and waits still to come, what the records still owe, and the
   * callbacks of the pks not yet pulled (two each under Mixed). Every event lowers it.
   */
  function WorkOf(p: Setup, st: State): int {
    var unpulled := Max(0, p.tasks) - IssuedOf(p, st);
    (p.concurrency - st.started) + (p.concurrency - st.waited) + PendingWork(st.data, p.workload) +
    (if p.workload == Mixed then 2 * unpulled else unpulled)
  }

  /** The work left is never negative. */
  lemma WorkBounded(p: Setup, st: State)
    requires ValidOf(p, st)
    ensures WorkOf(p, st) >= 0
  {
  }

  /** Worker `i` finds the cursor at or past `tasks`: it frees one permit. */
  function AfterExhaust(p: Setup, st: State, i: int): State
    requires 0 <= i < |st.data|
  {
    st.(nextBatchStart := st.nextBatchStart + p.batchSize, freePermits := st.freePermits + 1,
        data := st.data[i := st.data[i].(phase := Exhausted)])
  }

  /** The pks of [start, end) now belong to worker `i`. */
  function Claim(owner: map<int, int>, start: int, end: int, i: int): map<int, int> {
    owner + map pk | pk in Range(start, end) :: i
  }

  /** The batch at the cursor: [start, min(start + batch_size, tasks)). */
  function BatchAt(p: Setup, start: int): CallbackData {
    CallbackData(start, Min(start + p.batchSize, p.tasks), Ready)
  }

  /** Worker `i` pulls the batch at the cursor and becomes its owner. */
  function AfterNewBatch(p: Setup, st: State, i: int): State
    requires 0 <= i < |st.data|
  {
    st.(nextBatchStart := st.nextBatchStart + p.batchSize, data := st.data[i := BatchAt(p, st.nextBatchStart)],
        owner := Claim(st.owner, st.nextBatchStart, BatchAt(p, st.nextBatchStart).endPk, i))
  }

  /** Worker `i` issues the request of its workload for its current pk. */
  function AfterIssue(p: Setup, st: State, i: int): State
    requires 0 <= i < |st.data|
  {
    st.(data := st.data[i := st.data[i].(phase := RequestFor(p.workload))])
  }

  /** The start loop takes a permit for the next worker. */
  function AfterTakePermit(st: State): State {
    st.(freePermits := st.freePermits - 1, started := st.started + 1)
  }

  /** The wait loop takes a permit. */
  function AfterWait(st: State): State {
    st.(freePermits := st.freePermits - 1, waited := st.waited + 1)
  }

  /** Worker `i`'s pk is done and the worker moves to the next pk of its batch. */
  function PkDone(st: State, i: int): State
    requires 0 <= i < |st.data|
  {
    var d := st.data[i];
    st.(data := st.data[i := CallbackData(d.curPk + 1, d.endPk, Ready)],
        done := st.done + {d.curPk}, owner := st.owner - {d.curPk})
  }

  /** The row of `pk` is written. */
  function RowWritten(st: State, pk: int): State {
    st.(table := st.table[pk := Expected(pk)], written := st.written + {pk})
  }

  /** Under Mixed, worker `i` goes on to select the pk it has just written. */
  function AfterInsertThenSelect(st: State, i: int): State
    requires 0 <= i < |st.data|
  {
    var w := RowWritten(st, st.data[i].curPk);
    w.(data := w.data[i := w.data[i].(phase := AwaitSelect)])
  }

  /** A select of worker `i` found a bad row. */
  function AfterFault(st: State, i: int): State
    requires 0 <= i < |st.data|
  {
    st.(fault := Some(FaultAt(st.table, st.data[i].curPk)))
  }

  /** Exhausting keeps the invariant and lowers the work: the worker owes nothing more. */
  lemma ExhaustStep(p: Setup, st: State, i: int)
    requires OnlyReadyOf(p, st, i) && st.data[i].curPk >= st.data[i].endPk && st.nextBatchStart >= p.tasks
    ensures ValidOf(p, AfterExhaust(p, st, i)) && WorkOf(p, AfterExhaust(p, st, i)) < WorkOf(p, st)
  {
    var s, e, st' := st.data, st.data[i].(phase := Exhausted), AfterExhaust(p, st, i);
    ExhaustedCountUpdate(s, i, e, st'.data);
    PendingWorkUpdate(s, p.workload, i, e, st'.data);
    WorkersUpdate(s, st.started, p.workload, p.tasks, i, e, st'.data);
    BusyAgain(s, st.started, i, e, st'.data);
    OwnershipSameOwners(s, st.owner, st.done, IssuedOf(p, st), i, e, st'.data);
    EffectsSameSelects(s, p.workload, p.tasks, p.initial, st.table, st.fault, st.done, st.owner, st.written,
                       i, e, st'.data);
  }

  /** Pulling a batch keeps the counters, the records and the work, and worker `i` stays the ready one. */
  lemma NewBatchCounters(p: Setup, st: State, i: int)
    requires CountersOf(p, st) && WorkersOf(st.data, st.started, p.workload, p.tasks)
    requires BusyExcept(st.data, st.started, i) && 0 <= i < st.started && st.data[i].phase == Ready
    requires st.data[i].curPk >= st.data[i].endPk && st.nextBatchStart < p.tasks
    ensures CountersOf(p, AfterNewBatch(p, st, i)) && WorkOf(p, AfterNewBatch(p, st, i)) == WorkOf(p, st)
    ensures WorkersOf(AfterNewBatch(p, st, i).data, st.started, p.workload, p.tasks)
    ensures BusyExcept(AfterNewBatch(p, st, i).data, st.started, i)
    ensures AfterNewBatch(p, st, i).data[i].curPk < AfterNewBatch(p, st, i).data[i].endPk
  {
    var st' := AfterNewBatch(p, st, i);
    var s, d := st.data, BatchAt(p, st.nextBatchStart);
    ExhaustedCountUpdate(s, i, d, st'.data);
    PendingWorkUpdate(s, p.workload, i, d, st'.data);
    WorkersUpdate(s, st.started, p.workload, p.tasks, i, d, st'.data);
    BusyKeep(s, st.started, i, d, st'.data);
  }

  /** Pulling a batch keeps the invariant and the work: the new pks move from the cursor to the worker. */
  lemma NewBatchStep(p: Setup, st: State, i: int)
    requires OnlyReadyOf(p, st, i) && st.data[i].curPk >= st.data[i].endPk && st.nextBatchStart < p.tasks
    ensures OnlyReadyOf(p, AfterNewBatch(p, st, i), i)
    ensures AfterNewBatch(p, st, i).data[i].curPk < AfterNewBatch(p, st, i).data[i].endPk
    ensures WorkOf(p, AfterNewBatch(p, st, i)) == WorkOf(p, st)
  {
    var st' := AfterNewBatch(p, st, i);
    var start, end := st.nextBatchStart, BatchAt(p, st.nextBatchStart).endPk;
    NewBatchCounters(p, st, i);
    NewBatchOwnership(st.data, st.done, st.owner, i, start, end, st'.data, st'.owner);
    NewBatchEffects(st.data, p.workload, p.tasks, p.initial, st.table, st.fault, st.done, st.owner, st.written,
                    i, start, end, st'.data, st'.owner);
  }

  /** Issuing a request keeps the invariant and the work, and makes every started worker busy. */
  lemma IssueStep(p: Setup, st: State, i: int)
    requires OnlyReadyOf(p, st, i) && st.data[i].curPk < st.data[i].endPk
    ensures ValidOf(p, AfterIssue(p, st, i)) && WorkOf(p, AfterIssue(p, st, i)) == WorkOf(p, st)
  {
    var st' := AfterIssue(p, st, i);
    var s, d := st.data, st'.data[i];
    ExhaustedCountUpdate(s, i, d, st'.data);
    PendingWorkUpdate(s, p.workload, i, d, st'.data);
    WorkersUpdate(s, st.started, p.workload, p.tasks, i, d, st'.data);
    BusyAgain(s, st.started, i, d, st'.data);
    OwnershipSameOwners(s, st.owner, st.done, IssuedOf(p, st), i, d, st'.data);
    if p.workload != Selects {
      EffectsSameSelects(s, p.workload, p.tasks, p.initial, st.table, st.fault, st.done, st.owner, st.written,
                         i, d, st'.data);
    }
  }

  /** While a worker has not started a permit is free; taking it makes that worker the ready one. */
  lemma TakePermitStep(p: Setup, st: State)
    requires ValidOf(p, st) && st.started < p.concurrency
    ensures st.freePermits != 0
    ensures OnlyReadyOf(p, AfterTakePermit(st), st.started) && WorkOf(p, AfterTakePermit(st)) < WorkOf(p, st)
  {
    assert st.data[st.started] == FRESH;
    WorkersStart(st.data, st.started, p.workload, p.tasks, st.started + 1);
    BusyStart(st.data, st.started, st.started + 1);
  }

  /** Taking a free permit in the wait loop keeps the invariant and lowers the work. */
  lemma WaitStep(p: Setup, st: State)
    requires ValidOf(p, st) && st.started == p.concurrency && st.waited < p.concurrency && st.freePermits != 0
    ensures ValidOf(p, AfterWait(st)) && WorkOf(p, AfterWait(st)) < WorkOf(p, st)
  {
    var st' := AfterWait(st);
    assert WorkersOf(st'.data, st'.started, p.workload, p.tasks);
  }

  /** The counters and the work depend only on the records, the cursor and the two loops. */
  lemma SameCounters(p: Setup, a: State, b: State)
    requires a.data == b.data && a.nextBatchStart == b.nextBatchStart && a.freePermits == b.freePermits
    requires a.started == b.started && a.waited == b.waited
    ensures CountersOf(p, a) == CountersOf(p, b) && WorkOf(p, a) == WorkOf(p, b) && IssuedOf(p, a) == IssuedOf(p, b)
  {
  }

  /**
   * Finishing a pk keeps the counters, the records and the ownership, leaves worker `i`
   * the only ready one, and lowers the work.
   */
  lemma PkDoneCore(p: Setup, st: State, i: int)
    requires CountersOf(p, st) && WorkersOf(st.data, st.started, p.workload, p.tasks)
    requires OwnershipOf(st.data, st.owner, st.done, IssuedOf(p, st)) && BusyExcept(st.data, st.started, -1)
    requires 0 <= i < |st.data| && Awaiting(st.data[i])
    ensures st.data[i].curPk in st.owner && st.data[i].curPk !in st.done && i < st.started
    ensures CountersOf(p, PkDone(st, i)) && WorkersOf(PkDone(st, i).data, st.started, p.workload, p.tasks)
    ensures OwnershipOf(PkDone(st, i).data, PkDone(st, i).owner, PkDone(st, i).done, IssuedOf(p, st))
    ensures BusyExcept(PkDone(st, i).data, st.started, i)
    ensures WorkOf(p, PkDone(st, i)) < WorkOf(p, st)
  {
    var st' := PkDone(st, i);
    var s, d := st.data, st'.data[i];
    ExhaustedCountUpdate(s, i, d, st'.data);
    PendingWorkUpdate(s, p.workload, i, d, st'.data);
    WorkersUpdate(s, st.started, p.workload, p.tasks, i, d, st'.data);
    BusyOthers(s, st.started, i, d, st'.data);
    PkDoneOwnership(s, st.owner, st.done, IssuedOf(p, st), i, st'.data, st'.owner, st'.done);
  }

  /** The Inserts insert callback leaves worker `i` ready with one pk fewer to do. */
  lemma FinishInsertStep(p: Setup, st: State, i: int)
    requires ValidOf(p, st) && p.workload == Inserts && 0 <= i < |st.data| && st.data[i].phase == AwaitInsert
    ensures OnlyReadyOf(p, PkDone(RowWritten(st, st.data[i].curPk), i), i)
    ensures WorkOf(p, PkDone(RowWritten(st, st.data[i].curPk), i)) < WorkOf(p, st)
  {
    var pk := st.data[i].curPk;
    var mid := RowWritten(st, pk);
    var st' := PkDone(mid, i);
    SameCounters(p, st, mid);
    PkDoneCore(p, mid, i);
    InsertDoneEffects(st.data, p.workload, p.tasks, p.initial, st.table, st.fault, st.done, st.owner, st.written, i,
                      st'.data, st'.table, st'.done, st'.owner, st'.written);
  }

  /** The Mixed insert callback keeps every worker busy and lowers the work by the insert. */
  lemma InsertThenSelectStep(p: Setup, st: State, i: int)
    requires ValidOf(p, st) && p.workload == Mixed && 0 <= i < |st.data| && st.data[i].phase == AwaitInsert
    ensures ValidOf(p, AfterInsertThenSelect(st, i)) && WorkOf(p, AfterInsertThenSelect(st, i)) < WorkOf(p, st)
  {
    var st' := AfterInsertThenSelect(st, i);
    var s, d := st.data, st'.data[i];
    ExhaustedCountUpdate(s, i, d, st'.data);
    PendingWorkUpdate(s, p.workload, i, d, st'.data);
    WorkersUpdate(s, st.started, p.workload, p.tasks, i, d, st'.data);
    BusyStays(s, st.started, i, d, st'.data);
    OwnershipSameOwners(s, st.owner, st.done, IssuedOf(p, st), i, d, st'.data);
    InsertThenSelectEffects(s, p.workload, p.tasks, p.initial, st.table, st.fault, st.done, st.owner, st.written,
                            IssuedOf(p, st), i, st'.data, st'.table, st'.written);
  }

  /** A select that found its row leaves worker `i` ready with one pk fewer to do. */
  lemma FinishSelectStep(p: Setup, st: State, i: int)
    requires ValidOf(p, st) && st.fault.None? && 0 <= i < |st.data| && st.data[i].phase == AwaitSelect
    requires CanonicalAt(st.table, st.data[i].curPk)
    ensures OnlyReadyOf(p, PkDone(st, i), i) && WorkOf(p, PkDone(st, i)) < WorkOf(p, st)
  {
    var st' := PkDone(st, i);
    PkDoneCore(p, st, i);
    SelectDoneEffects(st.data, p.workload, p.tasks, p.initial, st.table, st.fault, st.done, st.owner, st.written,
                      IssuedOf(p, st), i, st'.data, st'.done, st'.owner);
  }

  /** A select that found a bad row: only a Selects run can get there, and the fault it records names a bad pk. */
  lemma FaultStep(p: Setup, st: State, i: int)
    requires ValidOf(p, st) && st.fault.None? && 0 <= i < |st.data| && st.data[i].phase == AwaitSelect
    requires !CanonicalAt(st.table, st.data[i].curPk)
    ensures p.workload == Selects && ValidOf(p, AfterFault(st, i))
  {
    SelectFaultEffects(st.data, p.workload, p.tasks, p.initial, st.table, st.done, st.owner, st.written, i,
                       AfterFault(st, i).fault);
  }

  class Engine {
    const workload: Workload
    const tasks: int
    const batchSize: int
    const concurrency: int
    /** The table before the workers start. */
    ghost const initial: Table
    /** `callbacks_data`. */
    const data: array<CallbackData>
    /** `next_batch_start`. */
    var nextBatchStart: int
    /** The `free_permits` of `finished_semaphore`. */
    var freePermits: int
    /** How many iterations of the start loop and of the wait loop have run. */
    var started: int
    var waited: int
    var table: Table
    /** The failed row check that ended the process, if any. */
    var fault: Option<Fault>
    ghost var done: set<int>
    ghost var owner: map<int, int>
    ghost var written: set<int>

    ghost function Params(): Setup {
      Setup(workload, tasks, batchSize, concurrency, initial)
    }

    ghost function Snap(): State
      reads this, data
    {
      State(data[..], nextBatchStart, freePermits, started, waited, table, fault, done, owner, written)
    }

    ghost predicate Valid()
      reads this, data
    {
      ValidOf(Params(), Snap())
    }

    ghost predicate OnlyReady(i: int)
      reads this, data
    {
      OnlyReadyOf(Params(), Snap(), i)
    }

    ghost function Work(): int
      reads this, data
    {
      WorkOf(Params(), Snap())
    }

    /** `std::vector<CallbackData> callbacks_data(concurrency)`, the semaphore and the cursor at 0. */
    constructor (w: Workload, tasks: int, concurrency: nat, batchSize: int, t: Table)
      requires batchSize >= 1
      ensures Valid() && fresh(data)
      ensures workload == w && this.tasks == tasks && this.concurrency == concurrency
      ensures this.batchSize == batchSize && initial == t && table == t
      ensures started == 0 && waited == 0 && fault.None?
    {
      workload := w;
      this.tasks := tasks;
      this.concurrency := concurrency;
      this.batchSize := batchSize;
      initial := t;
      table := t;
      data := new CallbackData[concurrency](_ => FRESH);
      nextBatchStart := 0;
      freePermits := concurrency;
      started := 0;
      waited := 0;
      fault := None;
      done := {};
      owner := map[];
      written := {};
      new;
      assert ExhaustedCount(data[..]) == 0 by {
        ZeroExhausted(data[..]);
      }
    }

    static lemma {:induction false} ZeroExhausted(s: seq<CallbackData>)
      requires forall i :: 0 <= i < |s| ==> s[i] == FRESH
      ensures ExhaustedCount(s) == 0
    {
      if |s| > 0 {
        ZeroExhausted(s[..|s| - 1]);
      }
    }

    /** `fetch_add` returned a start at or past `tasks`: worker `i` frees its permit and stops. */
    method Exhaust(i: int)
      requires OnlyReady(i) && data[i].curPk >= data[i].endPk && nextBatchStart >= tasks
      modifies this`nextBatchStart, this`freePermits, data
      ensures Valid() && Work() < old(Work())
      ensures Snap() == AfterExhaust(Params(), old(Snap()), i)
    {
      ghost var st := Snap();
      ghost var p := Params();
      nextBatchStart := nextBatchStart + batchSize;
      var e := data[i].(phase := Exhausted);
      data[i] := e;
      freePermits := freePermits + 1;
      assert data[..] == st.data[i := e];
      assert Snap() == AfterExhaust(p, st, i);
      ExhaustStep(p, st, i);
    }

    /** `fetch_add` returned a start below `tasks`: worker `i` takes [start, min(start + batch_size, tasks)). */
    method NewBatch(i: int)
      requires OnlyReady(i) && data[i].curPk >= data[i].endPk && nextBatchStart < tasks
      modifies this`nextBatchStart, this`owner, data
      ensures OnlyReady(i) && data[i].curPk < data[i].endPk && Work() == old(Work())
      ensures Snap() == AfterNewBatch(Params(), old(Snap()), i)
    {
      ghost var st := Snap();
      ghost var p := Params();
      var start := nextBatchStart;
      nextBatchStart := start + batchSize;
      var d := CallbackData(start, Min(start + batchSize, tasks), Ready);
      assert d == BatchAt(p, st.nextBatchStart);
      data[i] := d;
      owner := Claim(owner, start, d.endPk, i);
      assert data[..] == st.data[i := d];
      assert Snap() == AfterNewBatch(p, st, i);
      NewBatchStep(p, st, i);
    }

    /** The insert or the select of worker `i`'s current pk is issued; its callback is now pending. */
    method Issue(i: int)
      requires OnlyReady(i) && data[i].curPk < data[i].endPk
      modifies data
      ensures Valid() && Work() == old(Work())
      ensures Snap() == AfterIssue(Params(), old(Snap()), i)
    {
      ghost var st := Snap();
      ghost var p := Params();
      var d := data[i].(phase := RequestFor(workload));
      data[i] := d;
      assert data[..] == st.data[i := d];
      assert Snap() == AfterIssue(p, st, i);
      IssueStep(p, st, i);
    }

    /**
     * `run_concurrent_task` for worker `i`: when its batch is used up it pulls the next
     * one (`fetch_add`); a batch start at or past `tasks` exhausts the worker, which frees
     * one permit; otherwise it issues the insert or the select of its current pk.
     */
    method RunConcurrentTask(i: int)
      requires OnlyReady(i)
      modifies this`nextBatchStart, this`freePermits, this`owner, data
      ensures Valid() && Work() <= old(Work())
    {
      if data[i].curPk >= data[i].endPk {
        if nextBatchStart >= tasks {
          // No more work to do: `finished_semaphore->free_permit()`.
          Exhaust(i);
          return;
        }
        NewBatch(i);
      }
      Issue(i);
    }

    /** `acquire_permit` in the start loop: a permit is free, and worker `started` is about to run. */
    method TakePermit()
      requires Valid() && started < concurrency
      modifies this`freePermits, this`started
      ensures started == old(started) + 1 && OnlyReady(started - 1) && Work() < old(Work())
      ensures Snap() == AfterTakePermit(old(Snap()))
    {
      ghost var st := Snap();
      ghost var p := Params();
      freePermits := freePermits - 1;
      started := started + 1;
      assert Snap() == AfterTakePermit(st);
      TakePermitStep(p, st);
    }

    /** One iteration of the start loop: `acquire_permit` and the worker's first task. */
    method StartNext()
      requires Valid() && started < concurrency && fault.None?
      modifies this`freePermits, this`started, this`nextBatchStart, this`owner, data
      ensures Valid() && Work() < old(Work())
      ensures started == old(started) + 1 && waited == old(waited) && fault == old(fault)
    {
      TakePermit();
      RunConcurrentTask(started - 1);
    }

    /** One iteration of the wait loop: `acquire_permit`, possible only while a permit is free. */
    method WaitNext()
      requires Valid() && started == concurrency && waited < concurrency && freePermits != 0
      modifies this`freePermits, this`waited
      ensures Valid() && Work() < old(Work())
      ensures waited == old(waited) + 1 && fault == old(fault)
      ensures Snap() == AfterWait(old(Snap()))
    {
      ghost var st := Snap();
      ghost var p := Params();
      freePermits := freePermits - 1;
      waited := waited + 1;
      assert Snap() == AfterWait(st);
      WaitStep(p, st);
    }

    /** The Inserts insert callback's bookkeeping: the row of worker `i`'s pk is written and the pk is done. */
    method FinishInsert(i: int)
      requires Valid() && workload == Inserts && 0 <= i < data.Length && data[i].phase == AwaitInsert
      modifies this`table, this`written, this`done, this`owner, data
      ensures OnlyReady(i) && Work() < old(Work())
      ensures Snap() == PkDone(RowWritten(old(Snap()), old(data[i].curPk)), i)
    {
      ghost var st := Snap();
      ghost var p := Params();
      var d := data[i];
      table := table[d.curPk := Expected(d.curPk)];
      written := written + {d.curPk};
      done := done + {d.curPk};
      owner := owner - {d.curPk};
      var next := CallbackData(d.curPk + 1, d.endPk, Ready);
      data[i] := next;
      assert data[..] == st.data[i := next];
      assert Snap() == PkDone(RowWritten(st, d.curPk), i);
      FinishInsertStep(p, st, i);
    }

    /** The Mixed insert callback: the row of worker `i`'s pk is written and the select of the pk is issued. */
    method InsertThenSelect(i: int)
      requires Valid() && workload == Mixed && 0 <= i < data.Length && data[i].phase == AwaitInsert
      modifies this`table, this`written, data
      ensures Valid() && Work() < old(Work())
      ensures Snap() == AfterInsertThenSelect(old(Snap()), i)
    {
      ghost var st := Snap();
      ghost var p := Params();
      var d := data[i];
      table := table[d.curPk := Expected(d.curPk)];
      written := written + {d.curPk};
      data[i] := d.(phase := AwaitSelect);
      assert data[..] == st.data[i := d.(phase := AwaitSelect)];
      assert Snap() == AfterInsertThenSelect(st, i);
      InsertThenSelectStep(p, st, i);
    }

    /**
     * `insert_callback` of worker `i`: the row is written; under Inserts the pk is done and
     * the worker moves on; under Mixed the select of the same pk is issued.
     */
    method InsertCallback(i: int)
      requires Valid() && 0 <= i < data.Length && data[i].phase == AwaitInsert
      modifies this`table, this`written, this`done, this`owner, this`nextBatchStart, this`freePermits, data
      ensures Valid() && Work() < old(Work())
      ensures started == old(started) && waited == old(waited) && fault == old(fault)
    {
      if workload == Inserts {
        FinishInsert(i);
        RunConcurrentTask(i);
      } else {
        InsertThenSelect(i);
      }
    }

    /** A select that found its row: worker `i`'s pk is done. */
    method FinishSelect(i: int)
      requires Valid() && fault.None? && 0 <= i < data.Length && data[i].phase == AwaitSelect
      requires CanonicalAt(table, data[i].curPk)
      modifies this`done, this`owner, data
      ensures OnlyReady(i) && Work() < old(Work())
      ensures Snap() == PkDone(old(Snap()), i)
    {
      ghost var st := Snap();
      ghost var p := Params();
      var d := data[i];
      done := done + {d.curPk};
      owner := owner - {d.curPk};
      var next := CallbackData(d.curPk + 1, d.endPk, Ready);
      data[i] := next;
      assert data[..] == st.data[i := next];
      assert Snap() == PkDone(st, i);
      FinishSelectStep(p, st, i);
    }

    /**
     * `select_callback` of worker `i`: a missing row or a row other than (2pk, 3pk) ends
     * the process; otherwise the pk is done and the worker moves on.
     */
    method SelectCallback(i: int)
      requires Valid() && fault.None? && 0 <= i < data.Length && data[i].phase == AwaitSelect
      modifies this`fault, this`done, this`owner, this`nextBatchStart, this`freePermits, data
      ensures Valid() && started == old(started) && waited == old(waited)
      ensures fault.None? ==> Work() < old(Work())
      ensures fault.Some? ==> Work() == old(Work()) && table == old(table)
    {
      var d := data[i];
      if !CanonicalAt(table, d.curPk) {
        ghost var st := Snap();
        ghost var p := Params();
        fault := Some(FaultAt(table, d.curPk));
        assert Snap() == AfterFault(st, i);
        FaultStep(p, st, i);
        return;
      }
      FinishSelect(i);
      RunConcurrentTask(i);
    }

    /** While the main thread is blocked, some worker is still waiting for a callback. */
    lemma NoDeadlock()
      requires Valid() && started == concurrency && waited < concurrency && freePermits == 0
      ensures exists i :: 0 <= i < data.Length && Awaiting(data[i])
    {
      SomeNotExhausted(data[..]);
      var i :| 0 <= i < data.Length && data[..][i].phase != Exhausted;
      assert Awaiting(data[i]);
    }

    /** Once the wait loop has taken all its permits, every worker is exhausted and [0, tasks) is done. */
    lemma Completed()
      requires Valid() && started == concurrency && waited == concurrency && concurrency > 0
      ensures done == Range(0, tasks)
      ensures IssuesInsert(workload) ==> written == done && table == Fill(initial, 0, tasks)
      ensures workload == Selects ==> table == initial && Canonical(initial, 0, tasks)
    {
      AllExhausted(data[..]);
      assert owner.Keys == {};
      FillSetRange(initial, 0, tasks);
    }

    /** A reported fault comes from a Selects run, which leaves the table alone, and names a bad pk. */
    lemma FaultReported()
      requires Valid() && fault.Some?
      ensures workload == Selects && table == initial && BadPk(initial, 0, tasks, fault.value)
    {
    }

    /** A worker waiting for a callback, when the main thread cannot move. */
    method FindAwaiting() returns (i: int)
      requires Valid() && started == concurrency && waited < concurrency && freePermits == 0
      ensures 0 <= i < data.Length && Awaiting(data[i])
    {
      NoDeadlock();
      i := 0;
      while !Awaiting(data[i])
        invariant 0 <= i < data.Length
        invariant exists j :: i <= j < data.Length && Awaiting(data[j])
        decreases data.Length - i
      {
        i := i + 1;
      }
    }

    /** The pending callback of worker `i` runs. */
    method Callback(i: int)
      requires Valid() && fault.None? && 0 <= i < data.Length && Awaiting(data[i])
      modifies this`table, this`written, this`done, this`owner, this`nextBatchStart, this`freePermits, this`fault, data
      ensures Valid() && started == old(started) && waited == old(waited)
      ensures fault.None? ==> Work() < old(Work())
      ensures fault.Some? ==> Work() == old(Work())
    {
      if data[i].phase == AwaitInsert {
        InsertCallback(i);
      } else {
        SelectCallback(i);
      }
    }

    /**
     * One event: the callback of worker `choice - 1` when it is pending, otherwise the
     * main thread's next acquire when a permit is free, otherwise some pending callback.
     */
    method Step(choice: int)
      requires Valid() && fault.None? && waited < concurrency
      modifies this, data
      ensures Valid()
      ensures fault.None? ==> Work() < old(Work())
      ensures fault.Some? ==> Work() == old(Work())
    {
      if 0 < choice <= data.Length && Awaiting(data[choice - 1]) {
        Callback(choice - 1);
      } else if started < concurrency {
        StartNext();
      } else if freePermits != 0 {
        WaitNext();
      } else {
        var i := FindAwaiting();
        Callback(i);
      }
    }

    /**
     * The two loops of the main thread and every callback, interleaved as `schedule`
     * picks (0 for the main thread, `k + 1` for worker `k`), until the wait loop ends
     * or a select finds a bad row.
     */
    method Execute(schedule: seq<nat>)
      requires Valid() && started == 0 && waited == 0 && fault.None?
      modifies this, data
      ensures Valid()
      ensures concurrency == 0 ==> table == old(table) && fault.None?
      ensures concurrency > 0 && fault.None? ==> done == Range(0, tasks)
      ensures concurrency > 0 && fault.None? && IssuesInsert(workload) ==> table == Fill(initial, 0, tasks)
      ensures concurrency > 0 && fault.None? && workload == Selects ==> table == initial && Canonical(initial, 0, tasks)
      ensures fault.Some? ==> workload == Selects && table == initial && BadPk(initial, 0, tasks, fault.value)
    {
      var k := 0;
      WorkBounded(Params(), Snap());
      while fault.None? && waited < concurrency
        invariant Valid() && Work() >= 0
        invariant concurrency == 0 ==> table == old(table) && fault.None?
        decreases Work(), if fault.None? then 1 else 0
      {
        var choice := if k < |schedule| then schedule[k] else 0;
        k := k + 1;
        Step(choice);
        if fault.None? {
          WorkBounded(Params(), Snap());
        }
      }
      if fault.Some? {
        FaultReported();
      } else if concurrency > 0 {
        Completed();
      }
    }
  }

  /**
   * What one engine run may end with: a negative concurrency cannot size the vector
   * of records; inserting workloads always finish with every pk of [0, tasks) written;
   * a Selects run finishes exactly when every pk holds its row, and otherwise reports
   * one pk that does not (which one depends on the order of the callbacks).
   */
  ghost predicate EngineAllows(w: Workload, tasks: int, concurrency: int, t: Table, v: Verdict) {
    if concurrency < 0 then v == Aborted(NegativeCapacity)
    else if concurrency == 0 then v == Finished(t)
    else PassAllows(t, w, 0, tasks, v)
  }

  /** Under Selects the run finishes exactly when [0, tasks) holds its rows. */
  lemma SelectsFinishIffCanonical(tasks: int, concurrency: int, t: Table, v: Verdict)
    requires concurrency > 0 && EngineAllows(Selects, tasks, concurrency, t, v)
    ensures v.Finished? <==> Canonical(t, 0, tasks)
    ensures v.Finished? ==> v.table == t
  {
    if v.Faulted? {
      assert 0 <= v.fault.pk < tasks && !CanonicalAt(t, v.fault.pk);
    }
  }

  /** The start loop, the wait loop and the callbacks over `callbacks_data`, for any interleaving. */
  method RunWorkers(w: Workload, tasks: int, concurrency: int, batchSize: int, t: Table, schedule: seq<nat>)
    returns (v: Verdict)
    requires batchSize >= 1
    ensures EngineAllows(w, tasks, concurrency, t, v)
  {
    if concurrency < 0 {
      // `std::vector` of a negative size throws.
      return Aborted(NegativeCapacity);
    }
    var engine := new Engine(w, tasks, concurrency, batchSize, t);
    engine.Execute(schedule);
    if engine.fault.Some? {
      v := Faulted(engine.fault.value);
    } else {
      v := Finished(engine.table);
    }
  }

  /** The fields of the C++ `Config` the benchmark reads and `prepare_selects_benchmark` changes. */
  class RunConfig {
    var workload: Workload
    var concurrency: int
    const tasks: int
    const batchSize: int
    const dontPrepare: bool

    constructor (c: ScyllaCppConfig.Config)
      ensures workload == c.workload && concurrency == c.concurrency && tasks == c.tasks
      ensures batchSize == c.batchSize && dontPrepare == c.dontPrepare
    {
      workload := c.workload;
      concurrency := c.concurrency;
      tasks := c.tasks;
      batchSize := c.batchSize;
      dontPrepare := c.dontPrepare;
    }
  }

  /**
   * `prepare_selects_benchmark`: the workload becomes Inserts and the concurrency at
   * least 1024 for one engine run, after which the workload is set to Selects and the
   * concurrency restored.
   */
  method PrepareSelectsBenchmark(config: RunConfig, t: Table, schedule: seq<nat>) returns (t': Table)
    requires config.batchSize >= 1
    modifies config
    ensures config.workload == Selects && config.concurrency == old(config.concurrency)
    ensures t' == Fill(t, 0, config.tasks)
  {
    config.workload := Inserts;
    var originalConcurrency := config.concurrency;
    if originalConcurrency < 1024 {
      config.concurrency := 1024;
    }
    var v := RunWorkers(config.workload, config.tasks, config.concurrency, config.batchSize, t, schedule);
    t' := v.table;
    config.workload := Selects;
    config.concurrency := originalConcurrency;
  }

  /** What `main` may end with, after `Config(argc, argv)` produced `p`. */
  ghost predicate CppAllows(p: Plan, t0: Table, v: Verdict) {
    var t1 := if p.dontPrepare then t0 else Provision(t0);
    var t2 := if p.workload == Selects && !p.dontPrepare then Fill(t1, 0, p.tasks) else t1;
    EngineAllows(p.workload, p.tasks, p.concurrency, t2, v)
  }

  /** `main` of the C++ benchmark after the configuration is read. */
  method CppBenchmark(config: RunConfig, t0: Table, prepopSchedule: seq<nat>, schedule: seq<nat>)
    returns (v: Verdict)
    requires config.batchSize >= 1
    modifies config
    ensures config.workload == old(config.workload) && config.concurrency == old(config.concurrency)
    ensures CppAllows(Plan(config.workload, config.tasks, config.concurrency, config.batchSize, config.dontPrepare), t0, v)
  {
    var table := t0;
    if !config.dontPrepare {
      table := Provision(table);
    }
    if config.workload == Selects && !config.dontPrepare {
      table := PrepareSelectsBenchmark(config, table, prepopSchedule);
    }
    v := RunWorkers(config.workload, config.tasks, config.concurrency, config.batchSize, table, schedule);
  }

  /** A prepared Selects run finishes, with every pk of [0, tasks) in the provisioned table. */
  lemma PreparedSelectsPass(p: Plan, t0: Table, v: Verdict)
    requires p.workload == Selects && !p.dontPrepare && p.concurrency > 0
    requires CppAllows(p, t0, v)
    ensures v == Finished(Fill(map[], 0, p.tasks))
  {
    SelectsFinishIffCanonical(p.tasks, p.concurrency, Fill(map[], 0, p.tasks), v);
  }

  /** Inserts and Mixed runs finish with the expected row of every pk of [0, tasks). */
  lemma WritingRunsFillEveryPk(p: Plan, t0: Table, v: Verdict)
    requires IssuesInsert(p.workload) && p.concurrency > 0
    requires CppAllows(p, t0, v)
    ensures v == Finished(Fill(if p.dontPrepare then t0 else map[], 0, p.tasks))
  {
  }
}
