/**
 * The worker pools of the Rust, Go and Java benchmarks: `workers` identical tasks
 * share one cursor; each loops pulling a batch, stopping at its first empty pull,
 * and otherwise running the batch's pk loop, and a worker that meets a bad row
 * panics (or throws) and stops. The workers interleave at the granularity of one pk:
 * the cursor is the only state they share, and the pks of different batches are
 * distinct, so the insert and the select of one pk commute with every other worker's
 * step. `schedule` names the worker taking each next step; afterwards the workers
 * still running are driven to completion one after the other.
 *
 * How `main` learns of a failed worker is the join: the Rust variants await the
 * handles in spawn order and the Java variants call `Future.get` in submission order,
 * so the failure of the lowest-numbered failed worker is reported; in Go a panicking
 * goroutine ends the process at once, so the first failure in time is reported.
 */
module WorkerPool {
  import opened Wrappers
  import opened Numeric
  import opened Workloads
  import opened Executor
  import opened TaskCursor
  import opened Benchmark

  /** Where one worker stands: about to pull, inside batch [start, end) at `cur`, out of work, or failed. */
  datatype Phase =
    | Idle
    | Busy(start: int, cur: int, end: int)
    | Done
    | Dead(fault: Fault, start: int, end: int)

  /** How `main` reports a failed worker: the first in spawn order, or the first in time. */
  datatype Join = InOrder | FirstPanic

  /** The ghost bookkeeping of a pool: the pks done, the worker owning each pending pk, one failed worker (or -1). */
  datatype Books = Books(done: set<int>, owner: map<int, int>, deadOne: int)

  predicate Active(ph: Phase) {
    ph.Idle? || ph.Busy?
  }

  /** What a worker still has to do: a pull, or the rest of its batch and then a pull. */
  function Weight(ph: Phase): nat {
    match ph
    case Idle => 1
    case Busy(_, cur, end) => if cur < end then end - cur + 1 else 1
    case _ => 0
  }

  /** The pulls still to come before the cursor is exhausted. */
  function Budget(next: int, origin: int, tasks: int): nat {
    Max(0, tasks - next - origin)
  }

  /** Worker `i` has `pk` still to do in its current batch. */
  ghost predicate OwnsAt(s: seq<Phase>, i: int, pk: int) {
    0 <= i < |s| && s[i].Busy? && s[i].cur <= pk < s[i].end
  }

  /** The batches so far end at the origin, or within the tasks. */
  ghost predicate Spanned(origin: int, tasks: int, issued: seq<Batch>) {
    var hi := End(issued, origin);
    origin <= hi && (hi == origin || hi <= tasks)
  }

  /** Each pending pk was pulled, and its owner still has it to do. */
  ghost predicate OwnersHold(s: seq<Phase>, owner: map<int, int>, origin: int, hi: int) {
    forall pk :: pk in owner ==> OwnsAt(s, owner[pk], pk) && origin <= pk < hi
  }

  /** Every pk a worker still has to do is pending, and owned by that worker. */
  ghost predicate OwnersKnown(s: seq<Phase>, owner: map<int, int>) {
    forall i, pk :: OwnsAt(s, i, pk) ==> pk in owner && owner[pk] == i
  }

  /**
   * Done pks were pulled and are no longer pending; `deadOne` names a failed worker;
   * until a worker fails, every pulled pk is done or pending.
   */
  ghost predicate Settled(s: seq<Phase>, b: Books, origin: int, hi: int) {
    (forall pk :: pk in b.done ==> pk !in b.owner && origin <= pk < hi) &&
    (b.deadOne >= 0 ==> b.deadOne < |s| && s[b.deadOne].Dead?) &&
    (b.deadOne < 0 ==> b.done + b.owner.Keys == Range(origin, hi))
  }

  /**
   * A busy worker is inside a batch it pulled, past pks that (for Selects) held their
   * rows; a failed worker met the first bad pk of a batch it pulled.
   */
  ghost predicate WorkersSound(t: Table, w: Workload, origin: int, tasks: int, issued: seq<Batch>, s: seq<Phase>) {
    (forall i :: 0 <= i < |s| && s[i].Busy? ==>
      Batch(s[i].start, s[i].end) in issued && s[i].start <= s[i].cur < s[i].end &&
      (w == Selects ==> Canonical(t, s[i].start, s[i].cur))) &&
    (forall i :: 0 <= i < |s| && s[i].Dead? ==>
      w == Selects && BadPk(t, origin, tasks, s[i].fault) &&
      Batch(s[i].start, s[i].end) in issued && s[i].start <= s[i].fault.pk < s[i].end &&
      Canonical(t, s[i].start, s[i].fault.pk))
  }

  /** Inserting workloads wrote exactly the done pks; Selects changed nothing and found the done pks canonical. */
  ghost predicate Written(t: Table, w: Workload, table: Table, done: set<int>) {
    table == (if IssuesInsert(w) then FillSet(t, done) else t) &&
    (w == Selects ==> forall pk :: pk in done ==> CanonicalAt(t, pk))
  }

  /** The bookkeeping of a pool over table `t` whose batches so far are `issued`. */
  ghost predicate PoolInv(t: Table, w: Workload, origin: int, tasks: int, issued: seq<Batch>,
                          s: seq<Phase>, table: Table, b: Books) {
    var hi := End(issued, origin);
    Spanned(origin, tasks, issued) &&
    OwnersHold(s, b.owner, origin, hi) && OwnersKnown(s, b.owner) && Settled(s, b, origin, hi) &&
    WorkersSound(t, w, origin, tasks, issued, s) && Written(t, w, table, b.done)
  }

  /** The pending pks of the batch just pulled, all owned by worker `id`. */
  function Claim(owner: map<int, int>, start: int, end: int, id: int): map<int, int> {
    map pk | pk in owner.Keys + Range(start, end) :: if start <= pk < end then id else owner[pk]
  }

  /** The pending pks of every worker but `id`. */
  function Disown(owner: map<int, int>, id: int): map<int, int> {
    map pk | pk in owner && owner[pk] != id :: owner[pk]
  }

  /** Handing worker `id` (idle) the batch [start, end) past every pending pk makes it the owner of that batch. */
  lemma ClaimOwnership(s: seq<Phase>, owner: map<int, int>, origin: int, hi: int, id: int, start: int, end: int)
    requires OwnersHold(s, owner, origin, hi) && OwnersKnown(s, owner)
    requires 0 <= id < |s| && !s[id].Busy? && origin <= hi == start <= end
    ensures OwnersHold(s[id := Busy(start, start, end)], Claim(owner, start, end, id), origin, end)
    ensures OwnersKnown(s[id := Busy(start, start, end)], Claim(owner, start, end, id))
  {
    var s' := s[id := Busy(start, start, end)];
    var owner' := Claim(owner, start, end, id);
    forall pk | pk in owner' ensures OwnsAt(s', owner'[pk], pk) && origin <= pk < end {
      if !(start <= pk < end) {
        assert OwnsAt(s, owner[pk], pk);
      }
    }
    forall i, pk | OwnsAt(s', i, pk) ensures pk in owner' && owner'[pk] == i {
      if i != id {
        assert OwnsAt(s, i, pk);
      }
    }
  }

  /** A worker that is not busy can change to another phase that is not busy: nobody's pending pks change. */
  lemma IdleOwnership(s: seq<Phase>, owner: map<int, int>, origin: int, hi: int, id: int, ph: Phase)
    requires OwnersHold(s, owner, origin, hi) && OwnersKnown(s, owner)
    requires 0 <= id < |s| && !s[id].Busy? && !ph.Busy?
    ensures OwnersHold(s[id := ph], owner, origin, hi) && OwnersKnown(s[id := ph], owner)
  {
    var s' := s[id := ph];
    forall pk | pk in owner ensures OwnsAt(s', owner[pk], pk) {
      assert OwnsAt(s, owner[pk], pk);
    }
    forall i, pk | OwnsAt(s', i, pk) ensures pk in owner && owner[pk] == i {
      assert OwnsAt(s, i, pk);
    }
  }

  /** A busy worker that finished its current pk gives up ownership of that pk alone. */
  lemma AdvanceOwnership(s: seq<Phase>, owner: map<int, int>, origin: int, hi: int, id: int)
    requires OwnersHold(s, owner, origin, hi) && OwnersKnown(s, owner)
    requires 0 <= id < |s| && s[id].Busy? && s[id].cur < s[id].end
    ensures var ph := s[id];
      var s' := s[id := if ph.cur + 1 == ph.end then Idle else Busy(ph.start, ph.cur + 1, ph.end)];
      OwnersHold(s', owner - {ph.cur}, origin, hi) && OwnersKnown(s', owner - {ph.cur}) &&
      ph.cur in owner && origin <= ph.cur < hi
  {
    var ph := s[id];
    var s' := s[id := if ph.cur + 1 == ph.end then Idle else Busy(ph.start, ph.cur + 1, ph.end)];
    var owner' := owner - {ph.cur};
    assert OwnsAt(s, id, ph.cur);
    forall q | q in owner' ensures OwnsAt(s', owner'[q], q) {
      assert OwnsAt(s, owner[q], q);
    }
    forall i, q | OwnsAt(s', i, q) ensures q in owner' && owner'[q] == i {
      assert OwnsAt(s, i, q);
    }
  }

  /** A busy worker that fails gives up ownership of the rest of its batch. */
  lemma FailOwnership(s: seq<Phase>, owner: map<int, int>, origin: int, hi: int, id: int, ph: Phase)
    requires OwnersHold(s, owner, origin, hi) && OwnersKnown(s, owner)
    requires 0 <= id < |s| && s[id].Busy? && !ph.Busy?
    ensures OwnersHold(s[id := ph], Disown(owner, id), origin, hi) && OwnersKnown(s[id := ph], Disown(owner, id))
  {
    var s' := s[id := ph];
    var owner' := Disown(owner, id);
    forall q | q in owner' ensures OwnsAt(s', owner'[q], q) {
      assert OwnsAt(s, owner[q], q);
    }
    forall i, q | OwnsAt(s', i, q) ensures q in owner' && owner'[q] == i {
      assert OwnsAt(s, i, q);
    }
  }

  /** An idle worker's pull hands it the next batch, which it alone owns. */
  lemma PullStep(t: Table, w: Workload, origin: int, tasks: int, issued: seq<Batch>,
                 s: seq<Phase>, table: Table, b: Books, id: int, batch: Batch)
    requires PoolInv(t, w, origin, tasks, issued, s, table, b)
    requires 0 <= id < |s| && s[id].Idle?
    requires batch.start == End(issued, origin) && batch.start < batch.end <= tasks
    ensures PoolInv(t, w, origin, tasks, issued + [batch], s[id := Busy(batch.start, batch.start, batch.end)],
                    table, b.(owner := Claim(b.owner, batch.start, batch.end, id)))
  {
    var hi := End(issued, origin);
    var issued' := issued + [batch];
    var s' := s[id := Busy(batch.start, batch.start, batch.end)];
    var b' := b.(owner := Claim(b.owner, batch.start, batch.end, id));
    assert End(issued', origin) == batch.end;
    ClaimOwnership(s, b.owner, origin, hi, id, batch.start, batch.end);
    assert Settled(s', b', origin, batch.end) by {
      if b.deadOne < 0 {
        assert b.done + b'.owner.Keys == Range(origin, batch.end);
      }
    }
    assert WorkersSound(t, w, origin, tasks, issued', s') by {
      forall i | 0 <= i < |s'| && s'[i].Busy? && i != id ensures Batch(s'[i].start, s'[i].end) in issued' {
        assert Batch(s[i].start, s[i].end) in issued;
      }
    }
  }

  /** An idle worker whose pull hands out nothing has run out of work. */
  lemma ExhaustStep(t: Table, w: Workload, origin: int, tasks: int, issued: seq<Batch>,
                    s: seq<Phase>, table: Table, b: Books, id: int)
    requires PoolInv(t, w, origin, tasks, issued, s, table, b)
    requires 0 <= id < |s| && s[id].Idle?
    ensures PoolInv(t, w, origin, tasks, issued, s[id := Done], table, b)
  {
    var hi := End(issued, origin);
    IdleOwnership(s, b.owner, origin, hi, id, Done);
  }

  /** A worker whose pk was done moves to the next pk of its batch, or back to pulling. */
  lemma AdvanceStep(t: Table, w: Workload, origin: int, tasks: int, issued: seq<Batch>,
                    s: seq<Phase>, table: Table, b: Books, id: int)
    requires PoolInv(t, w, origin, tasks, issued, s, table, b)
    requires 0 <= id < |s| && s[id].Busy? && Step(table, w, s[id].cur).fault.None?
    ensures var ph := s[id];
      PoolInv(t, w, origin, tasks, issued,
              s[id := if ph.cur + 1 == ph.end then Idle else Busy(ph.start, ph.cur + 1, ph.end)],
              Step(table, w, ph.cur).table, b.(done := b.done + {ph.cur}, owner := b.owner - {ph.cur}))
  {
    var hi := End(issued, origin);
    var ph := s[id];
    var pk := ph.cur;
    var s' := s[id := if ph.cur + 1 == ph.end then Idle else Busy(ph.start, ph.cur + 1, ph.end)];
    var b' := b.(done := b.done + {pk}, owner := b.owner - {pk});
    AdvanceOwnership(s, b.owner, origin, hi, id);
    assert Settled(s', b', origin, hi) by {
      if b.deadOne < 0 {
        assert b'.done + b'.owner.Keys == b.done + b.owner.Keys;
      }
    }
    AdvanceWorkers(t, w, origin, tasks, issued, s, table, id);
    AdvanceWritten(t, w, table, b.done, pk);
  }

  /** The busy worker that finished its pk (for Selects, a canonical one) is still sound. */
  lemma AdvanceWorkers(t: Table, w: Workload, origin: int, tasks: int, issued: seq<Batch>,
                       s: seq<Phase>, table: Table, id: int)
    requires WorkersSound(t, w, origin, tasks, issued, s) && (w == Selects ==> table == t)
    requires 0 <= id < |s| && s[id].Busy? && Step(table, w, s[id].cur).fault.None?
    ensures var ph := s[id];
      WorkersSound(t, w, origin, tasks, issued,
                   s[id := if ph.cur + 1 == ph.end then Idle else Busy(ph.start, ph.cur + 1, ph.end)])
  {
  }

  /** Doing one more pk writes it (inserting workloads) or finds it canonical (Selects). */
  lemma AdvanceWritten(t: Table, w: Workload, table: Table, done: set<int>, pk: int)
    requires Written(t, w, table, done) && Step(table, w, pk).fault.None?
    ensures Written(t, w, Step(table, w, pk).table, done + {pk})
  {
    if IssuesInsert(w) {
      FillSetAdd(t, done, pk);
    }
  }

  /** A worker that meets a bad row fails; the rest of its batch is abandoned. */
  lemma FailStep(t: Table, w: Workload, origin: int, tasks: int, issued: seq<Batch>,
                 s: seq<Phase>, table: Table, b: Books, id: int)
    requires PoolInv(t, w, origin, tasks, issued, s, table, b)
    requires 0 <= id < |s| && s[id].Busy? && Step(table, w, s[id].cur).fault.Some?
    ensures var ph := s[id];
      PoolInv(t, w, origin, tasks, issued,
              s[id := Dead(Step(table, w, ph.cur).fault.value, ph.start, ph.end)],
              table, b.(owner := Disown(b.owner, id), deadOne := if b.deadOne < 0 then id else b.deadOne))
  {
    var hi := End(issued, origin);
    var ph := s[id];
    var s' := s[id := Dead(Step(table, w, ph.cur).fault.value, ph.start, ph.end)];
    var b' := b.(owner := Disown(b.owner, id), deadOne := if b.deadOne < 0 then id else b.deadOne);
    assert OwnsAt(s, id, ph.cur);
    assert w == Selects && table == t;
    FailOwnership(s, b.owner, origin, hi, id, s'[id]);
    assert Settled(s', b', origin, hi);
    assert WorkersSound(t, w, origin, tasks, issued, s');
  }

  /** A failed worker's fault is one a pass may report: the first bad pk of a batch it pulled. */
  lemma FailedPass(t: Table, w: Workload, origin: int, tasks: int, issued: seq<Batch>,
                   s: seq<Phase>, table: Table, b: Books, id: int)
    requires PoolInv(t, w, origin, tasks, issued, s, table, b)
    requires 0 <= id < |s| && s[id].Dead?
    ensures PassAllows(t, w, origin, tasks, Conclude(Run(table, Some(s[id].fault))))
    ensures exists bt :: bt in issued && bt.start <= s[id].fault.pk < bt.end && Canonical(t, bt.start, s[id].fault.pk)
  {
    assert Batch(s[id].start, s[id].end) in issued;
  }

  /** When every worker ran out of work and the batches reach the task count, the pass is complete. */
  lemma CompletePass(t: Table, w: Workload, origin: int, tasks: int, issued: seq<Batch>,
                     s: seq<Phase>, table: Table, b: Books)
    requires PoolInv(t, w, origin, tasks, issued, s, table, b)
    requires forall i :: 0 <= i < |s| ==> s[i].Done?
    requires End(issued, origin) == Max(origin, tasks)
    ensures PassAllows(t, w, origin, tasks, Finished(table))
  {
    assert b.owner.Keys == {};
    assert b.done == Range(origin, Max(origin, tasks));
    if IssuesInsert(w) {
      assert Range(origin, Max(origin, tasks)) == Range(origin, tasks);
      FillSetRange(t, origin, tasks);
    } else {
      assert Canonical(t, origin, tasks) by {
        forall pk | origin <= pk < tasks ensures CanonicalAt(t, pk) {
          assert pk in b.done;
        }
      }
    }
  }

  /** An idle worker pulls: it gets a batch, or finds the cursor exhausted and stops. */
  method Pull(cursor: Cursor, w: Workload, s: seq<Phase>, id: int, table: Table, ghost t: Table, ghost b: Books)
    returns (s': seq<Phase>, ghost b': Books)
    requires cursor.Valid() && 0 <= id < |s| && s[id].Idle?
    requires PoolInv(t, w, cursor.Origin(), cursor.tasks, cursor.issued, s, table, b)
    modifies cursor
    ensures cursor.Valid() && cursor.next == old(cursor.next) + cursor.batchSize
    ensures PoolInv(t, w, cursor.Origin(), cursor.tasks, cursor.issued, s', table, b')
    ensures |s'| == |s| && forall j :: 0 <= j < |s| && j != id ==> s'[j] == s[j]
    ensures s'[id].Done? ==> cursor.Exhausted()
    ensures s'[id].Done? || (s'[id].Busy? && old(cursor.next) + cursor.Origin() < cursor.tasks)
  {
    ghost var issued := cursor.issued;
    var batch := cursor.NextBatch();
    if batch.None? {
      assert cursor.issued == issued;
      ExhaustStep(t, w, cursor.Origin(), cursor.tasks, issued, s, table, b, id);
      s', b' := s[id := Done], b;
    } else {
      var bt := batch.value;
      assert cursor.issued == issued + [bt];
      PullStep(t, w, cursor.Origin(), cursor.tasks, issued, s, table, b, id, bt);
      s', b' := s[id := Busy(bt.start, bt.start, bt.end)], b.(owner := Claim(b.owner, bt.start, bt.end, id));
    }
  }

  /** A busy worker runs its current pk (`Step`), after which it fails, goes on in its batch, or pulls again. */
  method Work(w: Workload, s: seq<Phase>, id: int, table: Table, ghost t: Table, ghost origin: int,
              ghost tasks: int, ghost issued: seq<Batch>, ghost b: Books)
    returns (s': seq<Phase>, table': Table, ghost b': Books)
    requires 0 <= id < |s| && s[id].Busy?
    requires PoolInv(t, w, origin, tasks, issued, s, table, b)
    ensures PoolInv(t, w, origin, tasks, issued, s', table', b')
    ensures |s'| == |s| && forall j :: 0 <= j < |s| && j != id ==> s'[j] == s[j]
    ensures !s'[id].Done? && Weight(s'[id]) < Weight(s[id])
  {
    var ph := s[id];
    var r := Step(table, w, ph.cur);
    if r.fault.Some? {
      FailStep(t, w, origin, tasks, issued, s, table, b, id);
      s', table' := s[id := Dead(r.fault.value, ph.start, ph.end)], table;
      b' := b.(owner := Disown(b.owner, id), deadOne := if b.deadOne < 0 then id else b.deadOne);
    } else {
      AdvanceStep(t, w, origin, tasks, issued, s, table, b, id);
      s' := s[id := if ph.cur + 1 == ph.end then Idle else Busy(ph.start, ph.cur + 1, ph.end)];
      table', b' := r.table, b.(done := b.done + {ph.cur}, owner := b.owner - {ph.cur});
    }
  }

  /** One step of worker `id`: a pull if it is idle, otherwise its current pk. */
  method Turn(cursor: Cursor, w: Workload, s: seq<Phase>, id: int, table: Table, ghost t: Table, ghost b: Books)
    returns (s': seq<Phase>, table': Table, ghost b': Books)
    requires cursor.Valid() && 0 <= id < |s| && Active(s[id])
    requires PoolInv(t, w, cursor.Origin(), cursor.tasks, cursor.issued, s, table, b)
    modifies cursor
    ensures cursor.Valid() && cursor.next >= old(cursor.next)
    ensures PoolInv(t, w, cursor.Origin(), cursor.tasks, cursor.issued, s', table', b')
    ensures |s'| == |s| && forall j :: 0 <= j < |s| && j != id ==> s'[j] == s[j]
    ensures s'[id].Done? ==> cursor.Exhausted()
    ensures Budget(cursor.next, cursor.Origin(), cursor.tasks) < Budget(old(cursor.next), cursor.Origin(), cursor.tasks) ||
      (Budget(cursor.next, cursor.Origin(), cursor.tasks) == Budget(old(cursor.next), cursor.Origin(), cursor.tasks) &&
       Weight(s'[id]) < Weight(s[id]))
  {
    if s[id].Idle? {
      s', b' := Pull(cursor, w, s, id, table, t, b);
      table' := table;
    } else {
      s', table', b' := Work(w, s, id, table, t, cursor.Origin(), cursor.tasks, cursor.issued, b);
    }
  }

  /** Worker `id` runs on its own until it runs out of work or fails. */
  method Drive(cursor: Cursor, w: Workload, s: seq<Phase>, id: int, table: Table, ghost t: Table, ghost b: Books)
    returns (s': seq<Phase>, table': Table, ghost b': Books)
    requires cursor.Valid() && 0 <= id < |s|
    requires PoolInv(t, w, cursor.Origin(), cursor.tasks, cursor.issued, s, table, b)
    requires forall j :: 0 <= j < |s| && s[j].Done? ==> cursor.Exhausted()
    modifies cursor
    ensures cursor.Valid()
    ensures PoolInv(t, w, cursor.Origin(), cursor.tasks, cursor.issued, s', table', b')
    ensures |s'| == |s| && forall j :: 0 <= j < |s| && j != id ==> s'[j] == s[j]
    ensures !Active(s'[id])
    ensures forall j :: 0 <= j < |s'| && s'[j].Done? ==> cursor.Exhausted()
  {
    s', table', b' := s, table, b;
    while Active(s'[id])
      invariant cursor.Valid() && cursor.next >= old(cursor.next)
      invariant PoolInv(t, w, cursor.Origin(), cursor.tasks, cursor.issued, s', table', b')
      invariant |s'| == |s| && forall j :: 0 <= j < |s| && j != id ==> s'[j] == s[j]
      invariant forall j :: 0 <= j < |s'| && s'[j].Done? ==> cursor.Exhausted()
      decreases Budget(cursor.next, cursor.Origin(), cursor.tasks), Weight(s'[id])
    {
      s', table', b' := Turn(cursor, w, s', id, table', t, b');
    }
  }

  /**
   * The workers take steps in the order `schedule` names (a name of a worker that has
   * stopped, or of no worker, is skipped). Under `FirstPanic` this ends at the first
   * failure, which is returned; otherwise `failed` is -1.
   */
  method Interleave(cursor: Cursor, w: Workload, s: seq<Phase>, table: Table, ghost t: Table, ghost b: Books,
                    join: Join, schedule: seq<int>)
    returns (s': seq<Phase>, table': Table, ghost b': Books, failed: int)
    requires cursor.Valid() && PoolInv(t, w, cursor.Origin(), cursor.tasks, cursor.issued, s, table, b)
    requires forall j :: 0 <= j < |s| && s[j].Done? ==> cursor.Exhausted()
    modifies cursor
    ensures cursor.Valid() && PoolInv(t, w, cursor.Origin(), cursor.tasks, cursor.issued, s', table', b')
    ensures |s'| == |s| && forall j :: 0 <= j < |s'| && s'[j].Done? ==> cursor.Exhausted()
    ensures failed == -1 || (0 <= failed < |s'| && s'[failed].Dead?)
  {
    s', table', b', failed := s, table, b, -1;
    var k := 0;
    while k < |schedule|
      invariant cursor.Valid() && PoolInv(t, w, cursor.Origin(), cursor.tasks, cursor.issued, s', table', b')
      invariant |s'| == |s| && forall j :: 0 <= j < |s'| && s'[j].Done? ==> cursor.Exhausted()
    {
      var id := schedule[k];
      if 0 <= id < |s'| && Active(s'[id]) {
        s', table', b' := Turn(cursor, w, s', id, table', t, b');
        if join == FirstPanic && s'[id].Dead? {
          return s', table', b', id;
        }
      }
      k := k + 1;
    }
  }

  /**
   * The workers still running run to the end one after the other. Under `FirstPanic`
   * this ends at the first failure, which is returned; otherwise `failed` is -1 and
   * every worker has stopped.
   */
  method Drain(cursor: Cursor, w: Workload, s: seq<Phase>, table: Table, ghost t: Table, ghost b: Books, join: Join)
    returns (s': seq<Phase>, table': Table, ghost b': Books, failed: int)
    requires cursor.Valid() && PoolInv(t, w, cursor.Origin(), cursor.tasks, cursor.issued, s, table, b)
    requires forall j :: 0 <= j < |s| && s[j].Done? ==> cursor.Exhausted()
    modifies cursor
    ensures cursor.Valid() && PoolInv(t, w, cursor.Origin(), cursor.tasks, cursor.issued, s', table', b')
    ensures |s'| == |s| && forall j :: 0 <= j < |s'| && s'[j].Done? ==> cursor.Exhausted()
    ensures failed == -1 || (0 <= failed < |s'| && s'[failed].Dead?)
    ensures failed == -1 ==> forall j :: 0 <= j < |s'| ==> !Active(s'[j])
  {
    s', table', b' := s, table, b;
    var i := 0;
    while i < |s'|
      invariant 0 <= i <= |s'|
      invariant cursor.Valid() && PoolInv(t, w, cursor.Origin(), cursor.tasks, cursor.issued, s', table', b')
      invariant |s'| == |s| && forall j :: 0 <= j < |s'| && s'[j].Done? ==> cursor.Exhausted()
      invariant forall j :: 0 <= j < i ==> !Active(s'[j])
    {
      s', table', b' := Drive(cursor, w, s', i, table', t, b');
      if join == FirstPanic && s'[i].Dead? {
        return s', table', b', i;
      }
      i := i + 1;
    }
    failed := -1;
  }

  /** Freshly spawned workers, none of which has pulled yet. */
  lemma Spawned(t: Table, w: Workload, origin: int, tasks: int, s: seq<Phase>)
    requires forall i :: 0 <= i < |s| ==> s[i] == Idle
    ensures PoolInv(t, w, origin, tasks, [], s, t, Books({}, map[], -1))
    ensures forall i :: 0 <= i < |s| ==> !s[i].Done?
  {
    assert Range(origin, origin) == {};
    FillSetRange(t, origin, origin);
  }

  /**
   * The join: each handle awaited, or each future's `get`, in spawn order; the first
   * failed worker met is the one reported.
   */
  method JoinInOrder(s: seq<Phase>) returns (failed: int)
    ensures failed == -1 <==> forall j :: 0 <= j < |s| ==> !s[j].Dead?
    ensures failed != -1 ==> 0 <= failed < |s| && s[failed].Dead? && forall j :: 0 <= j < failed ==> !s[j].Dead?
  {
    var j := 0;
    while j < |s|
      invariant 0 <= j <= |s|
      invariant forall q :: 0 <= q < j ==> !s[q].Dead?
    {
      if s[j].Dead? {
        return j;
      }
      j := j + 1;
    }
    return -1;
  }

  /**
   * The whole pool, for any interleaving of its workers' steps. Inserting workloads
   * write every pk of [origin, tasks); a Selects pass leaves the table alone and
   * finishes exactly when the range holds its rows, and otherwise reports a pk without
   * its row, the first such pk of the batch it lies in. The batches handed out are
   * contiguous from the origin; without a fault they end at the task count.
   */
  method RunPool(kind: Kind, batchSize: int, tasks: int, workers: int, w: Workload, t: Table,
                 join: Join, schedule: seq<int>)
    returns (r: Run, ghost batches: seq<Batch>)
    requires batchSize >= 1
    ensures Contiguous(batches, FirstStart(kind, batchSize))
    ensures workers > 0 ==> PassAllows(t, w, FirstStart(kind, batchSize), tasks, Conclude(r))
    ensures workers > 0 && r.fault.Some? ==>
      exists bt :: bt in batches && bt.start <= r.fault.value.pk < bt.end && Canonical(t, bt.start, r.fault.value.pk)
    ensures workers > 0 && r.fault.None? ==>
      End(batches, FirstStart(kind, batchSize)) == Max(FirstStart(kind, batchSize), tasks)
    ensures workers <= 0 ==> r == Run(t, None) && batches == []
  {
    if workers <= 0 {
      // no worker is spawned, and there is nothing to join
      return Run(t, None), [];
    }
    var cursor := new Cursor(kind, batchSize, tasks);
    ghost var origin := cursor.Origin();
    var s: seq<Phase> := seq(workers, _ => Idle);
    var table := t;
    ghost var b := Books({}, map[], -1);
    Spawned(t, w, origin, tasks, s);
    var failed;
    s, table, b, failed := Interleave(cursor, w, s, table, t, b, join, schedule);
    if failed == -1 {
      s, table, b, failed := Drain(cursor, w, s, table, t, b, join);
    }
    if failed == -1 {
      failed := JoinInOrder(s);
    }
    batches := cursor.issued;
    if failed != -1 {
      FailedPass(t, w, origin, tasks, cursor.issued, s, table, b, failed);
      r := Run(table, Some(s[failed].fault));
    } else {
      assert s[0].Done?;
      CompletePass(t, w, origin, tasks, cursor.issued, s, table, b);
      r := Run(table, None);
    }
  }
}
