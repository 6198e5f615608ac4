/**
 * The per-pk work every benchmark does, against an abstract table `pk -> (v1, v2)`:
 * an insert writes (2pk, 3pk); a select reads the row back and requires it to be
 * exactly (2pk, 3pk), a missing row and a different row being two distinct
 * correctness faults; Mixed inserts, then selects, the same pk. A batch is the loop
 * over pks lo, lo+1, ..., hi-1, stopping at the first fault (every variant treats a
 * fault as fatal to the task that meets it).
 */
module Executor {
  import opened Wrappers
  import opened Workloads

  type Row = (int, int)
  type Table = map<int, Row>

  /** The row the benchmark writes for `pk`. */
  function Expected(pk: int): Row {
    (2 * pk, 3 * pk)
  }

  datatype Fault = MissingRow(pk: int) | WrongRow(pk: int, row: Row)

  /** The table and the fault (if any) after some work. */
  datatype Run = Run(table: Table, fault: Option<Fault>)

  /** `pk` holds the row the benchmark writes for it. */
  predicate CanonicalAt(t: Table, pk: int) {
    pk in t && t[pk] == Expected(pk)
  }

  /** Every pk in [lo, hi) holds its expected row. */
  predicate Canonical(t: Table, lo: int, hi: int) {
    forall pk :: lo <= pk < hi ==> CanonicalAt(t, pk)
  }

  /** The fault a select of `pk` reports on `t`. */
  function FaultAt(t: Table, pk: int): Fault {
    if pk in t then WrongRow(pk, t[pk]) else MissingRow(pk)
  }

  /** The pks lo, lo+1, ..., hi-1. */
  function Range(lo: int, hi: int): (r: set<int>)
    ensures forall k :: k in r <==> lo <= k < hi
    decreases hi - lo
  {
    if lo >= hi then {} else {lo} + Range(lo + 1, hi)
  }

  /** `t` with the expected row written for every pk in [lo, hi), all else unchanged. */
  function Fill(t: Table, lo: int, hi: int): (r: Table)
    ensures forall pk :: lo <= pk < hi ==> CanonicalAt(r, pk)
    ensures forall pk :: !(lo <= pk < hi) ==> (pk in r <==> pk in t)
    ensures forall pk :: !(lo <= pk < hi) && pk in t ==> r[pk] == t[pk]
  {
    map pk | pk in t.Keys + Range(lo, hi) :: if lo <= pk < hi then Expected(pk) else t[pk]
  }

  /** `t` with the expected row written for every pk of `s`. */
  function FillSet(t: Table, s: set<int>): Table {
    map pk | pk in t.Keys + s :: if pk in s then Expected(pk) else t[pk]
  }

  lemma FillSetStep(t: Table, s: set<int>, lo: int, hi: int)
    ensures Fill(FillSet(t, s), lo, hi) == FillSet(t, s + Range(lo, hi))
  {
  }

  lemma FillSetRange(t: Table, lo: int, hi: int)
    ensures FillSet(t, Range(lo, hi)) == Fill(t, lo, hi)
  {
  }

  lemma FillSetAdd(t: Table, s: set<int>, pk: int)
    ensures FillSet(t, s)[pk := Expected(pk)] == FillSet(t, s + {pk})
  {
  }

  /** One pk under workload `w`: the insert, then the select, as the workload asks. */
  function Step(t: Table, w: Workload, pk: int): (r: Run)
    ensures IssuesInsert(w) ==> r == Run(t[pk := Expected(pk)], None)
    ensures w == Selects ==> r.table == t
    ensures w == Selects ==> (r.fault.None? <==> CanonicalAt(t, pk))
    ensures w == Selects && r.fault.Some? ==> r.fault.value == FaultAt(t, pk)
  {
    var t1 := if IssuesInsert(w) then t[pk := Expected(pk)] else t;
    if IssuesSelect(w) && !CanonicalAt(t1, pk) then Run(t1, Some(FaultAt(t1, pk)))
    else Run(t1, None)
  }

  /** The pks lo, lo+1, ..., hi-1 in ascending order, stopping at the first fault. */
  function RunRange(t: Table, w: Workload, lo: int, hi: int): Run
    decreases hi - lo
  {
    if lo >= hi then Run(t, None)
    else
      var s := Step(t, w, lo);
      if s.fault.Some? then s else RunRange(s.table, w, lo + 1, hi)
  }

  /** Inserts and Mixed never fault and leave every pk of the range canonical. */
  lemma {:induction false} RunRangeInserting(t: Table, w: Workload, lo: int, hi: int)
    requires IssuesInsert(w)
    ensures RunRange(t, w, lo, hi) == Run(Fill(t, lo, hi), None)
    decreases hi - lo
  {
    if lo < hi {
      var t1 := t[lo := Expected(lo)];
      RunRangeInserting(t1, w, lo + 1, hi);
      assert Fill(t1, lo + 1, hi) == Fill(t, lo, hi);
    }
  }

  /**
   * Selects leaves the table as it was and faults exactly when some pk of the range
   * is not canonical, reporting the least such pk with what the select found there.
   */
  lemma {:induction false} RunRangeSelecting(t: Table, lo: int, hi: int)
    ensures var r := RunRange(t, Selects, lo, hi);
      r.table == t &&
      (r.fault.None? <==> Canonical(t, lo, hi)) &&
      (r.fault.Some? ==>
        lo <= r.fault.value.pk < hi && Canonical(t, lo, r.fault.value.pk) &&
        !CanonicalAt(t, r.fault.value.pk) && r.fault.value == FaultAt(t, r.fault.value.pk))
    decreases hi - lo
  {
    if lo < hi && CanonicalAt(t, lo) {
      RunRangeSelecting(t, lo + 1, hi);
    }
  }

  /** Running [lo, mid) and then, if it did not fault, [mid, hi) is running [lo, hi). */
  lemma {:induction false} RunRangeSplit(t: Table, w: Workload, lo: int, mid: int, hi: int)
    requires lo <= mid <= hi
    ensures var first := RunRange(t, w, lo, mid);
      RunRange(t, w, lo, hi) ==
        (if first.fault.Some? then first else RunRange(first.table, w, mid, hi))
    decreases mid - lo
  {
    if lo < mid {
      var s := Step(t, w, lo);
      if s.fault.None? {
        RunRangeSplit(s.table, w, lo + 1, mid, hi);
      }
    }
  }

  /** The loop of one batch, `for pk in start..end`, as the worker tasks run it. */
  method RunBatch(t: Table, w: Workload, start: int, end: int) returns (r: Run)
    ensures r == RunRange(t, w, start, end)
  {
    var table := t;
    var pk := start;
    while pk < end
      invariant start <= pk && (pk <= end || pk == start)
      invariant RunRange(t, w, start, pk) == Run(table, None)
      decreases end - pk
    {
      RunRangeSplit(t, w, start, pk, pk + 1);
      if IssuesInsert(w) {
        table := table[pk := Expected(pk)];
      }
      if IssuesSelect(w) && !CanonicalAt(table, pk) {
        RunRangeSplit(t, w, start, pk, end);
        return Run(table, Some(FaultAt(table, pk)));
      }
      pk := pk + 1;
    }
    r := Run(table, None);
  }

  /** Under Mixed the select always finds the row its own insert just wrote. */
  lemma MixedNeverFaults(t: Table, lo: int, hi: int)
    ensures RunRange(t, Mixed, lo, hi).fault.None?
    ensures Canonical(RunRange(t, Mixed, lo, hi).table, lo, hi)
  {
    RunRangeInserting(t, Mixed, lo, hi);
  }

  /** Insert, then select, round-trips: after the inserts run over a range, its selects find every row. */
  lemma InsertThenSelect(t: Table, lo: int, hi: int)
    ensures RunRange(RunRange(t, Inserts, lo, hi).table, Selects, lo, hi) ==
            Run(RunRange(t, Inserts, lo, hi).table, None)
  {
    RunRangeInserting(t, Inserts, lo, hi);
    RunRangeSelecting(Fill(t, lo, hi), lo, hi);
  }

  /** The order of two insert ranges does not matter. */
  lemma FillCommutes(t: Table, a: int, b: int, c: int, d: int)
    ensures Fill(Fill(t, a, b), c, d) == Fill(Fill(t, c, d), a, b)
  {
  }

  /** Filling [lo, mid) and then [mid, hi) fills [lo, hi). */
  lemma FillAdjacent(t: Table, lo: int, mid: int, hi: int)
    requires lo <= mid <= hi
    ensures Fill(Fill(t, lo, mid), mid, hi) == Fill(t, lo, hi)
  {
  }
}
