/**
 * What every benchmark's `main` shares once its configuration is read: the fields the
 * loops consult, the provisioning step, and how a run ends. The database is the
 * abstract table of the executor; provisioning (DROP KEYSPACE, then CREATE KEYSPACE and
 * CREATE TABLE) leaves it empty.
 */
module Benchmark {
  import opened Wrappers
  import opened Workloads
  import opened Executor

  /** The configuration fields the benchmark loops read, whichever config type carried them. */
  datatype Plan = Plan(workload: Workload, tasks: int, concurrency: int, batchSize: int, dontPrepare: bool)

  /** Why a run stopped before doing any work on the table. */
  datatype Abort =
    | NegativeCapacity      // a negative concurrency converted to `usize` with `try_into().unwrap()`
    | QueueSizeOutOfRange   // `2 * concurrency` does not fit the driver's `u32` queue size
    | EmptyThreadPool       // `Executors.newFixedThreadPool` rejects a non-positive size
    | ZeroPermits           // a semaphore created with no permits blocks the first acquire forever

  /** How a benchmark run ends: with the table it leaves, with a correctness fault, or aborted. */
  datatype Verdict = Finished(table: Table) | Faulted(fault: Fault) | Aborted(reason: Abort)

  /** The table after provisioning. */
  function Provision(t: Table): Table {
    map[]
  }

  /** The verdict of a run of the per-pk loop: its fault if it met one, otherwise its table. */
  function Conclude(r: Run): (v: Verdict)
    ensures !v.Aborted?
    ensures v.Faulted? <==> r.fault.Some?
    ensures v.Faulted? ==> v.fault == r.fault.value
    ensures v.Finished? ==> v.table == r.table
  {
    if r.fault.Some? then Faulted(r.fault.value) else Finished(r.table)
  }

  /** A fault a pass over [lo, hi) may report: the select of a pk of the range that does not hold its row. */
  predicate BadPk(t: Table, lo: int, hi: int, f: Fault) {
    lo <= f.pk < hi && f == FaultAt(t, f.pk) && !CanonicalAt(t, f.pk)
  }

  /**
   * What a concurrent pass of `w` over [lo, hi) of `t` may end with, whatever the
   * interleaving of its workers: inserting workloads write the row of every pk of the
   * range and never fault; a Selects pass leaves the table alone and finishes exactly
   * when every pk of the range holds its row, and otherwise reports one pk that does
   * not (which one depends on the interleaving).
   */
  predicate PassAllows(t: Table, w: Workload, lo: int, hi: int, v: Verdict) {
    if IssuesInsert(w) then v == Finished(Fill(t, lo, hi))
    else (v == Finished(t) && Canonical(t, lo, hi)) || (v.Faulted? && BadPk(t, lo, hi, v.fault))
  }

  /** A Selects pass finishes exactly when the range holds its rows, and then leaves the table as it was. */
  lemma SelectsPassIffCanonical(t: Table, lo: int, hi: int, v: Verdict)
    requires PassAllows(t, Selects, lo, hi, v)
    ensures !v.Aborted?
    ensures v.Finished? <==> Canonical(t, lo, hi)
    ensures v.Finished? ==> v.table == t
  {
    if v.Faulted? {
      assert lo <= v.fault.pk < hi && !CanonicalAt(t, v.fault.pk);
    }
  }

  /** One ascending pass over the range, each pk in turn, is one of the outcomes a pass allows. */
  lemma SequentialPassAllowed(t: Table, w: Workload, lo: int, hi: int)
    ensures PassAllows(t, w, lo, hi, Conclude(RunRange(t, w, lo, hi)))
  {
    if IssuesInsert(w) {
      RunRangeInserting(t, w, lo, hi);
    } else {
      RunRangeSelecting(t, lo, hi);
    }
  }
}
