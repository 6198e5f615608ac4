/**
 * The shared batch cursor of the worker-pool benchmarks: one atomic counter that
 * every worker advances by the batch size. The Rust variants and the C++ callback
 * engine use `fetch_add`, which returns the value BEFORE the add (the batch starts
 * there); Go's `atomic.AddInt64` and Java's `addAndGet` return the value AFTER the
 * add, so the first start any worker sees is the batch size. A pull whose start is
 * at or past the task count hands out nothing; the counter is advanced either way.
 */
module TaskCursor {
  import opened Wrappers
  import opened Numeric
  import Executor

  datatype Batch = Batch(start: int, end: int)

  datatype Kind = PreAdd | PostAdd

  /** Where the first batch starts: 0 for fetch-and-add, the batch size for add-and-get. */
  function FirstStart(kind: Kind, batchSize: int): int {
    if kind == PreAdd then 0 else batchSize
  }

  /** What one pull hands out when the counter held `counter` before it. */
  function Pull(kind: Kind, counter: int, batchSize: int, tasks: int): (b: Option<Batch>)
    requires batchSize >= 1
    ensures b.None? <==> counter + FirstStart(kind, batchSize) >= tasks
    ensures b.Some? ==> (b.value.start == counter + FirstStart(kind, batchSize) &&
      b.value.start < b.value.end <= tasks && b.value.end - b.value.start <= batchSize &&
      (b.value.end == tasks || b.value.end - b.value.start == batchSize))
  {
    var start := if kind == PreAdd then counter else counter + batchSize;
    if start >= tasks then None else Some(Batch(start, Min(start + batchSize, tasks)))
  }

  /** Non-empty batches, the first starting at `origin`, each starting where the previous ended. */
  ghost predicate Contiguous(bs: seq<Batch>, origin: int) {
    (|bs| > 0 ==> bs[0].start == origin) &&
    (forall i :: 0 <= i < |bs| ==> bs[i].start < bs[i].end) &&
    (forall i :: 0 < i < |bs| ==> bs[i].start == bs[i - 1].end)
  }

  /** Where the batches end (the origin if there are none). */
  function End(bs: seq<Batch>, origin: int): int {
    if |bs| == 0 then origin else bs[|bs| - 1].end
  }

  /** The pks the batches cover. */
  function Covered(bs: seq<Batch>): set<int> {
    if |bs| == 0 then {} else Covered(bs[..|bs| - 1]) + Executor.Range(bs[|bs| - 1].start, bs[|bs| - 1].end)
  }

  /** A non-empty batch starting where contiguous batches end extends them. */
  lemma ContiguousSnoc(bs: seq<Batch>, origin: int, b: Batch)
    requires Contiguous(bs, origin) && b.start == End(bs, origin) && b.start < b.end
    ensures Contiguous(bs + [b], origin) && End(bs + [b], origin) == b.end
  {
  }

  /** Contiguous batches are pairwise disjoint: an earlier batch ends before a later one starts. */
  lemma {:induction false} ContiguousDisjoint(bs: seq<Batch>, origin: int, i: int, j: int)
    requires Contiguous(bs, origin) && 0 <= i < j < |bs|
    ensures bs[i].end <= bs[j].start
    decreases j - i
  {
    if i < j - 1 {
      ContiguousDisjoint(bs, origin, i, j - 1);
    }
  }

  /** Contiguous batches cover exactly [origin, End). */
  lemma {:induction false} ContiguousCovers(bs: seq<Batch>, origin: int)
    requires Contiguous(bs, origin)
    ensures End(bs, origin) >= origin
    ensures Covered(bs) == Executor.Range(origin, End(bs, origin))
  {
    if |bs| > 0 {
      var init := bs[..|bs| - 1];
      assert Contiguous(init, origin);
      ContiguousCovers(init, origin);
      assert End(init, origin) == bs[|bs| - 1].start;
    }
  }

  /** Each pk of [origin, End) lies in exactly one batch. */
  lemma UniqueBatch(bs: seq<Batch>, origin: int, pk: int)
    requires Contiguous(bs, origin) && origin <= pk < End(bs, origin)
    ensures exists i :: 0 <= i < |bs| && bs[i].start <= pk < bs[i].end
    ensures forall i, j ::
      (0 <= i < |bs| && 0 <= j < |bs| && bs[i].start <= pk < bs[i].end && bs[j].start <= pk < bs[j].end) ==> i == j
  {
    ContiguousCovers(bs, origin);
    InCovered(bs, pk);
    forall i, j | 0 <= i < |bs| && 0 <= j < |bs| &&
      bs[i].start <= pk < bs[i].end && bs[j].start <= pk < bs[j].end
      ensures i == j
    {
      if i < j { ContiguousDisjoint(bs, origin, i, j); }
      if j < i { ContiguousDisjoint(bs, origin, j, i); }
    }
  }

  lemma {:induction false} InCovered(bs: seq<Batch>, pk: int)
    requires pk in Covered(bs)
    ensures exists i :: 0 <= i < |bs| && bs[i].start <= pk < bs[i].end
  {
    var last := |bs| - 1;
    if pk !in Executor.Range(bs[last].start, bs[last].end) {
      InCovered(bs[..last], pk);
      var i :| 0 <= i < last && bs[..last][i].start <= pk < bs[..last][i].end;
      assert bs[i] == bs[..last][i];
    }
  }

  /** The shared counter (`next_batch_start`) and the batches handed out so far. */
  class Cursor {
    var next: int
    const kind: Kind
    const batchSize: int
    const tasks: int
    ghost var issued: seq<Batch>

    function Origin(): int {
      FirstStart(kind, batchSize)
    }

    /** The counter has passed the tasks: every further pull hands out nothing. */
    predicate Exhausted()
      reads this
    {
      next + Origin() >= tasks
    }

    /**
     * The batches handed out are contiguous from the origin, and they end where the
     * counter stands, clamped to [origin, tasks].
     */
    ghost predicate Valid()
      reads this
    {
      batchSize >= 1 && next >= 0 &&
      Contiguous(issued, Origin()) &&
      End(issued, Origin()) == Max(Origin(), Min(next + Origin(), tasks))
    }

    /** `AtomicI64::new(0)`, `AtomicLong(0)`, or the zero value of Go's `int64`. */
    constructor (kind: Kind, batchSize: int, tasks: int)
      requires batchSize >= 1
      ensures Valid() && this.kind == kind && this.batchSize == batchSize && this.tasks == tasks
      ensures next == 0 && issued == []
    {
      this.kind := kind;
      this.batchSize := batchSize;
      this.tasks := tasks;
      next := 0;
      issued := [];
    }

    /**
     * One atomic pull: the counter advances by the batch size and the batch (if any)
     * starts at the old value (fetch-and-add) or at the new one (add-and-get), and
     * ends at `min(start + batch_size, tasks)`.
     */
    method NextBatch() returns (b: Option<Batch>)
      requires Valid()
      modifies this
      ensures Valid()
      ensures next == old(next) + batchSize
      ensures b == Pull(kind, old(next), batchSize, tasks)
      ensures issued == old(issued) + (if b.Some? then [b.value] else [])
      ensures b.None? ==> Exhausted()
    {
      var counter := next;
      next := next + batchSize;
      var start := if kind == PreAdd then counter else next;
      if start >= tasks {
        return None;
      }
      b := Some(Batch(start, Min(start + batchSize, tasks)));
      ContiguousSnoc(issued, Origin(), b.value);
      issued := issued + [b.value];
    }
  }
}
