/**
 * What every benchmark configuration shares: the three workloads, the outcome of
 * reading a configuration (help, an error, or a configuration), and the rule that
 * derives the batch size from the number of tasks and the concurrency.
 */
module Workloads {
  import opened Wrappers

  datatype Workload = Inserts | Selects | Mixed

  /** The lower-case spelling accepted on the command line. */
  function Name(w: Workload): string {
    match w
    case Inserts => "inserts"
    case Selects => "selects"
    case Mixed => "mixed"
  }

  /** Exact-match recognition of a lower-case workload name. */
  function FromName(s: string): (r: Option<Workload>)
    ensures r.Some? <==> (s == "inserts" || s == "selects" || s == "mixed")
    ensures r.Some? ==> Name(r.value) == s
  {
    if s == "inserts" then Some(Inserts)
    else if s == "selects" then Some(Selects)
    else if s == "mixed" then Some(Mixed)
    else None
  }

  /** Every workload is recognised by its own name, and by nothing else. */
  lemma NameRoundTrip(w: Workload, s: string)
    ensures FromName(Name(w)) == Some(w)
    ensures FromName(s) == Some(w) <==> s == Name(w)
  {
  }

  /** The constant names of the Java enum (`Workload.valueOf` is case-sensitive). */
  function ConstantName(w: Workload): string {
    match w
    case Inserts => "Inserts"
    case Selects => "Selects"
    case Mixed => "Mixed"
  }

  /** Java's `Enum.valueOf`: succeeds only on an exact constant name. */
  function FromConstantName(s: string): (r: Option<Workload>)
    ensures r.Some? <==> (s == "Inserts" || s == "Selects" || s == "Mixed")
    ensures r.Some? ==> ConstantName(r.value) == s
  {
    if s == "Inserts" then Some(Inserts)
    else if s == "Selects" then Some(Selects)
    else if s == "Mixed" then Some(Mixed)
    else None
  }

  /** Java's constant names and the command-line names differ: "inserts" is not a constant. */
  lemma ConstantNamesAreCaseSensitive(w: Workload)
    ensures FromConstantName(ConstantName(w)) == Some(w)
    ensures FromConstantName(Name(w)) == None
    ensures FromName(ConstantName(w)) == None
  {
  }

  /** Inserts and Mixed write a row for each pk. */
  predicate IssuesInsert(w: Workload) {
    w == Inserts || w == Mixed
  }

  /** Selects and Mixed read a row back for each pk. */
  predicate IssuesSelect(w: Workload) {
    w == Selects || w == Mixed
  }
}

module Outcomes {
  /** Why reading the configuration stopped without producing one. */
  datatype ConfigError =
    | NoValue(arg: string)             // a value-taking flag was the last argument
    | InvalidWorkload(value: string)   // not one of the accepted workload names
    | UnknownArgument(arg: string)     // a flag the program does not know
    | InvalidNumber(value: string)     // a strict integer parse rejected the value
    | DivisionByZero                   // the batch-size rule divided by a zero concurrency

  /** The result of reading a configuration. */
  datatype Outcome<C> = Help | Failure(error: ConfigError) | Ok(config: C)
}

module Batching {
  import opened Wrappers
  import opened Numeric

  const BATCH_SIZE: int := 256

  /**
   * The batch size: 256, unless `tasks / 256 < concurrency`, in which case it is
   * `max(1, tasks / concurrency)`, with the source's truncating division. The only
   * way the rule can fault is dividing by a zero concurrency, which requires
   * `tasks / 256 < 0`, i.e. `tasks <= -256`.
   */
  function DeriveBatchSize(tasks: int, concurrency: int): (r: Option<int>)
    ensures r.None? <==> (concurrency == 0 && tasks <= -BATCH_SIZE)
    ensures r.Some? ==> 1 <= r.value
  {
    if TruncDiv(tasks, BATCH_SIZE) < concurrency then
      if concurrency == 0 then None else Some(Max(1, TruncDiv(tasks, concurrency)))
    else Some(BATCH_SIZE)
  }

  /** For a nonnegative task count and a positive concurrency the batch size lies in [1, 256]. */
  lemma BatchSizeBounds(tasks: int, concurrency: int)
    requires tasks >= 0 && concurrency > 0
    ensures DeriveBatchSize(tasks, concurrency).Some?
    ensures 1 <= DeriveBatchSize(tasks, concurrency).value <= BATCH_SIZE
  {
    if tasks / BATCH_SIZE < concurrency {
      // tasks < 256 * concurrency, so tasks / concurrency < 256
      assert tasks < BATCH_SIZE * concurrency by {
        assert tasks / BATCH_SIZE <= concurrency - 1;
      }
      QuotientBelow(tasks, concurrency, BATCH_SIZE);
    }
  }

  lemma QuotientBelow(a: nat, b: int, k: nat)
    requires b > 0 && a < k * b
    ensures a / b < k
  {
    if a / b >= k {
      assert (a / b) * b >= k * b by {
        MulMonotone(k, a / b, b);
      }
      assert false;
    }
  }

  lemma MulMonotone(x: int, y: int, b: nat)
    requires x <= y
    ensures x * b <= y * b
  {
  }

  /** Number of batches of size `bs` needed for `tasks` pks: ceil(tasks / bs). */
  function NumBatches(tasks: nat, bs: int): nat
    requires bs >= 1
  {
    (tasks + bs - 1) / bs
  }

  /**
   * The rule leaves enough batches for every worker to get one, as long as there
   * are at least as many tasks as workers.
   */
  lemma EnoughBatchesForWorkers(tasks: nat, concurrency: int)
    requires concurrency > 0
    ensures DeriveBatchSize(tasks, concurrency).Some?
    ensures NumBatches(tasks, DeriveBatchSize(tasks, concurrency).value) >= Min(concurrency, tasks)
  {
    var bs := DeriveBatchSize(tasks, concurrency).value;
    var q := tasks / concurrency;
    assert TruncDiv(tasks, BATCH_SIZE) == tasks / BATCH_SIZE;
    assert TruncDiv(tasks, concurrency) == q;
    if tasks / BATCH_SIZE >= concurrency {
      assert bs == BATCH_SIZE;
      AtLeastQuotient(tasks, BATCH_SIZE, concurrency);
    } else {
      assert TruncDiv(tasks, BATCH_SIZE) < concurrency;
      assert bs == Max(1, q);
      QuotientNonnegative(tasks, concurrency);
      if q == 0 {
        SingletonBatches(tasks);
      } else {
        EnoughBatchesOfQuotient(tasks, concurrency, q);
      }
    }
  }

  /** Batches of size tasks / c leave at least c of them. */
  lemma EnoughBatchesOfQuotient(tasks: nat, c: int, q: int)
    requires c > 0 && q == tasks / c && q >= 1
    ensures NumBatches(tasks, q) >= c
  {
    QuotientTimesDivisor(tasks, c);
    DivLowerBound(tasks, q, c);
    AtLeastQuotient(tasks, q, c);
  }

  lemma QuotientNonnegative(a: nat, b: int)
    requires b > 0
    ensures a / b >= 0
  {
  }

  lemma SingletonBatches(tasks: nat)
    ensures NumBatches(tasks, 1) == tasks
  {
  }

  lemma QuotientTimesDivisor(a: nat, b: int)
    requires b > 0
    ensures (a / b) * b <= a
  {
    assert a == (a / b) * b + a % b;
  }

  /** If tasks / bs >= k then ceil(tasks / bs) >= k. */
  lemma AtLeastQuotient(tasks: nat, bs: int, k: int)
    requires bs >= 1 && tasks / bs >= k
    ensures NumBatches(tasks, bs) >= k
  {
    assert (tasks + bs - 1) / bs >= tasks / bs by {
      DivMonotone(tasks, tasks + bs - 1, bs);
    }
  }

  lemma DivMonotone(a: nat, b: nat, d: int)
    requires a <= b && d >= 1
    ensures a / d <= b / d
  {
    if a / d > b / d {
      assert (b / d + 1) * d <= (a / d) * d by { MulMonotone(b / d + 1, a / d, d); }
      assert false;
    }
  }

  /** q * c <= tasks with q >= 1 gives tasks / q >= c. */
  lemma DivLowerBound(tasks: nat, q: int, c: int)
    requires q >= 1 && c >= 0 && q * c <= tasks
    ensures tasks / q >= c
  {
    if tasks / q < c {
      assert tasks < (tasks / q + 1) * q;
      assert (tasks / q + 1) * q <= c * q by { MulMonotone(tasks / q + 1, c, q); }
      assert false;
    }
  }

  /** The example from the source's rule: 1000 tasks over 10 workers gives batches of 100. */
  lemma BatchSizeExample()
    ensures DeriveBatchSize(1000, 10) == Some(100)
    ensures DeriveBatchSize(1_000_000, 256) == Some(BATCH_SIZE)
    ensures DeriveBatchSize(1_000_000, 1024) == Some(BATCH_SIZE)
    ensures DeriveBatchSize(100, 1000) == Some(1)
  {
  }
}
