/**
 * `Config::read` of the Rust benchmark built on cdrs-tokio, from getopts' matches:
 * help first, then one unsplit address, the workload name, the two numbers, the
 * flag, and the batch size.
 */
module CdrsTokioConfig {
  import opened Wrappers
  import opened Numeric
  import opened Workloads
  import opened Outcomes
  import opened Batching
  import opened ParsedOptions

  datatype Config = Config(
    nodeAddress: string,
    workload: Workload,
    tasks: int,
    concurrency: int,
    batchSize: int,
    noPrepare: bool)

  const DEFAULT_ADDRESS: string := "scylla:9042"
  const DEFAULT_WORKLOAD: string := "inserts"
  const DEFAULT_TASKS: int := 1_000_000
  const DEFAULT_CONCURRENCY: int := 256

  function Read(o: Options): Outcome<Config> {
    if "help" in o.flags then Help
    else
      var address := GetString(o, "address", DEFAULT_ADDRESS);
      var workloadName := GetString(o, "workload", DEFAULT_WORKLOAD);
      match FromName(workloadName)
      case None => Failure(InvalidWorkload(workloadName))
      case Some(workload) =>
        var tasks := GetInt(o, "tasks", DEFAULT_TASKS);
        if tasks.Failure? then Failure(tasks.error)
        else
          var concurrency := GetInt(o, "concurrency", DEFAULT_CONCURRENCY);
          if concurrency.Failure? then Failure(concurrency.error)
          else
            var noPrepare := "no-prepare" in o.flags;
            match DeriveBatchSize(tasks.config, concurrency.config)
            case None => Failure(DivisionByZero)
            case Some(b) => Ok(Config(address, workload, tasks.config, concurrency.config, b, noPrepare))
  }

  /** A help request yields no configuration, whatever else was given. */
  lemma HelpGivesNoConfig(o: Options)
    requires "help" in o.flags
    ensures Read(o) == Help
  {
  }

  /** With no options: address "scylla:9042", Inserts, 1,000,000 tasks, concurrency 256, batch 256. */
  lemma NoOptionsDefaults()
    ensures Read(NoOptions) == Ok(Config("scylla:9042", Inserts, 1_000_000, 256, 256, false))
  {
    assert DeriveBatchSize(1_000_000, 256) == Some(256);
  }

  /**
   * Reading succeeds exactly when there is no help request, the workload name is one
   * of the three, both numbers parse, and the batch-size rule does not divide by zero.
   */
  lemma ReadSucceeds(o: Options)
    ensures Read(o).Ok? <==>
      "help" !in o.flags &&
      FromName(GetString(o, "workload", DEFAULT_WORKLOAD)).Some? &&
      GetInt(o, "tasks", DEFAULT_TASKS).Ok? &&
      GetInt(o, "concurrency", DEFAULT_CONCURRENCY).Ok? &&
      DeriveBatchSize(GetInt(o, "tasks", DEFAULT_TASKS).config,
                      GetInt(o, "concurrency", DEFAULT_CONCURRENCY).config).Some?
  {
  }

  /**
   * What a configuration read successfully holds: the address text exactly as given
   * (no splitting), the named workload, no_prepare iff the flag is present, and the
   * batch size the rule derives.
   */
  lemma ReadFields(o: Options)
    requires Read(o).Ok?
    ensures var c := Read(o).config;
      c.nodeAddress == GetString(o, "address", DEFAULT_ADDRESS) &&
      Name(c.workload) == GetString(o, "workload", DEFAULT_WORKLOAD) &&
      (c.noPrepare <==> "no-prepare" in o.flags) &&
      Some(c.batchSize) == DeriveBatchSize(c.tasks, c.concurrency) &&
      ("tasks" !in o.values ==> c.tasks == DEFAULT_TASKS) &&
      ("concurrency" !in o.values ==> c.concurrency == DEFAULT_CONCURRENCY)
  {
  }

  /** The workload is checked before the numbers: an invalid name is reported first. */
  lemma InvalidWorkloadFirst(o: Options)
    requires "help" !in o.flags
    requires FromName(GetString(o, "workload", DEFAULT_WORKLOAD)).None?
    ensures Read(o) == Failure(InvalidWorkload(GetString(o, "workload", DEFAULT_WORKLOAD)))
  {
  }

  /** With a nonnegative task count and a positive concurrency the batch size lies in [1, 256]. */
  lemma ReadBatchSize(o: Options)
    requires Read(o).Ok? && Read(o).config.tasks >= 0 && Read(o).config.concurrency > 0
    ensures 1 <= Read(o).config.batchSize <= BATCH_SIZE
  {
    BatchSizeBounds(Read(o).config.tasks, Read(o).config.concurrency);
  }
}
