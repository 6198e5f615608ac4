/**
 * `read_config` of the basic scylla-rust-driver benchmark, from getopts' matches:
 * help first, then the address, the workload name, the two numbers and the flag.
 * No batch size is derived here: the benchmark uses a fixed stride of 256.
 */
module RustBasicConfig {
  import opened Wrappers
  import opened Numeric
  import opened Workloads
  import opened Outcomes
  import opened ParsedOptions

  datatype Config = Config(
    nodeAddress: string,
    workload: Workload,
    tasks: int,
    concurrency: int,
    noPrepare: bool)

  const DEFAULT_ADDRESS: string := "scylla:9042"
  const DEFAULT_WORKLOAD: string := "mixed"
  const DEFAULT_TASKS: int := 1_000_000
  const DEFAULT_CONCURRENCY: int := 256

  function ReadConfig(o: Options): Outcome<Config> {
    if "help" in o.flags then Help
    else
      var address := GetString(o, "address", DEFAULT_ADDRESS);
      var workloadName := GetString(o, "workload", DEFAULT_WORKLOAD);
      match FromName(workloadName)
      case None => Failure(InvalidWorkload(workloadName))
      case Some(workload) =>
        var tasks := GetInt(o, "tasks", DEFAULT_TASKS);
        if tasks.Failure? then Failure(tasks.error)
        else
          var concurrency := GetInt(o, "concurrency", DEFAULT_CONCURRENCY);
          if concurrency.Failure? then Failure(concurrency.error)
          else Ok(Config(address, workload, tasks.config, concurrency.config, "no-prepare" in o.flags))
  }

  /** A help request yields no configuration, whatever else was given. */
  lemma HelpGivesNoConfig(o: Options)
    requires "help" in o.flags
    ensures ReadConfig(o) == Help
  {
  }

  /** With no options: address "scylla:9042", Mixed, 1,000,000 tasks, concurrency 256. */
  lemma NoOptionsDefaults()
    ensures ReadConfig(NoOptions) == Ok(Config("scylla:9042", Mixed, 1_000_000, 256, false))
  {
  }

  /**
   * Reading succeeds exactly when there is no help request, the workload name is one
   * of the three and both numbers parse; then every field is the option's value or
   * its default.
   */
  lemma ReadConfigSucceeds(o: Options)
    ensures ReadConfig(o).Ok? <==>
      "help" !in o.flags &&
      FromName(GetString(o, "workload", DEFAULT_WORKLOAD)).Some? &&
      GetInt(o, "tasks", DEFAULT_TASKS).Ok? &&
      GetInt(o, "concurrency", DEFAULT_CONCURRENCY).Ok?
    ensures ReadConfig(o).Ok? ==>
      var c := ReadConfig(o).config;
      c.nodeAddress == GetString(o, "address", DEFAULT_ADDRESS) &&
      Name(c.workload) == GetString(o, "workload", DEFAULT_WORKLOAD) &&
      c.tasks == GetInt(o, "tasks", DEFAULT_TASKS).config &&
      c.concurrency == GetInt(o, "concurrency", DEFAULT_CONCURRENCY).config &&
      (c.noPrepare <==> "no-prepare" in o.flags)
  {
  }

  /** An invalid workload name is an error naming it. */
  lemma InvalidWorkloadName(o: Options)
    requires "help" !in o.flags
    requires FromName(GetString(o, "workload", DEFAULT_WORKLOAD)).None?
    ensures ReadConfig(o) == Failure(InvalidWorkload(GetString(o, "workload", DEFAULT_WORKLOAD)))
  {
  }
}
