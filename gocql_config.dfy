/**
 * `readConfig` of the gocql benchmark. The flag package fills in the values
 * (given, or the declared defaults); the function then maps the workload string,
 * panicking on anything else, and sets the batch size to 256 before conditionally
 * overwriting it with `max(1, tasks / concurency)`. The struct field is spelled
 * `concurency` in this file.
 */
module GocqlConfig {
  import opened Wrappers
  import opened Numeric
  import opened Workloads
  import opened Outcomes
  import opened Batching

  /** The values the flag package leaves in the bound variables after `flag.Parse`. */
  datatype FlagValues = FlagValues(
    address: string,
    workload: string,
    tasks: int,
    concurency: int,
    noPrepare: bool)

  /** The flags' declared defaults. */
  const DefaultFlags: FlagValues := FlagValues("scylla:9042", "mixed", 1_000_000, 256, false)

  datatype Config = Config(
    nodeAddress: string,
    workload: Workload,
    tasks: int,
    concurency: int,
    batchSize: int,
    noPrepare: bool)

  /**
   * `readConfig`: the resulting struct, or the panic. A panic is either the invalid
   * workload (`panic("invalid workload type")`) or the run-time division by zero.
   */
  method ReadConfig(f: FlagValues) returns (r: Outcome<Config>)
    ensures r != Help
    ensures r.Ok? <==> FromName(f.workload).Some? && DeriveBatchSize(f.tasks, f.concurency).Some?
    ensures FromName(f.workload).None? ==> r == Failure(InvalidWorkload(f.workload))
    ensures FromName(f.workload).Some? && DeriveBatchSize(f.tasks, f.concurency).None? ==>
      r == Failure(DivisionByZero)
    ensures r.Ok? ==>
      r.config.nodeAddress == f.address && Name(r.config.workload) == f.workload &&
      r.config.tasks == f.tasks && r.config.concurency == f.concurency &&
      r.config.noPrepare == f.noPrepare &&
      Some(r.config.batchSize) == DeriveBatchSize(f.tasks, f.concurency)
  {
    var config := Config("", Inserts, 0, 0, 0, false);
    config := config.(nodeAddress := f.address, tasks := f.tasks, concurency := f.concurency, noPrepare := f.noPrepare);
    if f.workload == "inserts" {
      config := config.(workload := Inserts);
    } else if f.workload == "selects" {
      config := config.(workload := Selects);
    } else if f.workload == "mixed" {
      config := config.(workload := Mixed);
    } else {
      return Failure(InvalidWorkload(f.workload));
    }
    config := config.(batchSize := 256);
    if TruncDiv(config.tasks, config.batchSize) < config.concurency {
      if config.concurency == 0 {
        return Failure(DivisionByZero);
      }
      config := config.(batchSize := Max(1, TruncDiv(config.tasks, config.concurency)));
    }
    r := Ok(config);
  }

  /** The defaults describe a Mixed run of 1,000,000 tasks at concurrency 256 with batches of 256. */
  lemma DefaultFlagsConfig()
    ensures FromName(DefaultFlags.workload) == Some(Mixed)
    ensures DeriveBatchSize(DefaultFlags.tasks, DefaultFlags.concurency) == Some(256)
  {
  }
}
