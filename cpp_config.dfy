/**
 * The command-line reader of the benchmark written against the DataStax C++ driver:
 * an index loop over argv in which `-n` consumes one slot and every value-taking
 * flag two, `-h` ends the program cleanly, a value-taking flag in last position or
 * an unknown flag is an error, and the batch size is derived once the loop is done.
 */
module CppConfig {
  import opened Wrappers
  import opened Numeric
  import opened Workloads
  import opened Outcomes
  import opened Batching

  /** The fields the argument loop assigns. */
  datatype Settings = Settings(
    nodeAddress: string,
    workload: Workload,
    tasks: int,
    concurrency: int,
    noPrepare: bool)

  datatype Config = Config(
    nodeAddress: string,
    workload: Workload,
    tasks: int,
    concurrency: int,
    batchSize: int,
    noPrepare: bool)

  const Defaults: Settings := Settings("scylla", Mixed, 1000 * 1000, 256, false)

  predicate IsHelp(arg: string) { arg == "-h" || arg == "--help" }
  predicate IsNoPrepare(arg: string) { arg == "-n" || arg == "--no-prepare" }
  predicate IsAddress(arg: string) { arg == "-a" || arg == "--address" }
  predicate IsWorkload(arg: string) { arg == "-w" || arg == "--workload" }
  predicate IsTasks(arg: string) { arg == "-t" || arg == "--tasks" }
  predicate IsConcurrency(arg: string) { arg == "-c" || arg == "--concurrency" }

  /** A flag that needs a value after it. */
  predicate TakesValue(arg: string) {
    IsAddress(arg) || IsWorkload(arg) || IsTasks(arg) || IsConcurrency(arg)
  }

  /** The loop from index `a` on, with `s` the fields assigned so far. */
  function ParseFrom(argv: seq<string>, a: nat, s: Settings): Outcome<Settings>
    decreases |argv| - a
  {
    if a >= |argv| then Ok(s)
    else
      var arg := argv[a];
      if IsHelp(arg) then Help
      else if IsNoPrepare(arg) then ParseFrom(argv, a + 1, s.(noPrepare := true))
      else if a + 1 >= |argv| then Failure(NoValue(arg))
      else
        var v := argv[a + 1];
        if IsAddress(arg) then ParseFrom(argv, a + 2, s.(nodeAddress := v))
        else if IsWorkload(arg) then
          match FromName(v)
          case None => Failure(InvalidWorkload(v))
          case Some(w) => ParseFrom(argv, a + 2, s.(workload := w))
        else if IsTasks(arg) then ParseFrom(argv, a + 2, s.(tasks := StrToLL(v)))
        else if IsConcurrency(arg) then ParseFrom(argv, a + 2, s.(concurrency := StrToLL(v)))
        else Failure(UnknownArgument(arg))
  }

  /** The fields after the whole loop; argv[0] is the program name. */
  function ParseSettings(argv: seq<string>): Outcome<Settings> {
    ParseFrom(argv, 1, Defaults)
  }

  /** The configuration the constructor builds, or why it exits instead. */
  function Parse(argv: seq<string>): Outcome<Config> {
    match ParseSettings(argv)
    case Help => Help
    case Failure(e) => Failure(e)
    case Ok(s) =>
      match DeriveBatchSize(s.tasks, s.concurrency)
      case None => Failure(DivisionByZero)
      case Some(b) => Ok(Config(s.nodeAddress, s.workload, s.tasks, s.concurrency, b, s.noPrepare))
  }

  /** `Config(argc, argv)`: the argument loop, then batch-size derivation. */
  method ReadConfig(argv: seq<string>) returns (r: Outcome<Config>)
    ensures r == Parse(argv)
  {
    var nodeAddress, workload, tasks, concurrency, noPrepare := "scylla", Mixed, 1000 * 1000, 256, false;
    var a := 1;
    while a < |argv|
      invariant a >= 1
      invariant ParseFrom(argv, a, Settings(nodeAddress, workload, tasks, concurrency, noPrepare))
             == ParseSettings(argv)
      decreases |argv| - a
    {
      var arg := argv[a];
      if IsHelp(arg) {
        return Help;
      }
      if IsNoPrepare(arg) {
        noPrepare := true;
        a := a + 1;
        continue;
      }
      if a + 1 >= |argv| {
        return Failure(NoValue(arg));
      }
      if IsAddress(arg) {
        nodeAddress := argv[a + 1];
        a := a + 2;
        continue;
      }
      if IsWorkload(arg) {
        var v := argv[a + 1];
        if v == "inserts" {
          workload := Inserts;
        } else if v == "selects" {
          workload := Selects;
        } else if v == "mixed" {
          workload := Mixed;
        } else {
          return Failure(InvalidWorkload(v));
        }
        a := a + 2;
        continue;
      }
      if IsTasks(arg) {
        tasks := StrToLL(argv[a + 1]);
        a := a + 2;
        continue;
      }
      if IsConcurrency(arg) {
        concurrency := StrToLL(argv[a + 1]);
        a := a + 2;
        continue;
      }
      return Failure(UnknownArgument(arg));
    }
    var batchSize := BATCH_SIZE;
    if TruncDiv(tasks, batchSize) < concurrency {
      if concurrency == 0 {
        return Failure(DivisionByZero);
      }
      batchSize := Max(1, TruncDiv(tasks, concurrency));
    }
    r := Ok(Config(nodeAddress, workload, tasks, concurrency, batchSize, noPrepare));
  }

  /** With no arguments every field has its default and the batch size is 256. */
  lemma NoArguments(prog: string)
    ensures Parse([prog]) == Ok(Config("scylla", Mixed, 1_000_000, 256, 256, false))
  {
    assert DeriveBatchSize(1_000_000, 256) == Some(256);
  }

  /**
   * A prefix that parses completely leaves the loop exactly at its end, so the rest
   * of the vector is parsed from there with the fields the prefix assigned.
   */
  lemma {:induction false} PrefixComposes(pre: seq<string>, rest: seq<string>, a: nat, s: Settings)
    requires a <= |pre| && ParseFrom(pre, a, s).Ok?
    ensures ParseFrom(pre + rest, a, s) == ParseFrom(pre + rest, |pre|, ParseFrom(pre, a, s).config)
    decreases |pre| - a
  {
    if a < |pre| {
      var all := pre + rest;
      assert all[a] == pre[a];
      var arg := pre[a];
      if IsNoPrepare(arg) {
        PrefixComposes(pre, rest, a + 1, s.(noPrepare := true));
      } else {
        assert all[a + 1] == pre[a + 1];
        var v := pre[a + 1];
        if IsAddress(arg) {
          PrefixComposes(pre, rest, a + 2, s.(nodeAddress := v));
        } else if IsWorkload(arg) {
          PrefixComposes(pre, rest, a + 2, s.(workload := FromName(v).value));
        } else if IsTasks(arg) {
          PrefixComposes(pre, rest, a + 2, s.(tasks := StrToLL(v)));
        } else {
          PrefixComposes(pre, rest, a + 2, s.(concurrency := StrToLL(v)));
        }
      }
    }
  }

  /** Every successful parse consumed the fields in order; the helper for the lemmas below. */
  lemma AfterPrefix(pre: seq<string>, rest: seq<string>)
    requires |pre| >= 1 && ParseSettings(pre).Ok?
    ensures ParseSettings(pre + rest) == ParseFrom(pre + rest, |pre|, ParseSettings(pre).config)
  {
    PrefixComposes(pre, rest, 1, Defaults);
  }

  /** `-h` in flag position ends parsing cleanly, whatever follows it. */
  lemma HelpStopsParsing(pre: seq<string>, h: string, rest: seq<string>)
    requires |pre| >= 1 && ParseSettings(pre).Ok? && IsHelp(h)
    ensures ParseSettings(pre + [h] + rest) == Help
    ensures Parse(pre + [h] + rest) == Help
  {
    AfterPrefix(pre, [h] + rest);
    assert pre + [h] + rest == pre + ([h] + rest);
  }

  /** A value-taking flag in last position is an error naming that flag. */
  lemma MissingValue(pre: seq<string>, flag: string)
    requires |pre| >= 1 && ParseSettings(pre).Ok? && TakesValue(flag)
    ensures Parse(pre + [flag]) == Failure(NoValue(flag))
  {
    AfterPrefix(pre, [flag]);
  }

  /**
   * An unknown flag is an error naming it; but in last position the missing-value
   * check comes first, so it is reported as a flag without a value.
   */
  lemma UnknownFlag(pre: seq<string>, flag: string, v: string, rest: seq<string>)
    requires |pre| >= 1 && ParseSettings(pre).Ok?
    requires !IsHelp(flag) && !IsNoPrepare(flag) && !TakesValue(flag)
    ensures Parse(pre + [flag, v] + rest) == Failure(UnknownArgument(flag))
    ensures Parse(pre + [flag]) == Failure(NoValue(flag))
  {
    AfterPrefix(pre, [flag, v] + rest);
    assert pre + [flag, v] + rest == pre + ([flag, v] + rest);
    AfterPrefix(pre, [flag]);
  }

  /** A workload value other than the three names is an error naming the value. */
  lemma InvalidWorkloadName(pre: seq<string>, flag: string, v: string, rest: seq<string>)
    requires |pre| >= 1 && ParseSettings(pre).Ok? && IsWorkload(flag)
    requires v != "inserts" && v != "selects" && v != "mixed"
    ensures Parse(pre + [flag, v] + rest) == Failure(InvalidWorkload(v))
  {
    AfterPrefix(pre, [flag, v] + rest);
    assert pre + [flag, v] + rest == pre + ([flag, v] + rest);
  }

  /**
   * A trailing option overwrites whatever an earlier occurrence set (last wins),
   * and leaves every other field as the prefix set it.
   */
  lemma TrailingOptionWins(pre: seq<string>, flag: string, v: string)
    requires |pre| >= 1 && ParseSettings(pre).Ok?
    requires TakesValue(flag) && (IsWorkload(flag) ==> FromName(v).Some?)
    ensures ParseSettings(pre + [flag, v]).Ok?
    ensures var s := ParseSettings(pre).config; var t := ParseSettings(pre + [flag, v]).config;
      t == (if IsAddress(flag) then s.(nodeAddress := v)
            else if IsWorkload(flag) then s.(workload := FromName(v).value)
            else if IsTasks(flag) then s.(tasks := StrToLL(v))
            else s.(concurrency := StrToLL(v)))
  {
    AfterPrefix(pre, [flag, v]);
  }

  /** `-n` in any position after a complete prefix sets no_prepare and nothing else. */
  lemma NoPrepareFlag(pre: seq<string>, flag: string)
    requires |pre| >= 1 && ParseSettings(pre).Ok? && IsNoPrepare(flag)
    ensures ParseSettings(pre + [flag]) == Ok(ParseSettings(pre).config.(noPrepare := true))
  {
    AfterPrefix(pre, [flag]);
  }

  /** Of two occurrences of `-t`, the second decides the task count. */
  lemma RepeatedTasks(prog: string, x: string, y: string)
    ensures ParseSettings([prog, "-t", x, "-t", y]) == Ok(Defaults.(tasks := StrToLL(y)))
  {
    var pre := [prog, "-t", x];
    assert ParseFrom(pre, 3, Defaults.(tasks := StrToLL(x))).Ok?;
    assert ParseSettings(pre) == Ok(Defaults.(tasks := StrToLL(x)));
    TrailingOptionWins(pre, "-t", y);
    assert pre + ["-t", y] == [prog, "-t", x, "-t", y];
  }

  /** A parsed configuration with a sensible task count and concurrency has a batch size in [1, 256]. */
  lemma ConfigBatchSize(argv: seq<string>)
    requires Parse(argv).Ok?
    requires Parse(argv).config.tasks >= 0 && Parse(argv).config.concurrency > 0
    ensures 1 <= Parse(argv).config.batchSize <= BATCH_SIZE
  {
    var c := Parse(argv).config;
    BatchSizeBounds(c.tasks, c.concurrency);
  }
}
