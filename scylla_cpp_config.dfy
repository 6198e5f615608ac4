/**
 * The command-line reader of the benchmark written against the Rust-backed
 * scylla-cpp-driver (the configuration the callback engine of the C++ benchmark
 * reads). The same argv index loop as the DataStax C++ variant, but with no help
 * flag, `-d` as the one-slot flag, and `--nodes` split on ',' character by character.
 */
module ScyllaCppConfig {
  import opened Wrappers
  import opened Numeric
  import opened Workloads
  import opened Outcomes
  import opened Batching
  import Text

  datatype Settings = Settings(
    nodeAddresses: seq<string>,
    workload: Workload,
    tasks: int,
    concurrency: int,
    dontPrepare: bool)

  datatype Config = Config(
    nodeAddresses: seq<string>,
    workload: Workload,
    tasks: int,
    concurrency: int,
    batchSize: int,
    dontPrepare: bool)

  const Defaults: Settings := Settings(["127.0.0.1"], Inserts, 1000 * 1000, 1024, false)

  predicate IsDontPrepare(arg: string) { arg == "-d" || arg == "--dont-prepare" }
  predicate IsNodes(arg: string) { arg == "-n" || arg == "--nodes" }
  predicate IsWorkload(arg: string) { arg == "-w" || arg == "--workload" }
  predicate IsTasks(arg: string) { arg == "-t" || arg == "--tasks" }
  predicate IsConcurrency(arg: string) { arg == "-c" || arg == "--concurrency" }

  predicate TakesValue(arg: string) {
    IsNodes(arg) || IsWorkload(arg) || IsTasks(arg) || IsConcurrency(arg)
  }

  /**
   * The `--nodes` value split on ',': a vector holding one empty string, then a new
   * empty string for every ',' and every other character appended to the last one.
   */
  method SplitNodes(value: string) returns (addresses: seq<string>)
    ensures addresses == Text.Split(value, ',')
    ensures |addresses| == Text.Count(value, ',') + 1
    ensures Text.Join(addresses, ',') == value
  {
    addresses := [""];
    var i := 0;
    while i < |value|
      invariant 0 <= i <= |value|
      invariant addresses == Text.Split(value[..i], ',')
    {
      assert value[..i + 1][..i] == value[..i];
      if value[i] == ',' {
        addresses := addresses + [""];
      } else {
        addresses := addresses[..|addresses| - 1] + [addresses[|addresses| - 1] + [value[i]]];
      }
      i := i + 1;
    }
    assert value[..i] == value;
    Text.JoinSplit(value, ',');
  }

  function ParseFrom(argv: seq<string>, a: nat, s: Settings): Outcome<Settings>
    decreases |argv| - a
  {
    if a >= |argv| then Ok(s)
    else
      var arg := argv[a];
      if IsDontPrepare(arg) then ParseFrom(argv, a + 1, s.(dontPrepare := true))
      else if a + 1 >= |argv| then Failure(NoValue(arg))
      else
        var v := argv[a + 1];
        if IsNodes(arg) then ParseFrom(argv, a + 2, s.(nodeAddresses := Text.Split(v, ',')))
        else if IsWorkload(arg) then
          match FromName(v)
          case None => Failure(InvalidWorkload(v))
          case Some(w) => ParseFrom(argv, a + 2, s.(workload := w))
        else if IsTasks(arg) then ParseFrom(argv, a + 2, s.(tasks := StrToLL(v)))
        else if IsConcurrency(arg) then ParseFrom(argv, a + 2, s.(concurrency := StrToLL(v)))
        else Failure(UnknownArgument(arg))
  }

  function ParseSettings(argv: seq<string>): Outcome<Settings> {
    ParseFrom(argv, 1, Defaults)
  }

  function Parse(argv: seq<string>): Outcome<Config> {
    match ParseSettings(argv)
    case Help => Help
    case Failure(e) => Failure(e)
    case Ok(s) =>
      match DeriveBatchSize(s.tasks, s.concurrency)
      case None => Failure(DivisionByZero)
      case Some(b) => Ok(Config(s.nodeAddresses, s.workload, s.tasks, s.concurrency, b, s.dontPrepare))
  }

  /** `Config(argc, argv)`: the argument loop, then batch-size derivation. */
  method ReadConfig(argv: seq<string>) returns (r: Outcome<Config>)
    ensures r == Parse(argv)
    ensures r != Help
  {
    var nodeAddresses, workload, tasks, concurrency, dontPrepare := ["127.0.0.1"], Inserts, 1000 * 1000, 1024, false;
    var a := 1;
    NeverHelp(argv, 1, Defaults);
    while a < |argv|
      invariant a >= 1
      invariant ParseFrom(argv, a, Settings(nodeAddresses, workload, tasks, concurrency, dontPrepare))
             == ParseSettings(argv)
      invariant ParseSettings(argv) != Help
      decreases |argv| - a
    {
      var arg := argv[a];
      if IsDontPrepare(arg) {
        dontPrepare := true;
        a := a + 1;
        continue;
      }
      if a + 1 >= |argv| {
        return Failure(NoValue(arg));
      }
      if IsNodes(arg) {
        nodeAddresses := SplitNodes(argv[a + 1]);
        a := a + 2;
        continue;
      }
      if IsWorkload(arg) {
        var v := argv[a + 1];
        if v == "inserts" {
          workload := Inserts;
        } else if v == "selects" {
          workload := Selects;
        } else if v == "mixed" {
          workload := Mixed;
        } else {
          return Failure(InvalidWorkload(v));
        }
        a := a + 2;
        continue;
      }
      if IsTasks(arg) {
        tasks := StrToLL(argv[a + 1]);
        a := a + 2;
        continue;
      }
      if IsConcurrency(arg) {
        concurrency := StrToLL(argv[a + 1]);
        a := a + 2;
        continue;
      }
      return Failure(UnknownArgument(arg));
    }
    var batchSize := BATCH_SIZE;
    if TruncDiv(tasks, batchSize) < concurrency {
      if concurrency == 0 {
        return Failure(DivisionByZero);
      }
      batchSize := Max(1, TruncDiv(tasks, concurrency));
    }
    r := Ok(Config(nodeAddresses, workload, tasks, concurrency, batchSize, dontPrepare));
  }

  /** There is no help flag: no argument vector ends in Help. */
  lemma {:induction false} NeverHelp(argv: seq<string>, a: nat, s: Settings)
    ensures ParseFrom(argv, a, s) != Help
    decreases |argv| - a
  {
    if a < |argv| {
      var arg := argv[a];
      if IsDontPrepare(arg) {
        NeverHelp(argv, a + 1, s.(dontPrepare := true));
      } else if a + 1 < |argv| {
        var v := argv[a + 1];
        if IsNodes(arg) {
          NeverHelp(argv, a + 2, s.(nodeAddresses := Text.Split(v, ',')));
        } else if IsWorkload(arg) && FromName(v).Some? {
          NeverHelp(argv, a + 2, s.(workload := FromName(v).value));
        } else if IsTasks(arg) {
          NeverHelp(argv, a + 2, s.(tasks := StrToLL(v)));
        } else if IsConcurrency(arg) {
          NeverHelp(argv, a + 2, s.(concurrency := StrToLL(v)));
        }
      }
    }
  }

  /** With no arguments: one node 127.0.0.1, Inserts, 1,000,000 tasks, concurrency 1024, batch size 256. */
  lemma NoArguments(prog: string)
    ensures Parse([prog]) == Ok(Config(["127.0.0.1"], Inserts, 1_000_000, 1024, 256, false))
  {
    assert DeriveBatchSize(1_000_000, 1024) == Some(256);
  }

  lemma {:induction false} PrefixComposes(pre: seq<string>, rest: seq<string>, a: nat, s: Settings)
    requires a <= |pre| && ParseFrom(pre, a, s).Ok?
    ensures ParseFrom(pre + rest, a, s) == ParseFrom(pre + rest, |pre|, ParseFrom(pre, a, s).config)
    decreases |pre| - a
  {
    if a < |pre| {
      var all := pre + rest;
      assert all[a] == pre[a];
      var arg := pre[a];
      if IsDontPrepare(arg) {
        PrefixComposes(pre, rest, a + 1, s.(dontPrepare := true));
      } else {
        assert all[a + 1] == pre[a + 1];
        var v := pre[a + 1];
        if IsNodes(arg) {
          PrefixComposes(pre, rest, a + 2, s.(nodeAddresses := Text.Split(v, ',')));
        } else if IsWorkload(arg) {
          PrefixComposes(pre, rest, a + 2, s.(workload := FromName(v).value));
        } else if IsTasks(arg) {
          PrefixComposes(pre, rest, a + 2, s.(tasks := StrToLL(v)));
        } else {
          PrefixComposes(pre, rest, a + 2, s.(concurrency := StrToLL(v)));
        }
      }
    }
  }

  /**
   * Every successful parse consumed the fields in order. The same statement as for the
   * cpp parser, proved again because this parser is a different one (it adds `--nodes`).
   */
  lemma AfterPrefix(pre: seq<string>, rest: seq<string>)
    requires |pre| >= 1 && ParseSettings(pre).Ok?
    ensures ParseSettings(pre + rest) == ParseFrom(pre + rest, |pre|, ParseSettings(pre).config)
  {
    PrefixComposes(pre, rest, 1, Defaults);
  }

  /**
   * A trailing `--nodes v` replaces the node list by the segments of v: one more than
   * the number of commas, empty ones kept, joining back to v.
   */
  lemma NodesOption(pre: seq<string>, flag: string, v: string)
    requires |pre| >= 1 && ParseSettings(pre).Ok? && IsNodes(flag)
    ensures ParseSettings(pre + [flag, v]) == Ok(ParseSettings(pre).config.(nodeAddresses := Text.Split(v, ',')))
    ensures |Text.Split(v, ',')| == Text.Count(v, ',') + 1
    ensures Text.Join(Text.Split(v, ','), ',') == v
  {
    AfterPrefix(pre, [flag, v]);
    Text.JoinSplit(v, ',');
  }

  /** "a," keeps its empty trailing segment. */
  lemma TrailingEmptySegmentKept()
    ensures Text.Split("a,", ',') == ["a", ""]
  {
    assert "a,"[..1] == "a";
    Text.SplitSegment("a", ',');
  }

  /** A value-taking flag in last position is an error naming that flag. */
  lemma MissingValue(pre: seq<string>, flag: string)
    requires |pre| >= 1 && ParseSettings(pre).Ok? && !IsDontPrepare(flag)
    ensures Parse(pre + [flag]) == Failure(NoValue(flag))
  {
    AfterPrefix(pre, [flag]);
  }

  /** An unknown flag with a value after it, `-h` included, is an error naming the flag. */
  lemma UnknownFlag(pre: seq<string>, flag: string, v: string, rest: seq<string>)
    requires |pre| >= 1 && ParseSettings(pre).Ok?
    requires !IsDontPrepare(flag) && !TakesValue(flag)
    ensures Parse(pre + [flag, v] + rest) == Failure(UnknownArgument(flag))
  {
    AfterPrefix(pre, [flag, v] + rest);
    assert pre + [flag, v] + rest == pre + ([flag, v] + rest);
  }

  /**
   * A workload value other than the three names is an error naming the value; stated
   * for this parser as it is for the cpp one, whose proof does not carry over.
   */
  lemma InvalidWorkloadName(pre: seq<string>, flag: string, v: string, rest: seq<string>)
    requires |pre| >= 1 && ParseSettings(pre).Ok? && IsWorkload(flag)
    requires v != "inserts" && v != "selects" && v != "mixed"
    ensures Parse(pre + [flag, v] + rest) == Failure(InvalidWorkload(v))
  {
    AfterPrefix(pre, [flag, v] + rest);
    assert pre + [flag, v] + rest == pre + ([flag, v] + rest);
  }

  /** `-d` consumes one slot: the argument after it is read as a flag. */
  lemma DontPrepareOneSlot(pre: seq<string>, flag: string, rest: seq<string>)
    requires |pre| >= 1 && ParseSettings(pre).Ok? && IsDontPrepare(flag)
    ensures ParseSettings(pre + [flag] + rest)
         == ParseFrom(pre + [flag] + rest, |pre| + 1, ParseSettings(pre).config.(dontPrepare := true))
  {
    AfterPrefix(pre, [flag] + rest);
    assert pre + [flag] + rest == pre + ([flag] + rest);
  }
}
