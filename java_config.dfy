/**
 * `Config(String[] args)` of the asynchronous Java 3.x benchmark. The constructor
 * assigns the defaults, then, inside a try block, overwrites each field whose option
 * commons-cli reports as present. A ParseException from the option lexer is caught:
 * help is printed and every field keeps its default, because the lexer throws before
 * any field is assigned. `Workload.valueOf` and `Integer.parseInt` throw exceptions
 * that are not caught and escape the constructor. There is no batch-size field.
 */
module JavaConfig {
  import opened Wrappers
  import opened Numeric
  import opened Workloads
  import opened Outcomes
  import opened ParsedOptions
  import Text

  /** What commons-cli's `parse` produced: an exception, or the options it recognised. */
  datatype CommandLine = ParseFailed | Parsed(options: Options)

  datatype Settings = Settings(
    nodeAddresses: seq<string>,
    workload: Workload,
    tasks: int,
    concurrency: int,
    dontPrepare: bool)

  const Defaults: Settings := Settings(["127.0.0.1"], Inserts, 1000 * 1000, 1024, false)

  /** `Integer.parseInt`: the strict decimal parse within the 32-bit range. */
  function ParseInt(text: string): Option<int> {
    ParseDecimal(text, INT32_MIN, INT32_MAX)
  }

  /**
   * The fields the constructor leaves, or the exception that escapes it. The options
   * are examined in the order dont-prepare, nodes, workload, tasks, concurrency.
   */
  function Load(cl: CommandLine): Outcome<Settings> {
    match cl
    case ParseFailed => Ok(Defaults)
    case Parsed(o) =>
      var dontPrepare := "dont-prepare" in o.flags || Defaults.dontPrepare;
      var nodes := if "nodes" in o.values then Text.JavaSplit(o.values["nodes"], ',') else Defaults.nodeAddresses;
      if "workload" in o.values && FromConstantName(o.values["workload"]).None? then
        Failure(InvalidWorkload(o.values["workload"]))
      else
        var workload := if "workload" in o.values then FromConstantName(o.values["workload"]).value else Defaults.workload;
        if "tasks" in o.values && ParseInt(o.values["tasks"]).None? then
          Failure(InvalidNumber(o.values["tasks"]))
        else
          var tasks := if "tasks" in o.values then ParseInt(o.values["tasks"]).value else Defaults.tasks;
          if "concurrency" in o.values && ParseInt(o.values["concurrency"]).None? then
            Failure(InvalidNumber(o.values["concurrency"]))
          else
            var concurrency := if "concurrency" in o.values then ParseInt(o.values["concurrency"]).value else Defaults.concurrency;
            Ok(Settings(nodes, workload, tasks, concurrency, dontPrepare))
  }

  class Config {
    var nodeAddresses: seq<string>
    var workload: Workload
    var tasks: int
    var concurrency: int
    var dontPrepare: bool

    function Current(): Settings
      reads this
    {
      Settings(nodeAddresses, workload, tasks, concurrency, dontPrepare)
    }

    /** The defaults assigned before the options are examined. */
    constructor ()
      ensures Current() == Defaults
    {
      nodeAddresses := ["127.0.0.1"];
      workload := Inserts;
      tasks := 1000 * 1000;
      concurrency := 1024;
      dontPrepare := false;
    }

    /**
     * The try block. On success the fields are exactly what Load describes; otherwise
     * the escaping exception is returned (the object then never reaches its caller).
     */
    method ApplyCommandLine(cl: CommandLine) returns (thrown: Option<ConfigError>)
      requires Current() == Defaults
      modifies this
      ensures thrown.None? <==> Load(cl).Ok?
      ensures thrown.Some? ==> Load(cl) == Failure(thrown.value)
      ensures thrown.None? ==> Current() == Load(cl).config
    {
      if cl.ParseFailed? {
        return None;
      }
      var o := cl.options;
      if "dont-prepare" in o.flags {
        dontPrepare := true;
      }
      if "nodes" in o.values {
        nodeAddresses := Text.JavaSplit(o.values["nodes"], ',');
      }
      if "workload" in o.values {
        var w := FromConstantName(o.values["workload"]);
        if w.None? {
          return Some(InvalidWorkload(o.values["workload"]));
        }
        workload := w.value;
      }
      if "tasks" in o.values {
        var n := ParseInt(o.values["tasks"]);
        if n.None? {
          return Some(InvalidNumber(o.values["tasks"]));
        }
        tasks := n.value;
      }
      if "concurrency" in o.values {
        var n := ParseInt(o.values["concurrency"]);
        if n.None? {
          return Some(InvalidNumber(o.values["concurrency"]));
        }
        concurrency := n.value;
      }
      thrown := None;
    }
  }

  /** A lexer failure keeps every default. */
  lemma ParseFailureKeepsDefaults()
    ensures Load(ParseFailed) == Ok(Settings(["127.0.0.1"], Inserts, 1_000_000, 1024, false))
  {
  }

  /** With no options given, the defaults stand. */
  lemma NoOptionsDefaults()
    ensures Load(Parsed(NoOptions)) == Ok(Defaults)
  {
  }

  /** dont_prepare is set exactly when the flag is present. */
  lemma DontPrepareIffPresent(o: Options)
    requires Load(Parsed(o)).Ok?
    ensures Load(Parsed(o)).config.dontPrepare <==> "dont-prepare" in o.flags
  {
  }

  /**
   * The node list is Java's split of the option: the full ','-split with trailing empty
   * segments dropped, or the text itself when it has no ','.
   */
  lemma NodesAreJavaSplit(o: Options)
    requires Load(Parsed(o)).Ok? && "nodes" in o.values
    ensures var v := o.values["nodes"]; var nodes := Load(Parsed(o)).config.nodeAddresses;
      (',' !in v ==> nodes == [v]) &&
      (',' in v ==> nodes == Text.Split(v, ',')[..|nodes|] &&
                    (forall i :: |nodes| <= i < |Text.Split(v, ',')| ==> Text.Split(v, ',')[i] == ""))
  {
    var v := o.values["nodes"];
    if ',' in v {
      Text.JavaSplitIsTrimmedSplit(v, ',');
    }
  }

  /** "a,b,," gives ["a", "b"] and "," gives no node at all. */
  lemma JavaSplitExamples()
    ensures Text.JavaSplit("a,b,,", ',') == ["a", "b"]
    ensures Text.JavaSplit(",", ',') == []
  {
    SplitWithTrailing();
    assert Text.DropTrailingEmpty(["a", "b", "", ""]) == ["a", "b"] by {
      assert ["a", "b", "", ""][..3] == ["a", "b", ""];
      assert ["a", "b", ""][..2] == ["a", "b"];
    }
    SplitSeparatorOnly();
    assert Text.DropTrailingEmpty(["", ""]) == [] by {
      assert ["", ""][..1] == [""];
      assert [""][..0] == [];
    }
  }

  lemma SplitWithTrailing()
    ensures Text.Split("a,b,,", ',') == ["a", "b", "", ""]
  {
    SplitPair();
    Text.SplitAppendSegment("a,b", "", ',');
    assert "a,b" + [','] + "" == "a,b,";
    Text.SplitAppendSegment("a,b,", "", ',');
    assert "a,b," + [','] + "" == "a,b,,";
  }

  lemma SplitPair()
    ensures Text.Split("a,b", ',') == ["a", "b"]
  {
    Text.SplitSegment("a", ',');
    Text.SplitAppendSegment("a", "b", ',');
    assert "a" + [','] + "b" == "a,b";
  }

  lemma SplitSeparatorOnly()
    ensures Text.Split(",", ',') == ["", ""]
  {
    Text.SplitSegment("", ',');
    Text.SplitAppendSegment("", "", ',');
    assert "" + [','] + "" == ",";
  }

  /** The workload must be an exact constant name: the lower-case spelling throws. */
  lemma WorkloadIsCaseSensitive(o: Options, w: Workload)
    requires "workload" in o.values
    ensures o.values["workload"] == Name(w) ==> Load(Parsed(o)) == Failure(InvalidWorkload(Name(w)))
    ensures o.values["workload"] == ConstantName(w) && Load(Parsed(o)).Ok? ==> Load(Parsed(o)).config.workload == w
  {
    ConstantNamesAreCaseSensitive(w);
  }

  /** A task count beyond the 32-bit range throws NumberFormatException, e.g. 3000000000. */
  lemma TasksBeyondInt32(o: Options, n: int)
    requires n > INT32_MAX
    requires "workload" !in o.values && "tasks" in o.values && o.values["tasks"] == IntToString(n)
    ensures Load(Parsed(o)) == Failure(InvalidNumber(IntToString(n)))
  {
    ParseDecimalOutOfRange(n, INT32_MIN, INT32_MAX);
  }
}
