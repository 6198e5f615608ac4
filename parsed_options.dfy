/**
 * The result of a library option lexer (getopts for the Rust benchmarks): a map from
 * long option names to the value given for them, and the set of flags present.
 * Lookups with a default follow getopts' `opt_get_default`: an absent option gives
 * the default, a present one is converted with `FromStr`, which for `i64` is the
 * strict decimal parse.
 */
module ParsedOptions {
  import opened Numeric
  import opened Outcomes

  datatype Options = Options(values: map<string, string>, flags: set<string>)

  const NoOptions: Options := Options(map[], {})

  /** A string option, or its default when absent. */
  function GetString(o: Options, name: string, default: string): (r: string)
    ensures name !in o.values ==> r == default
    ensures name in o.values ==> r == o.values[name]
  {
    if name in o.values then o.values[name] else default
  }

  /** An `i64` option: its default when absent, an error naming the text when it does not parse. */
  function GetInt(o: Options, name: string, default: int): (r: Outcome<int>)
    ensures r != Help
    ensures name !in o.values ==> r == Ok(default)
    ensures name in o.values ==>
      (r.Ok? <==> ParseDecimal(o.values[name], INT64_MIN, INT64_MAX).Some?)
    ensures r.Ok? && name in o.values ==> INT64_MIN <= r.config <= INT64_MAX
    ensures r.Ok? && name in o.values ==> r.config == ParseDecimal(o.values[name], INT64_MIN, INT64_MAX).value
    ensures r.Failure? ==> name in o.values && r.error == InvalidNumber(o.values[name])
  {
    if name !in o.values then Ok(default)
    else
      var text := o.values[name];
      match ParseDecimal(text, INT64_MIN, INT64_MAX)
      case None => Failure(InvalidNumber(text))
      case Some(n) => Ok(n)
  }

  /** An option given on the command line reads back as the number it spells. */
  lemma GetIntRoundTrip(o: Options, name: string, default: int, n: int)
    requires INT64_MIN <= n <= INT64_MAX
    ensures GetInt(o.(values := o.values[name := IntToString(n)]), name, default) == Ok(n)
  {
    ParseDecimalRoundTrip(n, INT64_MIN, INT64_MAX);
  }
}
