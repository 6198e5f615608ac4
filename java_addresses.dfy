/**
 * `parseAddresses` of the java-driver-4.x benchmark: each node address becomes a socket
 * address, in order. An address containing ':' is split on ':' (Java semantics) and
 * parts 0 and 1 are the host and the `Integer.parseInt` of the port; an address without
 * one gets port 9042. The first address that throws ends the whole conversion.
 */
module JavaAddresses {
  import opened Numeric
  import Text

  const DEFAULT_PORT: int := 9042
  /** `InetSocketAddress` accepts ports 0 to 65535. */
  const MAX_PORT: int := 65535

  datatype SocketAddress = SocketAddress(host: string, port: int)

  /** What the conversion of one address throws. */
  datatype AddressError =
    | IndexOutOfBounds(address: string)  // fewer than two parts after the split
    | NumberFormat(text: string)         // the port is not an `int`
    | PortOutOfRange(port: int)          // `InetSocketAddress` rejects the port

  datatype AddressResult = Address(value: SocketAddress) | Invalid(error: AddressError)

  datatype Addresses = Parsed(addresses: seq<SocketAddress>) | Thrown(error: AddressError)

  /** One address, as the loop body converts it. */
  function ParseAddress(s: string): AddressResult {
    if ':' !in s then Address(SocketAddress(s, DEFAULT_PORT))
    else
      var parts := Text.JavaSplit(s, ':');
      if |parts| < 2 then Invalid(IndexOutOfBounds(s))
      else
        match ParseDecimal(parts[1], INT32_MIN, INT32_MAX)
        case None => Invalid(NumberFormat(parts[1]))
        case Some(port) =>
          if 0 <= port <= MAX_PORT then Address(SocketAddress(parts[0], port)) else Invalid(PortOutOfRange(port))
  }

  /** The conversion of a whole list: the addresses in order, or the first exception. */
  function ParseAll(arr: seq<string>): Addresses {
    if |arr| == 0 then Parsed([])
    else
      match ParseAll(arr[..|arr| - 1])
      case Thrown(e) => Thrown(e)
      case Parsed(prefix) =>
        match ParseAddress(arr[|arr| - 1])
        case Invalid(e) => Thrown(e)
        case Address(a) => Parsed(prefix + [a])
  }

  /** The `for (String s : arr)` loop appending to `result`. */
  method ParseAddresses(arr: seq<string>) returns (r: Addresses)
    ensures r == ParseAll(arr)
  {
    var result: seq<SocketAddress> := [];
    var i := 0;
    while i < |arr|
      invariant 0 <= i <= |arr|
      invariant ParseAll(arr[..i]) == Parsed(result)
    {
      assert arr[..i + 1][..i] == arr[..i];
      var addr := ParseAddress(arr[i]);
      if addr.Invalid? {
        ParseAllThrowsOnward(arr, i + 1);
        return Thrown(addr.error);
      }
      result := result + [addr.value];
      i := i + 1;
    }
    assert arr[..|arr|] == arr;
    r := Parsed(result);
  }

  /** Once a prefix has thrown, the whole list throws the same exception. */
  lemma {:induction false} ParseAllThrowsOnward(arr: seq<string>, n: int)
    requires 0 <= n <= |arr| && ParseAll(arr[..n]).Thrown?
    ensures ParseAll(arr) == ParseAll(arr[..n])
    decreases |arr| - n
  {
    if n < |arr| {
      assert arr[..n + 1][..n] == arr[..n];
      ParseAllThrowsOnward(arr, n + 1);
    } else {
      assert arr[..n] == arr;
    }
  }

  /**
   * The conversion succeeds exactly when every address converts, and then yields one
   * socket address per input, in order.
   */
  lemma {:induction false} ParseAllSucceeds(arr: seq<string>)
    ensures ParseAll(arr).Parsed? <==> forall i :: 0 <= i < |arr| ==> ParseAddress(arr[i]).Address?
    ensures ParseAll(arr).Parsed? ==>
      |ParseAll(arr).addresses| == |arr| &&
      forall i :: 0 <= i < |arr| ==> ParseAll(arr).addresses[i] == ParseAddress(arr[i]).value
  {
    if |arr| > 0 {
      var init := arr[..|arr| - 1];
      ParseAllSucceeds(init);
      assert forall i :: 0 <= i < |init| ==> init[i] == arr[i];
    }
  }

  /** When the conversion throws, it is the exception of the first address that does not convert. */
  lemma {:induction false} ParseAllFirstError(arr: seq<string>)
    requires ParseAll(arr).Thrown?
    ensures exists k ::
      0 <= k < |arr| && ParseAddress(arr[k]) == Invalid(ParseAll(arr).error) &&
      (forall i :: 0 <= i < k ==> ParseAddress(arr[i]).Address?)
  {
    var init := arr[..|arr| - 1];
    assert forall i :: 0 <= i < |init| ==> init[i] == arr[i];
    if ParseAll(init).Thrown? {
      ParseAllFirstError(init);
      var k :| 0 <= k < |init| && ParseAddress(init[k]) == Invalid(ParseAll(init).error) &&
        (forall i :: 0 <= i < k ==> ParseAddress(init[i]).Address?);
      assert ParseAddress(arr[k]) == Invalid(ParseAll(arr).error);
    } else {
      ParseAllSucceeds(init);
      assert ParseAddress(arr[|arr| - 1]) == Invalid(ParseAll(arr).error);
    }
  }

  lemma NoColonInNumber(n: nat)
    ensures ':' !in NatToString(n)
  {
  }

  /** "host:rest" splits into the host and the rest when neither contains ':'. */
  lemma SplitHostAndRest(host: string, rest: string)
    requires ':' !in host && ':' !in rest
    ensures Text.Split(host + ":" + rest, ':') == [host, rest]
  {
    Text.SplitSegment(host, ':');
    Text.SplitAppendSegment(host, rest, ':');
    assert host + [':'] + rest == host + ":" + rest;
  }

  /** Java's split of "host:port" gives the host and the port when neither contains ':' and the port is not empty. */
  lemma JavaSplitHostPort(host: string, digits: string)
    requires ':' !in host && ':' !in digits && digits != ""
    ensures ':' in host + ":" + digits
    ensures Text.JavaSplit(host + ":" + digits, ':') == [host, digits]
  {
    var s := host + ":" + digits;
    SplitHostAndRest(host, digits);
    assert s[|host|] == ':';
    assert Text.DropTrailingEmpty([host, digits]) == [host, digits];
  }

  /** "host:port" with a host free of ':' and a port in range reads back as that host and port. */
  lemma HostPortRoundTrip(host: string, port: int)
    requires ':' !in host && 0 <= port <= MAX_PORT
    ensures ParseAddress(host + ":" + IntToString(port)) == Address(SocketAddress(host, port))
  {
    NoColonInNumber(port);
    JavaSplitHostPort(host, IntToString(port));
    ParseDecimalRoundTrip(port, INT32_MIN, INT32_MAX);
  }

  /** An address without ':' keeps its whole text as the host and gets the default port. */
  lemma DefaultPort(s: string)
    requires ':' !in s
    ensures ParseAddress(s) == Address(SocketAddress(s, DEFAULT_PORT))
  {
  }

  /** "host:" has no second part after Java's split, so indexing it throws. */
  lemma TrailingColonThrows(host: string)
    requires ':' !in host
    ensures ParseAddress(host + ":") == Invalid(IndexOutOfBounds(host + ":"))
  {
    var s := host + ":";
    SplitHostAndRest(host, "");
    assert host + ":" + "" == s;
    assert s[|host|] == ':';
    if host == "" {
      assert Text.DropTrailingEmpty([host, ""]) == [];
    } else {
      assert Text.DropTrailingEmpty([host, ""]) == Text.DropTrailingEmpty([host]);
    }
  }

  /** A port that parses but lies outside 0..65535 is rejected by the socket address. */
  lemma PortAboveRangeThrows(host: string, port: int)
    requires ':' !in host && MAX_PORT < port <= INT32_MAX
    ensures ParseAddress(host + ":" + IntToString(port)) == Invalid(PortOutOfRange(port))
  {
    NoColonInNumber(port);
    JavaSplitHostPort(host, IntToString(port));
    ParseDecimalRoundTrip(port, INT32_MIN, INT32_MAX);
  }
}
