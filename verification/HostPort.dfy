/** Host and port text: `makeHostPort` of `http_utils.hpp` and `HTTP::parseHostPort`. */
module HostPort {
  import opened Bytes

  datatype Endpoint = Endpoint(host: Str, port: nat)

  predicate Bracketed(host: Str) {
    |host| >= 2 && host[0] == '[' && host[|host| - 1] == ']'
  }

  /** `makeHostPort`: an address with a colon is bracketed unless it already is. */
  function MakeHostPort(host: Str, port: nat): Str {
    if ':' in host && !Bracketed(host) then "[" + host + "]:" + Decimal(port)
    else host + ":" + Decimal(port)
  }

  /** The `parsePort` lambda: `stoi`, which ignores trailing text, then a range check. */
  function PortOf(text: Str): Option<nat> {
    match Stoi(text)
    case None => None
    case Some(p) => if 1 <= p <= 65535 then Some(p) else None
  }

  function BracketedEndpoint(input: Str, defaultPort: nat): Option<Endpoint>
    requires input != "" && input[0] == '['
  {
    var close :- Find(input, "]");
    assert close != 0 by { assert input[0..1] == [input[0]]; }
    if close + 1 == |input| then Some(Endpoint(input[1..close], defaultPort))
    else if input[close + 1] != ':' then None
    else
      var port :- PortOf(input[close + 2..]);
      Some(Endpoint(input[1..close], port))
  }

  /** What `parseHostPort` answers; `None` is its `false`. */
  function EndpointOf(input: Str, defaultPort: nat): Option<Endpoint> {
    if input == "" then None
    else if input[0] == '[' then
      var e :- BracketedEndpoint(input, defaultPort);
      if e.host == "" then None else Some(e)
    else
      var last := FindLast(input, ':');
      if last.None? then Some(Endpoint(input, defaultPort))
      else
        var host, port := input[..last.value], PortOf(input[last.value + 1..]);
        if ':' in host then
          Some(if port.Some? then Endpoint(host, port.value) else Endpoint(input, defaultPort))
        else if port.None? || host == "" then None
        else Some(Endpoint(host, port.value))
  }

  /** What the out-parameters hold after a `false`: nothing, the host so far, or a port behind
      an empty host. Every caller then clears them. */
  function Leftover(input: Str, defaultPort: nat): Endpoint
    requires EndpointOf(input, defaultPort).None?
  {
    if input == "" then Endpoint("", defaultPort)
    else if input[0] == '[' then LeftoverBracketed(input, defaultPort)
    else
      var last := FindLast(input, ':').value;
      Endpoint(input[..last], PortOr(input[last + 1..], defaultPort))
  }

  function PortOr(text: Str, defaultPort: nat): nat {
    match PortOf(text) case None => defaultPort case Some(port) => port
  }

  function LeftoverBracketed(input: Str, defaultPort: nat): Endpoint
    requires input != "" && input[0] == '['
  {
    match Find(input, "]")
    case None => Endpoint("", defaultPort)
    case Some(close) =>
      assert close != 0 by { assert input[0..1] == [input[0]]; }
      if close + 1 == |input| || input[close + 1] != ':' then Endpoint(input[1..close], defaultPort)
      else Endpoint(input[1..close], PortOr(input[close + 2..], defaultPort))
  }

  /** `parseHostPort`. */
  method ParseHostPort(input: Str, defaultPort: nat) returns (ok: bool, host: Str, port: nat)
    ensures ok <==> EndpointOf(input, defaultPort).Some?
    ensures ok ==> EndpointOf(input, defaultPort) == Some(Endpoint(host, port))
    ensures !ok ==> Leftover(input, defaultPort) == Endpoint(host, port)
  {
    hide PortOf, Find, FindLast;
    host, port := "", defaultPort;
    if input == "" {
      return false, host, port;
    }
    if input[0] == '[' {
      var close := Find(input, "]");
      if close.None? {
        return false, host, port;
      }
      assert close.value != 0 by { assert input[0..1] == [input[0]]; }
      host := input[1..close.value];
      if close.value + 1 < |input| {
        if input[close.value + 1] != ':' {
          return false, host, port;
        }
        var p := PortOf(input[close.value + 2..]);
        if p.None? {
          return false, host, port;
        }
        port := p.value;
      }
      return host != "", host, port;
    }
    var firstColon := Find(input, ":");
    var lastColon := FindLast(input, ':');
    FindByteNone(input, ':');
    if firstColon.Some? {
      FirstAndLast(input, firstColon.value, lastColon.value);
    }
    if firstColon.Some? && firstColon != lastColon {
      var parsed := PortOf(input[lastColon.value + 1..]);
      if parsed.Some? {
        host, port := input[..lastColon.value], parsed.value;
        return host != "", host, port;
      }
      return true, input, defaultPort;
    }
    if lastColon.Some? {
      host := input[..lastColon.value];
      var p := PortOf(input[lastColon.value + 1..]);
      if p.None? {
        return false, host, port;
      }
      port := p.value;
    } else {
      host := input;
    }
    return host != "", host, port;
  }

  lemma FirstAndLast(input: Str, first: nat, last: nat)
    requires Find(input, ":") == Some(first)
    requires FindLast(input, ':') == Some(last)
    ensures first <= last
    ensures first != last <==> ':' in input[..last]
  {
    forall k: nat ensures OccursAt(input, ":", k) <==> k < |input| && input[k] == ':' {
      OneByteOccurs(input, ':', k);
    }
    assert forall k :: last < k < |input| ==> input[k] == input[last + 1..][k - last - 1];
    if first < last {
      assert input[..last][first] == ':';
    }
  }

  // ----- round trip ----------------------------------------------------------------------

  predicate PlainHost(host: Str) {
    host != "" && '[' !in host && ']' !in host
  }

  lemma PortRoundTrip(port: nat)
    requires 1 <= port <= 65535
    ensures PortOf(Decimal(port)) == Some(port)
  {
    LeadingIntOfDecimal(port);
  }

  lemma FindLastIs(s: Str, b: Byte, i: nat)
    requires i < |s| && s[i] == b && b !in s[i + 1..]
    ensures FindLast(s, b) == Some(i)
  {
    var r := FindLast(s, b);
    assert r.Some?;
    assert forall k :: i < k < |s| ==> s[k] == s[i + 1..][k - i - 1];
    assert forall k :: r.value < k < |s| ==> s[k] == s[r.value + 1..][k - r.value - 1];
  }

  /** `parseHostPort` undoes `makeHostPort`, IPv6 text included. */
  lemma ParseInvertsMake(host: Str, port: nat, defaultPort: nat)
    requires PlainHost(host) && 1 <= port <= 65535
    ensures EndpointOf(MakeHostPort(host, port), defaultPort) == Some(Endpoint(host, port))
  {
    var text := MakeHostPort(host, port);
    var digits := Decimal(port);
    PortRoundTrip(port);
    DecimalHasNo(port, ':');
    if ':' in host {
      var close := |host| + 1;
      assert text == "[" + host + "]:" + digits;
      assert text[..close] == "[" + host;
      FindByteIs(text, ']', close);
      assert text[1..close] == host && text[close + 2..] == digits;
    } else {
      assert text == host + ":" + digits;
      assert text[|host| + 1..] == digits && text[..|host|] == host;
      FindLastIs(text, ':', |host|);
      assert text[0] == host[0];
    }
  }

  /** On any input at all, an accepted host is a non-empty contiguous part of the input, and
      the port is the default or a legal one. */
  lemma EndpointIsPartOfInput(input: Str, defaultPort: nat)
    requires EndpointOf(input, defaultPort).Some?
    ensures
      var e := EndpointOf(input, defaultPort).value;
      && e.host != ""
      && (e.port == defaultPort || 1 <= e.port <= 65535)
      && exists i: nat :: OccursAt(input, e.host, i)
  {
    var e := EndpointOf(input, defaultPort).value;
    if input[0] == '[' {
      assert OccursAt(input, e.host, 1);
    } else {
      assert OccursAt(input, e.host, 0);
    }
  }

  /** A host that arrives bracketed is not bracketed again, and comes back bare. */
  lemma BracketedHostComesBackBare(inner: Str, port: nat, defaultPort: nat)
    requires PlainHost(inner) && ':' in inner && 1 <= port <= 65535
    ensures EndpointOf(MakeHostPort("[" + inner + "]", port), defaultPort) == Some(Endpoint(inner, port))
  {
    var h: Str := "[" + inner + "]";
    assert h[0] == '[' && h[|h| - 1] == ']';
    assert MakeHostPort(h, port) == "[" + inner + "]:" + Decimal(port);
    ParseInvertsMake(inner, port, defaultPort);
  }

  // ----- what a string without a port means ----------------------------------------------------

  /** Of the printed numbers exactly the legal ports are ports. */
  lemma PortExactly(n: nat)
    ensures PortOf(Decimal(n)) == if 1 <= n <= 65535 then Some(n) else None
  {
    LeadingIntOfDecimal(n);
    hide Decimal, LeadingInt;
  }

  /** Text behind the digits is ignored, as are blanks before them. */
  lemma PortWithText(blanks: Str, n: nat, tail: Str)
    requires forall i :: 0 <= i < |blanks| ==> IsSpace(blanks[i])
    requires tail == "" || !IsDigit(tail[0])
    ensures PortOf(blanks + (Decimal(n) + tail)) == PortOf(Decimal(n))
  {
    hide Decimal, LeadingInt;
    NumberRead(blanks, "", n, tail);
    LeadingIntOfDecimal(n);
    assert "" + (Decimal(n) + tail) == Decimal(n) + tail;
  }

  /** A host without a colon gets the default port, whatever it is. */
  lemma BareHostGetsDefault(host: Str, defaultPort: nat)
    requires host != "" && ':' !in host && host[0] != '['
    ensures EndpointOf(host, defaultPort) == Some(Endpoint(host, defaultPort))
  {
  }

  /** So does a bracketed one; an empty one, and one never closed, is refused. */
  lemma BracketedHostGetsDefault(inner: Str, defaultPort: nat)
    ensures ']' !in inner ==> EndpointOf("[" + inner + "]", defaultPort) ==
                              if inner == "" then None else Some(Endpoint(inner, defaultPort))
    ensures ']' !in inner ==> EndpointOf("[" + inner, defaultPort) == None
  {
    if ']' !in inner {
      var text := "[" + inner + "]";
      assert text[..|inner| + 1] == "[" + inner;
      FindByteIs(text, ']', |inner| + 1);
      assert text[1..|inner| + 1] == inner;
      FindByteNone("[" + inner, ']');
    }
  }

  /** Behind a closed bracket only a colon and a readable port will do. */
  lemma BracketedHostWithMore(inner: Str, c: Byte, text: Str, defaultPort: nat)
    requires ']' !in inner
    ensures EndpointOf("[" + inner + "]" + ([c] + text), defaultPort) ==
            if c != ':' || PortOf(text).None? || inner == "" then None else Some(Endpoint(inner, PortOf(text).value))
  {
    hide PortOf;
    var input := "[" + inner + "]" + ([c] + text);
    var close := |inner| + 1;
    assert input[..close] == "[" + inner;
    FindByteIs(input, ']', close);
    assert input[1..close] == inner && input[close + 1] == c && input[close + 2..] == text;
  }

  /** A host and what follows its last colon: with a readable port the host is what stands
      before; without one, text with an earlier colon is all host and gets the default, and
      other text is refused. */
  lemma HostAndText(host: Str, text: Str, defaultPort: nat)
    requires ':' !in text && (host == "" || host[0] != '[')
    ensures EndpointOf(host + ":" + text, defaultPort) ==
            if PortOf(text).Some? then (if host == "" then None else Some(Endpoint(host, PortOf(text).value)))
            else if ':' in host then Some(Endpoint(host + ":" + text, defaultPort))
            else None
  {
    hide PortOf;
    var input := host + ":" + text;
    assert input[..|host|] == host && input[|host| + 1..] == text;
    FindLastIs(input, ':', |host|);
    assert input[0] != '[';
  }

  /** What a refused string leaves behind: the host before its colon, if any, and the default
      port unless one was read behind an empty host. */
  lemma RefusedLeaves(host: Str, text: Str, defaultPort: nat)
    requires ':' !in host && ':' !in text && (host == "" || host[0] != '[')
    requires PortOf(text).None? || host == ""
    ensures EndpointOf("", defaultPort).None? && Leftover("", defaultPort) == Endpoint("", defaultPort)
    ensures EndpointOf(host + ":" + text, defaultPort).None?
    ensures Leftover(host + ":" + text, defaultPort) ==
            Endpoint(host, match PortOf(text) case None => defaultPort case Some(port) => port)
  {
    hide PortOf, EndpointOf;
    HostAndText(host, text, defaultPort);
    RefusedEmpty(defaultPort);
    var input := host + ":" + text;
    assert input[..|host|] == host && input[|host| + 1..] == text && input[0] != '[';
    FindLastIs(input, ':', |host|);
  }

  lemma RefusedEmpty(defaultPort: nat)
    ensures EndpointOf("", defaultPort).None?
  {
  }

  /** A bracket never closed leaves no host; what stands in a closed one is left. */
  lemma RefusedBracketLeaves(inner: Str, c: Byte, text: Str, defaultPort: nat)
    requires ']' !in inner && (c != ':' || PortOf(text).None?)
    ensures EndpointOf("[" + inner, defaultPort).None?
    ensures Leftover("[" + inner, defaultPort) == Endpoint("", defaultPort)
    ensures EndpointOf("[" + inner + "]" + ([c] + text), defaultPort).None?
    ensures Leftover("[" + inner + "]" + ([c] + text), defaultPort) == Endpoint(inner, defaultPort)
  {
    hide PortOf, EndpointOf;
    BracketedHostGetsDefault(inner, defaultPort);
    BracketedHostWithMore(inner, c, text, defaultPort);
    FindByteNone("[" + inner, ']');
    var input := "[" + inner + "]" + ([c] + text);
    var close := |inner| + 1;
    assert input[..close] == "[" + inner;
    FindByteIs(input, ']', close);
    assert input[1..close] == inner && input[close + 1] == c && input[close + 2..] == text;
  }
}
