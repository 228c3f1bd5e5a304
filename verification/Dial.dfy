/** From a SOCKS5 request, or a client's own CONNECT, to the address the server dials. */
module Dial {
  import Base64
  import opened Bytes
  import opened HexCodec
  import opened HostPort
  import opened HttpRequest
  import opened HttpUtils
  import opened Server
  import opened Socks5
  import opened Wire

  /** The request `AgentHandler::handle` builds from the client's bytes; `None` when they are
      not a request or sealing fails. */
  function AgentRequest(cipher: Cipher, nonce: Str, d: Decoy, session: Str, config: Config, raw: Str): Option<Str> {
    match Detect(raw)
    case Threw => None
    case NotHttp => None
    case Tls(_) => EncodeRequest(cipher, nonce, d, session, REQUEST, config.connectionReuse, raw)
    case Http(request) =>
      var action := if request.IsConnect() then OPEN else REQUEST;
      var keepAlive := config.connectionReuse || (config.tunnelEnable && request.IsConnect());
      EncodeRequest(cipher, nonce, d, session, action, keepAlive, raw)
  }

  /** Sealing worked, and the message is no longer than a `size_t` can count. */
  predicate Sendable(m: Option<Str>) {
    m.Some? && |m.value| <= MAX_SIZE
  }

  /** The CONNECT line of an older client. */
  function OldConnectLine(target: Str): Str {
    "CONNECT " + target + " HTTP/1.0"
  }

  predicate BlockOf(headers: Str, lines: seq<Str>) {
    headers == HeaderBlock(lines) + CRLF
  }

  /** The header block made of these lines declares no body beyond Beast's limit. */
  ghost predicate SmallBody(lines: seq<Str>) {
    forall headers: Str {:trigger BlockOf(headers, lines)} ::
      BlockOf(headers, lines) ==> Declared(headers) <= BODY_LIMIT
  }

  lemma SmallBodyIs(lines: seq<Str>)
    ensures SmallBody(lines) <==> Declared(HeaderBlock(lines) + CRLF) <= BODY_LIMIT
  {
    hide Declared, HeaderBlock;
    assert BlockOf(HeaderBlock(lines) + CRLF, lines);
  }

  /** Header lines of a CONNECT to `target` that Beast accepts. */
  ghost predicate ConnectLines(lines: seq<Str>, target: Str) {
    && CleanLines(lines)
    && target != "" && PathText(target)
    && (lines[0] == ConnectLine(target) || lines[0] == OldConnectLine(target))
    && SmallBody(lines)
  }

  lemma ConnectLineParses(target: Str)
    requires target != "" && PathText(target)
    ensures RequestLine(ConnectLine(target)) == Some(("CONNECT", target))
    ensures RequestLine(OldConnectLine(target)) == Some(("CONNECT", target))
  {
    hide RequestLine;
    RequestLineIs("CONNECT", target, "HTTP/1.1");
    RequestLineIs("CONNECT", target, "HTTP/1.0");
    assert ConnectLine(target) == "CONNECT" + " " + target + " " + "HTTP/1.1";
    assert OldConnectLine(target) == "CONNECT" + " " + target + " " + "HTTP/1.0";
  }

  /** The header block of such a request is itself a CONNECT request, on either side. */
  lemma ConnectDetected(lines: seq<Str>, target: Str)
    requires ConnectLines(lines, target)
    ensures Detect(Message(lines, "")) == Http(Request("CONNECT", target, ""))
  {
    var m := Message(lines, "");
    SmallBodyIs(lines);
    ConnectLineParses(target);
    ParseRequestOfMessage(lines, "", "CONNECT", target);
    FirstByte(lines, "");
    TextIsHttp(m);
  }

  lemma FirstByte(lines: seq<Str>, body: Str)
    requires CleanLines(lines)
    ensures Message(lines, body) != "" && Message(lines, body)[0] == lines[0][0]
  {
  }

  lemma ConnectDetectedAtAgent(lines: seq<Str>, target: Str, early: Str) returns (body: Str)
    requires ConnectLines(lines, target)
    ensures Detect(Message(lines, early)) == Http(Request("CONNECT", target, body))
  {
    var m := Message(lines, early);
    SmallBodyIs(lines);
    ConnectLineParses(target);
    HeaderEndOfMessage(lines, early);
    FirstLineOfBlock(lines, CRLF + early);
    FirstByte(lines, early);
    TextIsHttp(m);
    body := ParseRequest(m).value.body;
  }

  /** What the server does with an open: it dials the target of the CONNECT line, and the
      bytes that came after the header block are the target's first data. */
  lemma ForwardOfConnect(config: Config, table: Table, session: Str, lines: seq<Str>, target: Str, early: Str, env: Env)
    requires ConnectLines(lines, target)
    ensures Forward(config, table, session, Hex(Message(lines, early)), env)
            == Open(config, table, session, Destination(target), early, env)
  {
    hide Hex, HexToAscii, Detect, Open, Destination, Message, HeaderBlock;
    var inner := Message(lines, early);
    HexToAsciiInvertsHex(inner);
    HeaderEndOfMessage(lines, early);
    InnerHeaders(lines, early);
    ConnectDetected(lines, target);
    ForwardIs(config, table, session, Hex(inner), inner, Find(inner, HEADER_END).value, target, env);
  }

  lemma InnerHeaders(lines: seq<Str>, early: Str)
    requires CleanLines(lines)
    ensures Find(Message(lines, early), HEADER_END).Some?
    ensures Message(lines, early)[..Find(Message(lines, early), HEADER_END).value + 4] == Message(lines, "")
    ensures Message(lines, early)[Find(Message(lines, early), HEADER_END).value + 4..] == early
  {
    HeaderEndOfMessage(lines, early);
    assert HeaderBlock(lines) + CRLF == Message(lines, "");
  }

  lemma ForwardIs(config: Config, table: Table, session: Str, message: Str, inner: Str, p: nat, target: Str, env: Env)
    requires HexToAscii(message) == Some(inner) && Find(inner, HEADER_END) == Some(p)
    requires Detect(inner[..p + 4]) == Http(Request("CONNECT", target, ""))
    ensures Forward(config, table, session, message, env)
            == Open(config, table, session, Destination(target), inner[p + 4..], env)
  {
    hide HexToAscii, Find, Detect, Open, Destination, PlainForward;
  }

  /** The open request of an agent, once through the wire; one beyond the parser's limit is
      dropped. */
  lemma OpenReachesServer(config: Config, cipher: Cipher, nonce: Str, d: Decoy, session: Str,
                          lines: seq<Str>, target: Str, early: Str, table: Table, env: Env)
    requires cipher.Lawful() && d.Usable() && OneLine(session) && ConnectLines(lines, target)
    ensures
      var m := AgentRequest(cipher, nonce, d, session, config, Message(lines, early));
      var e := Open(config, table, Trim(session), Destination(target), early, env);
      Sendable(m) ==>
        Handle(config, cipher, table, m.value, env) ==
        if Fits(cipher, nonce, Message(lines, early)) then
          Handled(e.table, Response(cipher, env, e.reply), e.dialed, e.connect)
        else Handled(table, "", None, false)
  {
    hide Detect, Open, Destination, Message, HeaderBlock, EncodeRequest, DecodeRequest, Fits, Trim, Hex, HexToAscii,
      Forward, Response, CleanLines;
    var raw := Message(lines, early);
    var body := ConnectDetectedAtAgent(lines, target, early);
    var keepAlive := config.connectionReuse || config.tunnelEnable;
    AgentRequestIs(cipher, nonce, d, session, config, raw, target, body);
    TrimOfOpen();
    if Sendable(AgentRequest(cipher, nonce, d, session, config, raw)) {
      RequestRoundTrip(cipher, nonce, d, session, OPEN, keepAlive, raw);
    }
    ForwardOfConnect(config, table, Trim(session), lines, target, early, env);
  }

  lemma AgentRequestIs(cipher: Cipher, nonce: Str, d: Decoy, session: Str, config: Config, raw: Str,
                       target: Str, body: Str)
    requires Detect(raw) == Http(Request("CONNECT", target, body))
    ensures AgentRequest(cipher, nonce, d, session, config, raw)
            == EncodeRequest(cipher, nonce, d, session, OPEN, config.connectionReuse || config.tunnelEnable, raw)
  {
    hide Detect, EncodeRequest;
  }

  lemma TrimOfOpen()
    ensures OneLine(OPEN) && Trim(OPEN) == OPEN
    ensures OPEN != SEND && OPEN != RECV && OPEN != CLOSE
  {
    TrimOfField(OPEN);
  }

  // ----- SOCKS5, end to end ------------------------------------------------------------------------

  /** A host that can stand in a request line: visible characters, no brackets. */
  predicate DialableHost(host: Str) {
    PlainHost(host) && forall i :: 0 <= i < |host| ==> 33 <= host[i] as int <= 126
  }

  lemma ConnectTextIsConnect(host: Str, port: nat) returns (lines: seq<Str>)
    requires DialableHost(host)
    ensures ConnectLines(lines, TargetText(host, port))
    ensures ConnectText(host, port) == Message(lines, "")
  {
    var target := TargetText(host, port);
    TargetClean(host, port);
    lines := [ConnectLine(target), HostLine(target)];
    ConnectLinesClean(target);
    NoBodyDeclared(target);
    SmallBodyIs(lines);
    TwoLines(ConnectLine(target), HostLine(target));
  }

  lemma ConnectLinesClean(target: Str)
    requires OneLine(target)
    ensures CleanLine(ConnectLine(target)) && CleanLine(HostLine(target))
  {
    CleanField("CONNECT ", target + " HTTP/1.1");
    assert ConnectLine(target) == "CONNECT " + (target + " HTTP/1.1");
    CleanField("Host: ", target);
  }

  lemma NoBodyDeclared(target: Str)
    requires OneLine(target)
    ensures Declared(HeaderBlock([ConnectLine(target), HostLine(target)]) + CRLF) == 0
  {
    hide ScanHeader, HeaderBlock, CleanLine, StartsWith, ToLower;
    ConnectLinesClean(target);
    LookedShape(CONTENT_LENGTH);
    RequestLineIsNoHeader("CONNECT", target + " HTTP/1.1", CONTENT_LENGTH);
    assert ConnectLine(target) == "CONNECT" + " " + (target + " HTTP/1.1");
    NotPrefix(HostLine(target), CONTENT_LENGTH, 0);
    ScanMisses([ConnectLine(target), HostLine(target)], CONTENT_LENGTH);
  }

  lemma TwoLines(a: Str, b: Str)
    ensures Message([a, b], "") == a + CRLF + (b + CRLF) + CRLF
  {
    assert [a, b][1..] == [b] && [b][1..] == [];
    assert HeaderBlock([b]) == b + CRLF;
    assert HeaderBlock([a, b]) == a + CRLF + (b + CRLF);
  }

  lemma TargetClean(host: Str, port: nat)
    requires DialableHost(host)
    ensures var t := TargetText(host, port); t != "" && PathText(t) && OneLine(t)
  {
    var t, digits := TargetText(host, port), Decimal(port);
    assert forall i :: 0 <= i < |digits| ==> IsDigit(digits[i]);
    assert PathText(host) && PathText(digits);
    NoBlanks("", t);
  }

  lemma TargetReadBack(host: Str, port: nat)
    requires DialableHost(host) && 1 <= port <= 65535
    ensures Destination(TargetText(host, port)) == Endpoint(host, port)
  {
    assert TargetText(host, port) == MakeHostPort(host, port);
    ParseInvertsMake(host, port, 443);
  }

  /** What is assumed of the address library: an IPv6 address prints with a colon, in at most
      45 characters, and no two addresses print alike. */
  ghost predicate Printer(v6: Str -> Str) {
    && (forall o: Str :: |o| == 16 ==> ':' in v6(o) && |v6(o)| <= 45)
    && (forall o: Str, q: Str :: |o| == 16 && |q| == 16 && v6(o) == v6(q) ==> o == q)
  }

  lemma ConnectTextShort(address: Address, port: nat, v6: Str -> Str)
    requires Printer(v6) && address.Valid() && port < 65536
    ensures |ConnectText(address.Text(v6), port)| <= 65536
  {
    DecimalShort(port);
    if address.V4? {
      DecimalShort(address.octets[0] as int);
      DecimalShort(address.octets[1] as int);
      DecimalShort(address.octets[2] as int);
      DecimalShort(address.octets[3] as int);
    }
    hide Decimal;
  }

  /** For every SOCKS5 CONNECT to a dialable host and a real port, whatever follows it on the
      stream: the handshake accepts, and the address the server dials for the resulting open
      request, through CONNECT text, hex, seal, base64 and HTTP, is the one requested. */
  lemma ServerDialsRequested(config: Config, cipher: Cipher, nonce: Str, d: Decoy, session: Str,
                             greeting: Greeting, command: Command, rest: Str, v6: Str -> Str,
                             table: Table, env: Env)
    requires cipher.Lawful() && cipher.Compact() && Printer(v6) && d.Usable() && OneLine(session)
    requires |greeting.methods| < 256 && command.Valid() && command.port >= 1
    requires DialableHost(command.address.Text(v6))
    ensures Handshake(greeting.Bytes() + (command.Bytes() + rest), v6)
            == Accepted(ConnectText(command.address.Text(v6), command.port), rest)
    ensures
      var m := AgentRequest(cipher, nonce, d, session, config, ConnectText(command.address.Text(v6), command.port));
      Sendable(m) ==>
        Handle(config, cipher, table, m.value, env).dialed == Some(Endpoint(command.address.Text(v6), command.port))
  {
    hide AgentRequest, ConnectText, TargetText, Handle, Handshake, DialableHost, Destination, Trim, Fits, Printer;
    var host := command.address.Text(v6);
    HandshakeAccepted(greeting, command, rest, v6);
    var lines := ConnectTextIsConnect(host, command.port);
    OpenReachesServer(config, cipher, nonce, d, session, lines, TargetText(host, command.port), "", table, env);
    TargetReadBack(host, command.port);
    var text := ConnectText(host, command.port);
    ConnectTextShort(command.address, command.port, v6);
    OneReadFits(cipher, nonce, text);
    if Sendable(AgentRequest(cipher, nonce, d, session, config, text)) {
      SendableIsSealed(config, cipher, nonce, d, session, text);
    }
  }

  lemma SendableIsSealed(config: Config, cipher: Cipher, nonce: Str, d: Decoy, session: Str, raw: Str)
    requires AgentRequest(cipher, nonce, d, session, config, raw).Some?
    ensures cipher.seal(nonce, Hex(raw)).Some?
  {
    hide Detect, Hex, Message, RequestLines, Base64.Encode;
  }

  // ----- the dialled text stands for one address ---------------------------------------------------

  lemma SplitAtDot(a: Str, b: Str, x: Str, y: Str)
    requires '.' !in a && '.' !in b && a + "." + x == b + "." + y
    ensures a == b && x == y
  {
    var s := a + "." + x;
    assert s[..|a|] == a && s[..|b|] == b;
    FindByteIs(s, '.', |a|);
    FindByteIs(s, '.', |b|);
    assert x == s[|a| + 1..] && y == s[|b| + 1..];
  }

  lemma DecimalInjective(m: nat, n: nat)
    requires Decimal(m) == Decimal(n)
    ensures m == n
  {
    DecimalRoundTrip(m);
    DecimalRoundTrip(n);
  }

  lemma OctetSplit(m: nat, n: nat, x: Str, y: Str)
    requires Decimal(m) + "." + x == Decimal(n) + "." + y
    ensures m == n && x == y
  {
    hide Decimal;
    DecimalHasNo(m, '.');
    DecimalHasNo(n, '.');
    SplitAtDot(Decimal(m), Decimal(n), x, y);
    DecimalInjective(m, n);
  }

  lemma DottedInjective(o: Str, q: Str)
    requires |o| == 4 && |q| == 4 && Dotted(o) == Dotted(q)
    ensures o == q
  {
    hide Decimal;
    var o2, q2 := Decimal(o[2] as int) + "." + Decimal(o[3] as int), Decimal(q[2] as int) + "." + Decimal(q[3] as int);
    var o1, q1 := Decimal(o[1] as int) + "." + o2, Decimal(q[1] as int) + "." + q2;
    assert Dotted(o) == Decimal(o[0] as int) + "." + o1 && Dotted(q) == Decimal(q[0] as int) + "." + q1;
    OctetSplit(o[0] as int, q[0] as int, o1, q1);
    OctetSplit(o[1] as int, q[1] as int, o2, q2);
    OctetSplit(o[2] as int, q[2] as int, Decimal(o[3] as int), Decimal(q[3] as int));
    DecimalInjective(o[3] as int, q[3] as int);
  }

  lemma DottedHasNoColon(o: Str)
    requires |o| == 4
    ensures ':' !in Dotted(o)
  {
    hide Decimal;
    DecimalHasNo(o[0] as int, ':');
    DecimalHasNo(o[1] as int, ':');
    DecimalHasNo(o[2] as int, ':');
    DecimalHasNo(o[3] as int, ':');
  }

  /** A host text stands for one numeric address, or for one name. */
  lemma TextDeterminesAddress(a: Address, b: Address, v6: Str -> Str)
    requires Printer(v6) && a.Valid() && b.Valid() && (a.Domain? <==> b.Domain?)
    requires a.Text(v6) == b.Text(v6)
    ensures a == b
  {
    hide Dotted;
    if a.V4? { DottedHasNoColon(a.octets); }
    if b.V4? { DottedHasNoColon(b.octets); }
    if a.V4? && b.V4? { DottedInjective(a.octets, b.octets); }
  }

  /** So what the server dials determines what was asked for: two requests, numeric or by
      name, for which it dials the same endpoint asked for the same address and port. */
  lemma DialledDeterminesRequest(config: Config, cipher: Cipher, nonce: Str, d: Decoy, session: Str,
                                 greeting: Greeting, a: Command, b: Command, v6: Str -> Str, table: Table, env: Env)
    requires cipher.Lawful() && cipher.Compact() && Printer(v6) && d.Usable() && OneLine(session)
    requires |greeting.methods| < 256 && a.Valid() && a.port >= 1 && b.Valid() && b.port >= 1
    requires DialableHost(a.address.Text(v6)) && DialableHost(b.address.Text(v6))
    requires a.address.Domain? <==> b.address.Domain?
    ensures
      var m := AgentRequest(cipher, nonce, d, session, config, ConnectText(a.address.Text(v6), a.port));
      var n := AgentRequest(cipher, nonce, d, session, config, ConnectText(b.address.Text(v6), b.port));
      Sendable(m) && Sendable(n) &&
      Handle(config, cipher, table, m.value, env).dialed == Handle(config, cipher, table, n.value, env).dialed ==>
        a.address == b.address && a.port == b.port
  {
    hide AgentRequest, ConnectText, Handle, DialableHost, Handshake, Printer, Sendable;
    ServerDialsRequested(config, cipher, nonce, d, session, greeting, a, "", v6, table, env);
    ServerDialsRequested(config, cipher, nonce, d, session, greeting, b, "", v6, table, env);
    if a.address.Text(v6) == b.address.Text(v6) {
      TextDeterminesAddress(a.address, b.address, v6);
    }
  }
}
