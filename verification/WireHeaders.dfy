/** The header lines nobody on the path reads, but that a middle box would: what a request and a
    response say about themselves. */
module WireHeaders {
  import AgentLoop
  import opened Bytes
  import opened HttpRequest
  import opened HttpUtils
  import PolledTunnel
  import opened Wire
  import WireTunnel

  const HOST_PREFIX: Str := "host:"
  const AGENT_PREFIX: Str := "user-agent:"
  const CONNECTION_PREFIX: Str := "connection:"

  lemma PrefixesLower()
    ensures ToLower("Host") + ":" == HOST_PREFIX
    ensures ToLower("User-Agent") + ":" == AGENT_PREFIX
    ensures ToLower("Connection") + ":" == CONNECTION_PREFIX
    ensures ToLower("Host:") == HOST_PREFIX && ToLower("User-Agent:") == AGENT_PREFIX
    ensures ToLower("Connection:") == CONNECTION_PREFIX
  {
  }

  lemma FieldHits(name: Str, prefix: Str, value: Str)
    requires ToLower(name + ":") == prefix
    ensures Hit(name + ":" + (" " + value), prefix)
  {
    IsPrefix(name + ":", prefix, " " + value);
  }

  /** The three lines in the shape the reader looks for. */
  lemma LinesAsFields(d: Decoy, connection: Str)
    ensures HostLine(d.host) == "Host" + ":" + (" " + d.host)
    ensures AgentLine(d.userAgent) == "User-Agent" + ":" + (" " + d.userAgent)
    ensures ConnectionLine(connection) == "Connection" + ":" + (" " + connection)
  {
  }

  lemma StartMisses(d: Decoy, prefix: Str)
    requires d.Usable() && |prefix| > 0 && prefix[|prefix| - 1] == ':' && ' ' !in prefix
    ensures !Hit(StartLine(d), prefix)
  {
    NoBlanks(d.verb, d.endPoint);
    RequestLineIsNoHeader(d.verb, ("/" + d.endPoint) + " " + ("HTTP/" + d.httpVersion), prefix);
    assert StartLine(d) == d.verb + " " + (("/" + d.endPoint) + " " + ("HTTP/" + d.httpVersion));
  }

  lemma HostScan(d: Decoy, session: Str, action: Str, length: nat, keepAlive: bool, tail: Str)
    requires d.Usable() && OneLine(session) && OneLine(action)
    ensures ScanHeader(HeaderBlock(RequestLines(d, session, action, length, keepAlive)) + tail, HOST_PREFIX)
            == Some(HostLine(d.host))
  {
    var lines := RequestLines(d, session, action, length, keepAlive);
    assert lines[0] == StartLine(d) && lines[1] == HostLine(d.host);
    assert |HOST_PREFIX| == 5 && HOST_PREFIX[4] == ':' && ' ' !in HOST_PREFIX;
    hide *;
    PrefixesLower();
    LinesAsFields(d, "");
    assert "Host" + ":" == "Host:";
    RequestLinesClean(d, session, action, length, keepAlive);
    StartMisses(d, HOST_PREFIX);
    FieldHits("Host", HOST_PREFIX, d.host);
    ScanStops(lines, tail, 1, HOST_PREFIX);
  }

  lemma AgentScan(d: Decoy, session: Str, action: Str, length: nat, keepAlive: bool, tail: Str)
    requires d.Usable() && OneLine(session) && OneLine(action)
    ensures ScanHeader(HeaderBlock(RequestLines(d, session, action, length, keepAlive)) + tail, AGENT_PREFIX)
            == Some(AgentLine(d.userAgent))
  {
    var lines := RequestLines(d, session, action, length, keepAlive);
    assert lines[0] == StartLine(d) && lines[1] == HostLine(d.host) && lines[2] == AgentLine(d.userAgent);
    assert |AGENT_PREFIX| == 11 && AGENT_PREFIX[10] == ':' && ' ' !in AGENT_PREFIX;
    HostMissesAgent(d.host);
    hide *;
    PrefixesLower();
    LinesAsFields(d, "");
    assert "User-Agent" + ":" == "User-Agent:";
    RequestLinesClean(d, session, action, length, keepAlive);
    StartMisses(d, AGENT_PREFIX);
    FieldHits("User-Agent", AGENT_PREFIX, d.userAgent);
    ScanStops(lines, tail, 2, AGENT_PREFIX);
  }

  lemma HostMissesAgent(host: Str)
    ensures !Hit(HostLine(host), AGENT_PREFIX)
  {
    NotPrefix(HostLine(host), AGENT_PREFIX, 0);
  }

  /** No line before the last is a connection line. */
  lemma OthersMissConnection(d: Decoy, session: Str, action: Str, length: nat)
    requires d.Usable()
    ensures !Hit(StartLine(d), CONNECTION_PREFIX) && !Hit(HostLine(d.host), CONNECTION_PREFIX)
    ensures !Hit(AgentLine(d.userAgent), CONNECTION_PREFIX) && !Hit(AcceptLine(), CONNECTION_PREFIX)
    ensures !Hit(TypeLine(), CONNECTION_PREFIX) && !Hit(LengthLine(length), CONNECTION_PREFIX)
    ensures !Hit(SessionLine(session), CONNECTION_PREFIX) && !Hit(ActionLine(action), CONNECTION_PREFIX)
  {
    StartMisses(d, CONNECTION_PREFIX);
    hide StartLine;
    NotPrefix(HostLine(d.host), CONNECTION_PREFIX, 0);
    NotPrefix(AgentLine(d.userAgent), CONNECTION_PREFIX, 0);
    NotPrefix(AcceptLine(), CONNECTION_PREFIX, 0);
    NotPrefix(TypeLine(), CONNECTION_PREFIX, 3);
    NotPrefix(LengthLine(length), CONNECTION_PREFIX, 3);
    NotPrefix(SessionLine(session), CONNECTION_PREFIX, 0);
    NotPrefix(ActionLine(action), CONNECTION_PREFIX, 0);
  }

  lemma StatusMissesConnection(status: Str)
    ensures !Hit(StatusLine(status), CONNECTION_PREFIX)
  {
    NotPrefix(StatusLine(status), CONNECTION_PREFIX, 0);
  }

  lemma ConnectionScan(d: Decoy, session: Str, action: Str, length: nat, keepAlive: bool, tail: Str)
    requires d.Usable() && OneLine(session) && OneLine(action)
    ensures ScanHeader(HeaderBlock(RequestLines(d, session, action, length, keepAlive)) + tail, CONNECTION_PREFIX)
            == Some(ConnectionLine(KeepOrClose(keepAlive)))
  {
    var lines := RequestLines(d, session, action, length, keepAlive);
    assert lines[..8] == [StartLine(d), HostLine(d.host), AgentLine(d.userAgent), AcceptLine(), TypeLine(),
                          SessionLine(session), ActionLine(action), LengthLine(length)];
    assert lines[8] == ConnectionLine(KeepOrClose(keepAlive));
    hide *;
    PrefixesLower();
    LinesAsFields(d, KeepOrClose(keepAlive));
    assert "Connection" + ":" == "Connection:";
    RequestLinesClean(d, session, action, length, keepAlive);
    OthersMissConnection(d, session, action, length);
    FieldHits("Connection", CONNECTION_PREFIX, KeepOrClose(keepAlive));
    forall j | 0 <= j < 8 ensures !Hit(lines[j], CONNECTION_PREFIX) {
      assert lines[j] == lines[..8][j];
      assert j == 0 || j == 1 || j == 2 || j == 3 || j == 4 || j == 5 || j == 6 || j == 7;
    }
    ScanStops(lines, tail, 8, CONNECTION_PREFIX);
  }

  /** A request says who it is for and who it comes from, */
  lemma RequestNamesHost(d: Decoy, session: Str, action: Str, length: nat, keepAlive: bool)
    requires d.Usable() && OneLine(session) && OneLine(action)
    ensures RawHeader(HeaderBlock(RequestLines(d, session, action, length, keepAlive)), "Host") == Trim(d.host)
  {
    hide *;
    HostScan(d, session, action, length, keepAlive, "");
    HostReadBack(d, HeaderBlock(RequestLines(d, session, action, length, keepAlive)));
  }

  lemma RequestNamesAgent(d: Decoy, session: Str, action: Str, length: nat, keepAlive: bool)
    requires d.Usable() && OneLine(session) && OneLine(action)
    ensures RawHeader(HeaderBlock(RequestLines(d, session, action, length, keepAlive)), "User-Agent")
            == Trim(d.userAgent)
  {
    hide *;
    AgentScan(d, session, action, length, keepAlive, "");
    AgentReadBack(d, HeaderBlock(RequestLines(d, session, action, length, keepAlive)));
  }

  /** and whether its connection is kept. */
  lemma RequestSaysConnection(d: Decoy, session: Str, action: Str, length: nat, keepAlive: bool)
    requires d.Usable() && OneLine(session) && OneLine(action)
    ensures RawHeader(HeaderBlock(RequestLines(d, session, action, length, keepAlive)), "Connection")
            == if keepAlive then "keep-alive" else "close"
  {
    hide *;
    ConnectionScan(d, session, action, length, keepAlive, "");
    ConnectionReadBack(HeaderBlock(RequestLines(d, session, action, length, keepAlive)), KeepOrClose(keepAlive));
    KeepOrCloseIsTrimmed(keepAlive);
  }

  /** In a tunnel every action but the close announces what the agent then does: the connection is
      kept exactly with connection reuse. The close announces its end. */
  lemma ActionSaysConnection(p: PolledTunnel.Params, cipher: Cipher, post: AgentLoop.Post, nonce: Str, d: Decoy)
    requires d.Usable() && OneLine(p.session) && WireTunnel.Request(p, cipher, post, nonce, d).Some?
    ensures
      RawHeader(OuterHeaders(WireTunnel.Request(p, cipher, post, nonce, d).value), "Connection") ==
      if p.reuse && post.action != AgentLoop.ActClose then "keep-alive" else "close"
    ensures
      post.action != AgentLoop.ActOpen ==>
        (AgentLoop.KeepAlive(post.action, p.reuse) <==> p.reuse && post.action != AgentLoop.ActClose)
  {
    hide RawHeader, OuterHeaders, Message, RequestLines, EncodeBody, HeaderBlock;
    var keepAlive := p.reuse && post.action != AgentLoop.ActClose;
    var body := EncodeBody(cipher, nonce, post.body).value;
    WireTunnel.NamesOnOneLine(post.action);
    RequestLinesClean(d, p.session, post.action.Name(), |body|, keepAlive);
    OuterHeadersOf(RequestLines(d, p.session, post.action.Name(), |body|, keepAlive), body);
    RequestSaysConnection(d, p.session, post.action.Name(), |body|, keepAlive);
  }

  lemma FieldReadBack(lines: seq<Str>, k: nat, name: Str, prefix: Str, value: Str)
    requires CleanLines(lines) && k < |lines| && lines[k] == name + ":" + (" " + value)
    requires ToLower(name + ":") == prefix && ToLower(name) + ":" == prefix
    requires forall j :: 0 <= j < k ==> !Hit(lines[j], prefix)
    ensures RawHeader(HeaderBlock(lines), name) == Trim(value)
  {
    hide *;
    FieldHits(name, prefix, value);
    ScanStops(lines, "", k, prefix);
    assert HeaderBlock(lines) + "" == HeaderBlock(lines);
    RawHeaderIs(HeaderBlock(lines), name, value);
  }

  /** It asks for anything, */
  lemma RequestSaysAccept(d: Decoy, session: Str, action: Str, length: nat, keepAlive: bool)
    requires d.Usable() && OneLine(session) && OneLine(action)
    ensures RawHeader(HeaderBlock(RequestLines(d, session, action, length, keepAlive)), "Accept") == "*/*"
  {
    hide *;
    FirstFive(d, session, action, length, keepAlive);
    RequestLinesClean(d, session, action, length, keepAlive);
    AcceptReadBack(d, RequestLines(d, session, action, length, keepAlive));
  }

  /** and calls its body text. */
  lemma RequestSaysType(d: Decoy, session: Str, action: Str, length: nat, keepAlive: bool)
    requires d.Usable() && OneLine(session) && OneLine(action)
    ensures RawHeader(HeaderBlock(RequestLines(d, session, action, length, keepAlive)), "Content-Type")
            == "application/text"
  {
    hide *;
    FirstFive(d, session, action, length, keepAlive);
    RequestLinesClean(d, session, action, length, keepAlive);
    TypeReadBack(d, RequestLines(d, session, action, length, keepAlive));
  }

  lemma FirstFive(d: Decoy, session: Str, action: Str, length: nat, keepAlive: bool)
    ensures
      RequestLines(d, session, action, length, keepAlive)[..5] ==
      [StartLine(d), HostLine(d.host), AgentLine(d.userAgent), AcceptLine(), TypeLine()]
    ensures
      var lines := RequestLines(d, session, action, length, keepAlive);
      && lines[0] == StartLine(d) && lines[1] == HostLine(d.host) && lines[2] == AgentLine(d.userAgent)
      && lines[3] == AcceptLine() && lines[4] == TypeLine()
  {
    hide StartLine, HostLine, AgentLine, AcceptLine, TypeLine, SessionLine, ActionLine, LengthLine, ConnectionLine;
  }

  lemma AcceptReadBack(d: Decoy, lines: seq<Str>)
    requires d.Usable() && CleanLines(lines) && |lines| >= 4
    requires lines[0] == StartLine(d) && lines[1] == HostLine(d.host) && lines[2] == AgentLine(d.userAgent)
    requires lines[3] == AcceptLine()
    ensures RawHeader(HeaderBlock(lines), "Accept") == "*/*"
  {
    hide *;
    TypesAsFields();
    TypesTrimmed();
    TypePrefixes();
    OthersMissTypes(d);
    FieldReadBack(lines, 3, "Accept", ACCEPT_PREFIX, "*/*");
  }

  lemma TypeReadBack(d: Decoy, lines: seq<Str>)
    requires d.Usable() && CleanLines(lines) && |lines| >= 5
    requires lines[0] == StartLine(d) && lines[1] == HostLine(d.host) && lines[2] == AgentLine(d.userAgent)
    requires lines[3] == AcceptLine() && lines[4] == TypeLine()
    ensures RawHeader(HeaderBlock(lines), "Content-Type") == "application/text"
  {
    hide *;
    TypesAsFields();
    TypesTrimmed();
    TypePrefixes();
    OthersMissTypes(d);
    FieldReadBack(lines, 4, "Content-Type", TYPE_PREFIX, "application/text");
  }

  const ACCEPT_PREFIX: Str := "accept:"
  const TYPE_PREFIX: Str := "content-type:"

  lemma TypesAsFields()
    ensures AcceptLine() == "Accept" + ":" + (" " + "*/*")
    ensures TypeLine() == "Content-Type" + ":" + (" " + "application/text")
  {
  }

  lemma TypesTrimmed()
    ensures Trim("*/*") == "*/*" && Trim("application/text") == "application/text"
  {
    hide Trim;
    TrimOfField("*/*");
    TrimOfField("application/text");
  }

  lemma TypePrefixes()
    ensures ToLower("Accept" + ":") == ACCEPT_PREFIX && ToLower("Accept") + ":" == ACCEPT_PREFIX
    ensures ToLower("Content-Type" + ":") == TYPE_PREFIX && ToLower("Content-Type") + ":" == TYPE_PREFIX
  {
  }

  lemma OthersMissTypes(d: Decoy)
    requires d.Usable()
    ensures !Hit(StartLine(d), ACCEPT_PREFIX) && !Hit(HostLine(d.host), ACCEPT_PREFIX)
    ensures !Hit(AgentLine(d.userAgent), ACCEPT_PREFIX)
    ensures !Hit(StartLine(d), TYPE_PREFIX) && !Hit(HostLine(d.host), TYPE_PREFIX)
    ensures !Hit(AgentLine(d.userAgent), TYPE_PREFIX) && !Hit(AcceptLine(), TYPE_PREFIX)
  {
    StartMisses(d, ACCEPT_PREFIX);
    StartMisses(d, TYPE_PREFIX);
    hide StartLine;
    NotPrefix(HostLine(d.host), ACCEPT_PREFIX, 0);
    NotPrefix(AgentLine(d.userAgent), ACCEPT_PREFIX, 0);
    NotPrefix(HostLine(d.host), TYPE_PREFIX, 0);
    NotPrefix(AgentLine(d.userAgent), TYPE_PREFIX, 0);
    NotPrefix(AcceptLine(), TYPE_PREFIX, 0);
  }

  lemma HostReadBack(d: Decoy, headers: Str)
    requires ScanHeader(headers + "", HOST_PREFIX) == Some(HostLine(d.host))
    ensures RawHeader(headers, "Host") == Trim(d.host)
  {
    hide *;
    assert headers + "" == headers;
    PrefixesLower();
    LinesAsFields(d, "");
    RawHeaderIs(headers, "Host", d.host);
  }

  lemma AgentReadBack(d: Decoy, headers: Str)
    requires ScanHeader(headers + "", AGENT_PREFIX) == Some(AgentLine(d.userAgent))
    ensures RawHeader(headers, "User-Agent") == Trim(d.userAgent)
  {
    hide *;
    assert headers + "" == headers;
    PrefixesLower();
    LinesAsFields(d, "");
    RawHeaderIs(headers, "User-Agent", d.userAgent);
  }

  lemma ConnectionReadBack(headers: Str, connection: Str)
    requires ScanHeader(headers + "", CONNECTION_PREFIX) == Some(ConnectionLine(connection))
    ensures RawHeader(headers, "Connection") == Trim(connection)
  {
    hide *;
    assert headers + "" == headers;
    PrefixesLower();
    LinesAsFields(Decoy("", "", "", "", ""), connection);
    RawHeaderIs(headers, "Connection", connection);
  }

  lemma KeepOrCloseIsTrimmed(keepAlive: bool)
    ensures Trim(KeepOrClose(keepAlive)) == if keepAlive then "keep-alive" else "close"
  {
    TrimOfField(KeepOrClose(keepAlive));
  }

  /** And the parser sees the decoy method and path. */
  lemma RequestIsTheDecoy(d: Decoy, session: Str, action: Str, keepAlive: bool, body: Str)
    requires d.Usable() && OneLine(session) && OneLine(action) && |body| <= BODY_LIMIT
    ensures Detect(Message(RequestLines(d, session, action, |body|, keepAlive), body))
            == Http(Request(d.verb, "/" + d.endPoint, body))
  {
    hide Detect, Message, HeaderBlock, ContentLength, RequestLine, ParseRequest, StartLine, CleanLines;
    var lines := RequestLines(d, session, action, |body|, keepAlive);
    RequestLinesClean(d, session, action, |body|, keepAlive);
    LengthScan(d, session, action, |body|, keepAlive, CRLF);
    ContentLengthOf(HeaderBlock(lines) + CRLF, |body|);
    RequestStarts(d, lines, body);
    ParseRequestOfMessage(lines, body, d.verb, "/" + d.endPoint);
    TextIsHttp(Message(lines, body));
  }

  /** A response says how it went; one that could not be sealed is a 500, */
  lemma ResponseSaysStatus(cipher: Cipher, nonce: Str, plain: Str, status: Str, connection: Str)
    requires OneLine(status) && OneLine(connection)
    ensures FirstLine(SealedResponse(cipher, nonce, plain, status, connection)) ==
            "HTTP/1.1 " + if cipher.seal(nonce, plain).Some? then status else "500 Internal Server Error"
  {
    hide PlainResponse, FirstLine;
    SealedOrNot(cipher, nonce, plain, status, connection);
  }

  /** and whether its connection is kept, which that one's is not. */
  lemma ResponseSaysConnection(cipher: Cipher, nonce: Str, plain: Str, status: Str, connection: Str)
    requires OneLine(status) && OneLine(connection)
    ensures RawHeader(OuterHeaders(SealedResponse(cipher, nonce, plain, status, connection)), "Connection") ==
            if cipher.seal(nonce, plain).Some? then Trim(connection) else "close"
  {
    hide PlainResponse, RawHeader, OuterHeaders, Trim;
    SealedOrNot(cipher, nonce, plain, status, connection);
    KeepOrCloseIsTrimmed(false);
  }

  /** A response with this status line and this connection line. */
  predicate Says(m: Str, status: Str, connection: Str) {
    FirstLine(m) == "HTTP/1.1 " + status && RawHeader(OuterHeaders(m), "Connection") == Trim(connection)
  }

  lemma SealedOrNot(cipher: Cipher, nonce: Str, plain: Str, status: Str, connection: Str)
    requires OneLine(status) && OneLine(connection)
    ensures
      var sealed, m := cipher.seal(nonce, plain).Some?, SealedResponse(cipher, nonce, plain, status, connection);
      Says(m, if sealed then status else "500 Internal Server Error", if sealed then connection else "close")
  {
    hide PlainResponse, FirstLine, RawHeader, OuterHeaders, Trim;
    match cipher.seal(nonce, plain)
    case Some(text) => PlainSays(text, status, connection);
    case None =>
      assert OneLine("500 Internal Server Error") && OneLine("close");
      PlainSays("", "500 Internal Server Error", "close");
  }

  lemma PlainSays(body: Str, status: Str, connection: Str)
    requires OneLine(status) && OneLine(connection)
    ensures FirstLine(PlainResponse(body, status, connection)) == "HTTP/1.1 " + status
    ensures RawHeader(OuterHeaders(PlainResponse(body, status, connection)), "Connection") == Trim(connection)
  {
    var lines := ResponseLines(status, connection, |body|);
    assert lines[0] == StatusLine(status) && lines[1] == TypeLine() && lines[2] == LengthLine(|body|);
    assert lines[3] == ConnectionLine(connection) && StatusLine(status) == "HTTP/1.1 " + status;
    assert PlainResponse(body, status, connection) == Message(lines, body);
    TypeAndLengthMissConnection(|body|);
    StatusMissesConnection(status);
    hide *;
    ResponseLinesClean(status, connection, |body|);
    var p := MessageLayout(lines, body);
    OuterHeadersOf(lines, body);
    PrefixesLower();
    LinesAsFields(Decoy("", "", "", "", ""), connection);
    assert "Connection" + ":" == "Connection:";
    FieldHits("Connection", CONNECTION_PREFIX, connection);
    ScanStops(lines, "", 3, CONNECTION_PREFIX);
    ConnectionReadBack(HeaderBlock(lines), connection);
  }

  lemma TypeAndLengthMissConnection(length: nat)
    ensures !Hit(TypeLine(), CONNECTION_PREFIX) && !Hit(LengthLine(length), CONNECTION_PREFIX)
  {
    NotPrefix(TypeLine(), CONNECTION_PREFIX, 3);
    NotPrefix(LengthLine(length), CONNECTION_PREFIX, 3);
  }
}
