/** What the server answers, and when it acts at all: its replies in terms of the request and
    of what the network did, from the bytes of the request where that says more. */
module ServerAnswers {
  import opened Bytes
  import opened Dial
  import opened HexCodec
  import opened HostPort
  import opened HttpRequest
  import opened HttpUtils
  import opened Server
  import opened Wire
  import Base64

  // ----- requests that are refused ------------------------------------------------------------------

  /** The body of a request opens under the server's token. */
  ghost predicate Opens(cipher: Cipher, raw: Str) {
    exists body: Str, text: Str ::
      RequestBody(raw) == Some(body) && Base64.Decode(body) == Some(text) && cipher.unseal(text).Some?
  }

  /** A body that is no base64, or that the cipher refuses, is answered with a 400 and touches
      nothing, whatever its headers ask for. */
  lemma SealedOtherwiseIsRefused(config: Config, cipher: Cipher, table: Table, raw: Str, env: Env, body: Str)
    requires RequestBody(raw) == Some(body)
    requires Base64.Decode(body).None? || cipher.unseal(Base64.Decode(body).value).None?
    ensures Handle(config, cipher, table, raw, env) ==
            Handled(table, PlainResponse("", "400 Bad Request", "close"), None, false)
  {
    hide RequestBody, Base64.Decode, PlainResponse, OuterHeaders, RawHeader;
  }

  /** Something that is no request at all is not answered. */
  lemma NoRequestNoAnswer(config: Config, cipher: Cipher, table: Table, raw: Str, env: Env)
    requires Detect(raw) == NotHttp || Detect(raw) == Threw
    ensures Handle(config, cipher, table, raw, env) == Handled(table, "", None, false)
  {
    hide Detect;
  }

  /** So the table changes, a destination is dialled or a direct tunnel starts only for a body
      that opens. */
  lemma OnlyOpenedBodiesAct(config: Config, cipher: Cipher, table: Table, raw: Str, env: Env)
    ensures
      var r := Handle(config, cipher, table, raw, env);
      r.table != table || r.dialed.Some? || r.connect ==> Opens(cipher, raw)
  {
    hide RequestBody, Base64.Decode, PlainResponse, OuterHeaders, RawHeader, Apply, Response;
    match RequestBody(raw)
    case None =>
    case Some(body) =>
      if Base64.Decode(body).None? || cipher.unseal(Base64.Decode(body).value).None? {
        SealedOtherwiseIsRefused(config, cipher, table, raw, env, body);
      } else {
        assert RequestBody(raw) == Some(body) && Base64.Decode(body) == Some(Base64.Decode(body).value);
      }
  }

  /** The agent reads nothing out of a refusal, nor out of a body sealed otherwise. */
  lemma RefusalReadsAsNothing(cipher: Cipher, response: Str)
    ensures DecodeResponse(cipher, PlainResponse("", "400 Bad Request", "close")) == ""
    ensures cipher.unseal(ExtractBody(response)).None? ==> DecodeResponse(cipher, response) == ""
  {
    hide ExtractBody, PlainResponse;
    RefusalHasNoBody();
  }

  lemma RefusalHasNoBody()
    ensures ExtractBody(PlainResponse("", "400 Bad Request", "close")) == ""
  {
    hide ExtractBody;
    assert OneLine("400 Bad Request") && OneLine("close");
    ResponseLinesClean("400 Bad Request", "close", 0);
    HeaderEndOfMessage(ResponseLines("400 Bad Request", "close", 0), "");
  }

  /** A body that opens to no hex is dropped by a send to a live session, and by everything that
      is no session action. */
  lemma BadHexIsDropped(config: Config, table: Table, session: Str, action: Str, message: Str, env: Env)
    requires HexToAscii(message).None?
    requires action != RECV && action != CLOSE && (action == SEND ==> table.Live(session))
    ensures Apply(config, table, session, action, message, env) == Effect(table, NoReply, None, false)
  {
    hide HexToAscii;
  }

  /** An inner request without a header end, or that is none, is refused with a 400. */
  lemma BadInnerIsRefused(config: Config, table: Table, session: Str, inner: Str, env: Env)
    requires Find(inner, HEADER_END).None? ||
             Detect(inner[..Find(inner, HEADER_END).value + 4]) == NotHttp
    ensures Forward(config, table, session, Hex(inner), env) ==
            Effect(table, Reply("", "400 Bad Request", "close"), None, false)
  {
    hide Hex, HexToAscii, Detect, Find;
    HexToAsciiInvertsHex(inner);
  }

  /** An inner request that starts like a TLS record is passed on like a plain one; a ClientHello
      that is cut off is an exception, and nothing is answered. */
  lemma InnerRecordForwarded(config: Config, table: Table, session: Str, inner: Str, env: Env)
    requires inner != "" && Find(inner, HEADER_END).Some?
    ensures inner[0] as int == 20 || inner[0] as int == 23 ==>
              Forward(config, table, session, Hex(inner), env) == Effect(table, PlainAnswer(config, env), None, false)
    ensures inner[0] as int == 22 && 6 <= Find(inner, HEADER_END).value + 4 < 43 && inner[5] as int == 1 ==>
              Forward(config, table, session, Hex(inner), env) == Effect(table, NoReply, None, false)
  {
    hide Hex, HexToAscii, Detect, Find, PlainForward;
    HexToAsciiInvertsHex(inner);
    PlainIsAnswered(config, table, env);
    var head := inner[..Find(inner, HEADER_END).value + 4];
    assert head == [head[0]] + head[1..];
    if inner[0] as int == 20 || inner[0] as int == 23 {
      OtherRecordDetected(head[1..]);
    } else if inner[0] as int == 22 && 6 <= |head| < 43 && inner[5] as int == 1 {
      CutHelloThrows(head);
    }
  }

  /** A plain request whose destination cannot be dialled is a 502; otherwise what came back is
      passed on. Neither touches a session. */
  lemma PlainRequestAnswered(config: Config, table: Table, session: Str, lines: seq<Str>, verb: Str, target: Str,
                             more: Str, env: Env)
    requires CleanLines(lines) && SmallBody(lines) && lines[0] == verb + " " + target + " " + "HTTP/1.1"
    requires Token(verb) && verb != "CONNECT" && target != "" && PathText(target)
    ensures Forward(config, table, session, Hex(Message(lines, more)), env) ==
            Effect(table, PlainAnswer(config, env), None, false)
  {
    hide Hex, HexToAscii, Detect, Find, Open, Message, HeaderBlock, PlainForward, SmallBody;
    var inner := Message(lines, more);
    HexToAsciiInvertsHex(inner);
    InnerHeaders(lines, more);
    PlainDetected(lines, verb, target);
    PlainIsAnswered(config, table, env);
  }

  function PlainAnswer(config: Config, env: Env): Reply {
    if env.reused || env.connectOk then Reply(env.forwarded, "200 OK", KeepOrClose(config.connectionReuse))
    else Reply("", "502 Bad Gateway", "close")
  }

  lemma PlainIsAnswered(config: Config, table: Table, env: Env)
    ensures PlainForward(config, table, env) == Effect(table, PlainAnswer(config, env), None, false)
  {
  }

  lemma PlainDetected(lines: seq<Str>, verb: Str, target: Str)
    requires CleanLines(lines) && SmallBody(lines) && lines[0] == verb + " " + target + " " + "HTTP/1.1"
    requires Token(verb) && target != "" && PathText(target)
    ensures Detect(Message(lines, "")) == Http(Request(verb, target, ""))
  {
    hide Detect, RequestLine, Declared, SmallBody, ParseRequest;
    SmallBodyIs(lines);
    RequestLineIs(verb, target, "HTTP/1.1");
    ParseRequestOfMessage(lines, "", verb, target);
    FirstByte(lines, "");
    assert IsTokenChar(verb[0]) && lines[0][0] == verb[0];
    TextIsHttp(Message(lines, ""));
  }

  lemma StatusDigits()
    ensures OK[..3] == "200" && BAD_GATEWAY[..3] == "502" && BAD_REQUEST[..3] == "400"
    ensures |ESTABLISHED_TEXT| > 12 && ESTABLISHED_TEXT[9..12] == "200"
    ensures |GATEWAY_TEXT| > 12 && GATEWAY_TEXT[9..12] == "502"
  {
    assert ESTABLISHED_TEXT[9..12] == [ESTABLISHED_TEXT[9], ESTABLISHED_TEXT[10], ESTABLISHED_TEXT[11]];
    assert GATEWAY_TEXT[9..12] == [GATEWAY_TEXT[9], GATEWAY_TEXT[10], GATEWAY_TEXT[11]];
  }

  /** A body its headers do not declare is read all the same, and so is one behind what looks
      like a TLS record. */
  lemma UndeclaredBodyIsRead(lines: seq<Str>, verb: Str, target: Str, body: Str)
    requires CleanLines(lines) && lines[0] == verb + " " + target + " " + "HTTP/1.1"
    requires Token(verb) && target != "" && PathText(target) && Declared(HeaderBlock(lines) + CRLF) == 0
    ensures RequestBody(Message(lines, body)) == Some(body)
  {
    hide RequestLine, Declared, ParseRequest, Detect, Message, HeaderBlock, ExtractBody;
    RequestLineIs(verb, target, "HTTP/1.1");
    HeaderEndOfMessage(lines, body);
    FirstByte(lines, body);
    assert IsTokenChar(verb[0]) && lines[0][0] == verb[0];
    TextIsHttp(Message(lines, body));
    ParseUndeclared(lines, body, verb, target);
  }

  lemma ParseUndeclared(lines: seq<Str>, body: Str, verb: Str, target: Str)
    requires CleanLines(lines) && RequestLine(lines[0]) == Some((verb, target))
    requires Declared(HeaderBlock(lines) + CRLF) == 0
    ensures ParseRequest(Message(lines, body)) == Some(Request(verb, target, ""))
  {
    hide RequestLine, Declared, Find, FirstLine, Message, HeaderBlock;
    var p := MessageLayout(lines, body);
    assert Message(lines, body)[p + 4..Min(p + 4, |Message(lines, body)|)] == "";
  }

  /** A body sent in part, or with more behind it, is read as far as declared. */
  lemma BodyIsReadAsDeclared(lines: seq<Str>, body: Str, verb: Str, target: Str)
    requires CleanLines(lines) && RequestLine(lines[0]) == Some((verb, target))
    ensures
      var declared := Declared(HeaderBlock(lines) + CRLF);
      ParseRequest(Message(lines, body)) ==
      if declared > 0x10_0000 then None else Some(Request(verb, target, body[..Min(declared, |body|)]))
  {
    hide RequestLine, Declared, Find, FirstLine, Message, HeaderBlock;
    var p := MessageLayout(lines, body);
    var m, declared := Message(lines, body), Declared(HeaderBlock(lines) + CRLF);
    assert m[p + 4..Min(p + 4 + declared, |m|)] == m[p + 4..][..Min(declared, |body|)];
  }

  lemma RecordBodyIsRead(rest: Str)
    ensures RequestBody([23 as char] + rest) == Some(ExtractBody([23 as char] + rest))
  {
    hide Detect, ExtractBody;
    OtherRecordDetected(rest);
  }

  /** Without a blank line there are no headers: such a request names no session and no action. */
  lemma NoBlankLineNoHeaders(cipher: Cipher, raw: Str)
    requires Find(raw, HEADER_END).None? && DecodeRequest(cipher, raw).Received?
    ensures DecodeRequest(cipher, raw).session == "" && DecodeRequest(cipher, raw).action == ""
  {
    hide RequestBody, Base64.Decode, Find;
  }

  // ----- session actions -----------------------------------------------------------------------------

  /** The least of four quantities. */
  predicate Least(n: nat, a: nat, b: nat, c: nat, d: nat) {
    n <= a && n <= b && n <= c && n <= d && (n == a || n == b || n == c || n == d)
  }

  /** A recv from a live session answers the prefix of what is unread whose length is the least
      of what is available, what the read returns, what is unread and the buffer size; the rest
      stays unread, and nothing else about the destination changes. */
  lemma RecvTakesTheLeast(config: Config, table: Table, session: Str, env: Env)
    requires table.Live(session)
    ensures
      var id := table.sessions[session];
      var t, e := table.targets[id], Recv(config, table, session, env);
      && e.reply.Reply? && e.reply.status[..3] == "200"
      && Least(|e.reply.plain|, env.available, env.readLength, |t.unread|, config.bufferSize)
      && e.reply.plain + e.table.targets[id].unread == t.unread
      && e.table == table.With(id, t.(unread := e.table.targets[id].unread))
  {
    StatusDigits();
  }

  /** In particular everything, if everything is available, read and fits. */
  lemma RecvTakesAll(config: Config, table: Table, session: Str, env: Env)
    requires table.Live(session)
    requires
      var n := |table.targets[table.sessions[session]].unread|;
      n <= env.available && n <= env.readLength && n <= config.bufferSize
    ensures
      var id := table.sessions[session];
      var e := Recv(config, table, session, env);
      && e.reply == Reply(table.targets[id].unread, "200 OK", KeepOrClose(config.connectionReuse))
      && e.table.targets[id].unread == ""
  {
  }

  /** A send to a live session: on success the destination has exactly the decoded bytes more
      and stays open, on failure at most a prefix of them more and is shut. */
  lemma SendWritesAll(config: Config, table: Table, session: Str, data: Str, env: Env)
    requires table.Live(session) && data != ""
    ensures
      var id := table.sessions[session];
      var t, e := table.targets[id], Send(config, table, session, Hex(data), env);
      && e.reply == Reply("", "200 OK", KeepOrClose(config.connectionReuse))
      && e.table.sessions == table.sessions
      && e.table.targets[id].open == env.writeOk
      && (env.writeOk ==> e.table.targets[id].written == t.written + data)
      && t.written <= e.table.targets[id].written <= t.written + data
      && (!env.writeOk ==> |e.table.targets[id].written| - |t.written| == Min(env.writeCut, |data|))
      && e.table.targets[id].unread == t.unread && e.table.targets[id].emitted == t.emitted
  {
    hide Hex, HexToAscii;
    HexToAsciiInvertsHex(data);
  }

  /** An empty send, which no agent posts, shuts the destination and writes nothing. */
  lemma EmptySendShuts(config: Config, table: Table, session: Str, env: Env)
    requires table.Live(session)
    ensures
      var id := table.sessions[session];
      var shut := table.With(id, table.targets[id].(open := false));
      Send(config, table, session, "", env) ==
      Effect(shut, Reply("", "200 OK", KeepOrClose(config.connectionReuse)), None, false)
  {
  }

  /** Closing shuts the session's destination and forgets the session, whether or not it is there,
      and is always answered. */
  lemma CloseAnswers(config: Config, table: Table, session: Str)
    requires table.Valid()
    ensures
      var e := Close(config, table, session);
      && e.reply == Reply("", "200 OK", KeepOrClose(config.connectionReuse)) && e.dialed.None? && !e.connect
      && e.table.sessions == table.sessions - {session} && |e.table.targets| == |table.targets|
      && (forall id :: 0 <= id < |table.targets| ==>
            e.table.targets[id] ==
            if session in table.sessions && table.sessions[session] == id then table.targets[id].(open := false)
            else table.targets[id])
  {
  }

  /** Send and recv for a session that is not live answer an empty 200 and touch nothing. */
  lemma NobodyThere(config: Config, table: Table, session: Str, message: Str, env: Env)
    requires !table.Live(session)
    ensures Send(config, table, session, message, env) == Recv(config, table, session, env)
    ensures Recv(config, table, session, env).table == table
    ensures Recv(config, table, session, env).reply == Reply("", "200 OK", KeepOrClose(config.connectionReuse))
  {
  }

  // ----- what the agent asks for ----------------------------------------------------------------------------

  /** Whatever a client sends that is a request or TLS reaches the server whole, as an open
      exactly if it is a CONNECT, over a connection announced to be kept exactly with connection
      reuse or for a direct tunnel; anything else is not sent at all. */
  lemma AgentForwardsWhole(config: Config, cipher: Cipher, nonce: Str, d: Decoy, session: Str, raw: Str)
    requires cipher.Lawful() && d.Usable() && OneLine(session) && Fits(cipher, nonce, raw)
    ensures
      var m := AgentRequest(cipher, nonce, d, session, config, raw);
      var connects := Detect(raw).Http? && Detect(raw).request.verb == "CONNECT";
      && (m.None? <==> Detect(raw) == Threw || Detect(raw) == NotHttp)
      && (Sendable(m) ==>
            DecodeRequest(cipher, m.value) == Received(Trim(session), if connects then "open" else "request", Hex(raw)))
      && (m.Some? ==>
            exists body: Str :: m.value == Message(
              RequestLines(d, session, if connects then "open" else "request", |body|,
                           config.connectionReuse || (config.tunnelEnable && connects)), body))
  {
    hide Detect, EncodeBody, DecodeRequest, Message, RequestLines, Trim, Hex, HexToAscii, Fits;
    FitsIsSealed(cipher, nonce, raw);
    ActionsTrimmed();
    var connects := Detect(raw).Http? && Detect(raw).request.verb == "CONNECT";
    var action := if connects then OPEN else REQUEST;
    var keepAlive := config.connectionReuse || (config.tunnelEnable && connects);
    var m := AgentRequest(cipher, nonce, d, session, config, raw);
    if m.Some? {
      var body := EncodeBody(cipher, nonce, raw).value;
      assert m.value == Message(RequestLines(d, session, action, |body|, keepAlive), body);
      if Sendable(m) {
        RequestRoundTrip(cipher, nonce, d, session, action, keepAlive, raw);
      }
    }
  }

  lemma FitsIsSealed(cipher: Cipher, nonce: Str, raw: Str)
    requires Fits(cipher, nonce, raw)
    ensures EncodeBody(cipher, nonce, raw).Some?
  {
  }

  lemma ActionsTrimmed()
    ensures OneLine(OPEN) && Trim(OPEN) == OPEN == "open"
    ensures OneLine(REQUEST) && Trim(REQUEST) == REQUEST == "request"
  {
    TrimOfField(OPEN);
    TrimOfField(REQUEST);
  }

  // ----- the open ---------------------------------------------------------------------------------------

  /** The client is told 200 exactly when the dial succeeded, and 502 otherwise; a direct tunnel
      starts exactly for a successful dial in that mode, and a session is filed exactly for one
      in the other, with the early data handed over. */
  lemma OpenTellsTheTruth(config: Config, table: Table, session: Str, to: Endpoint, pending: Str, env: Env)
    ensures
      var e := Open(config, table, session, to, pending, env);
      && e.dialed == Some(to) && e.reply.Reply?
      && (e.reply.status[..3] == "200" <==> env.connectOk) && (e.reply.status[..3] == "502" <==> !env.connectOk)
      && |e.reply.plain| > 12 && e.reply.plain[9..12] == e.reply.status[..3]
      && (e.connect <==> env.connectOk && config.tunnelEnable)
      && (!env.connectOk || config.tunnelEnable ==> e.table == table)
      && (env.connectOk && !config.tunnelEnable ==>
            var key, id := KeyOf(session, env), |table.targets|;
            && e.table.sessions == table.sessions[key := id]
            && |e.table.targets| == id + 1 && e.table.targets[..id] == table.targets
            && (e.table.Live(key) <==> pending == "" || env.writeOk)
            && e.table.targets[id].written <= pending
            && (env.writeOk ==> e.table.targets[id].written == pending)
            && e.table.targets[id].unread == "" && e.table.targets[id].emitted == "")
  {
    StatusDigits();
  }

  /** A session without a name of its own is filed under the connection's. */
  lemma KeyIsNeverEmpty(session: Str, env: Env)
    requires env.uuid != ""
    ensures KeyOf(session, env) != "" && (session != "" ==> KeyOf(session, env) == session)
  {
  }

  /** Through the wire and back: the agent of a client's CONNECT, http or synthesised, reads a
      200 out of the response exactly when the server's dial succeeded, and a 502 otherwise. */
  lemma AgentToldTheTruth(config: Config, cipher: Cipher, nonce: Str, d: Decoy, session: Str,
                          lines: seq<Str>, target: Str, early: Str, table: Table, env: Env)
    requires cipher.Lawful() && d.Usable() && OneLine(session) && ConnectLines(lines, target)
    requires Fits(cipher, nonce, Message(lines, early))
    requires AlwaysSeals(cipher, env.nonce)
    ensures
      var m := AgentRequest(cipher, nonce, d, session, config, Message(lines, early));
      Sendable(m) ==>
        var r := Handle(config, cipher, table, m.value, env);
        |r.response| <= MAX_SIZE ==>
          var told := DecodeResponse(cipher, r.response);
          && |told| > 12
          && (told[9..12] == "200" <==> env.connectOk) && (told[9..12] == "502" <==> !env.connectOk)
  {
    hide AgentRequest, Handle, Fits, Message, Open, SealedResponse, DecodeResponse, ConnectLines, Destination, Trim;
    var m := AgentRequest(cipher, nonce, d, session, config, Message(lines, early));
    OpenReachesServer(config, cipher, nonce, d, session, lines, target, early, table, env);
    OpenTellsTheTruth(config, table, Trim(session), Destination(target), early, env);
    var e := Open(config, table, Trim(session), Destination(target), early, env);
    OpenRepliesOnOneLine(config, table, Trim(session), Destination(target), early, env);
    if Sendable(m) && |Handle(config, cipher, table, m.value, env).response| <= MAX_SIZE {
      ResponseRoundTrip(cipher, env.nonce, e.reply.plain, e.reply.status, e.reply.connection);
    }
  }

  ghost predicate AlwaysSeals(cipher: Cipher, nonce: Str) {
    forall plain: Str :: cipher.seal(nonce, plain).Some?
  }

  lemma OpenRepliesOnOneLine(config: Config, table: Table, session: Str, to: Endpoint, pending: Str, env: Env)
    ensures
      var reply := Open(config, table, session, to, pending, env).reply;
      reply.Reply? && OneLine(reply.status) && OneLine(reply.connection)
  {
    hide WriteTo, OneLine;
    OpenLines();
  }

  lemma OpenLines()
    ensures OneLine(OK) && OneLine(BAD_GATEWAY) && OneLine("close") && OneLine("keep-alive")
  {
  }
}
