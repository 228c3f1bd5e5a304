/** The messages between agent and server: hex, seal, base64 and HTTP on the way up, seal
    and HTTP on the way down. */
module Wire {
  import opened Bytes
  import opened HexCodec
  import opened HttpUtils
  import opened HttpRequest
  import opened Readers
  import opened Streams
  import Base64

  /** `aes256Encrypt` and `aes256Decrypt` under one token. The nonce is the random IV; `None`
      is `ok == false`, or the exception for an input too short to hold an IV. */
  datatype Cipher = Cipher(seal: (Str, Str) -> Option<Str>, unseal: Str -> Option<Str>) {
    /** The only law assumed: unsealing undoes sealing. The IV keeps sealed text non-empty. */
    ghost predicate Lawful() {
      forall nonce: Str, plain: Str :: seal(nonce, plain).Some? ==>
        seal(nonce, plain).value != "" && unseal(seal(nonce, plain).value) == Some(plain)
    }

    /** What sealing adds: the IV and the padding, 16 bytes each at most. */
    ghost predicate Compact() {
      forall nonce: Str, plain: Str :: seal(nonce, plain).Some? ==> |seal(nonce, plain).value| <= |plain| + 32
    }
  }

  /** The random decoy parts of a request, drawn from the configuration. */
  datatype Decoy = Decoy(verb: Str, endPoint: Str, httpVersion: Str, host: Str, userAgent: Str) {
    /** Beast accepts the request line, and no value breaks out of its header line. */
    predicate Usable() {
      && Token(verb) && PathText(endPoint)
      && (httpVersion == "1.1" || httpVersion == "1.0")
      && OneLine(host) && OneLine(userAgent)
    }
  }

  predicate OneLine(value: Str) {
    CR !in value && LF !in value
  }

  const SESSION: Str := "X-Nipo-Session"
  const ACTION: Str := "X-Nipo-Action"

  // The values of the action header.
  const OPEN: Str := "open"
  const REQUEST: Str := "request"
  const SEND: Str := "send"
  const RECV: Str := "recv"
  const CLOSE: Str := "close"

  // The header lines, one writer each.

  function StartLine(d: Decoy): Str {
    d.verb + " " + ("/" + d.endPoint) + " " + ("HTTP/" + d.httpVersion)
  }

  function HostLine(host: Str): Str { "Host: " + host }

  function AgentLine(userAgent: Str): Str { "User-Agent: " + userAgent }

  function AcceptLine(): Str { "Accept: */*" }

  function TypeLine(): Str { "Content-Type: application/text" }

  function SessionLine(session: Str): Str { "X-Nipo-Session:" + (" " + session) }

  function ActionLine(action: Str): Str { "X-Nipo-Action:" + (" " + action) }

  function LengthLine(length: nat): Str { "Content-Length:" + (" " + Decimal(length)) }

  function ConnectionLine(connection: Str): Str { "Connection: " + connection }

  function KeepOrClose(keepAlive: bool): Str {
    if keepAlive then "keep-alive" else "close"
  }

  function RequestLines(d: Decoy, session: Str, action: Str, length: nat, keepAlive: bool): (r: seq<Str>)
    ensures |r| == 9
  {
    [ StartLine(d), HostLine(d.host), AgentLine(d.userAgent), AcceptLine(), TypeLine(),
      SessionLine(session), ActionLine(action), LengthLine(length), ConnectionLine(KeepOrClose(keepAlive)) ]
  }

  /** A raw body as it travels up: hex, seal, base64; `None` when sealing fails. */
  function EncodeBody(cipher: Cipher, nonce: Str, rawBody: Str): Option<Str> {
    match cipher.seal(nonce, Hex(rawBody)) case None => None case Some(text) => Some(Base64.Encode(text))
  }

  /** The request `postTunnelAction` and `AgentHandler::handle` write for a raw body. */
  function EncodeRequest(cipher: Cipher, nonce: Str, d: Decoy, session: Str, action: Str,
                         keepAlive: bool, rawBody: Str): Option<Str> {
    match EncodeBody(cipher, nonce, rawBody)
    case None => None
    case Some(body) => Some(Message(RequestLines(d, session, action, |body|, keepAlive), body))
  }

  /** The server's parser takes the encoded body. */
  predicate Fits(cipher: Cipher, nonce: Str, rawBody: Str) {
    match EncodeBody(cipher, nonce, rawBody) case None => false case Some(body) => |body| <= BODY_LIMIT
  }

  function StatusLine(status: Str): Str { "HTTP/1.1 " + status }

  function ResponseLines(status: Str, connection: Str, length: nat): (r: seq<Str>)
    ensures |r| == 4
  {
    [StatusLine(status), TypeLine(), LengthLine(length), ConnectionLine(connection)]
  }

  /** `makePlainHttpResponse`. */
  function PlainResponse(body: Str, status: Str, connection: Str): Str {
    Message(ResponseLines(status, connection, |body|), body)
  }

  /** `makeEncryptedHttpResponse`. */
  function SealedResponse(cipher: Cipher, nonce: Str, plain: Str, status: Str, connection: Str): Str {
    match cipher.seal(nonce, plain)
    case None => PlainResponse("", "500 Internal Server Error", "close")
    case Some(text) => PlainResponse(text, status, connection)
  }

  /** What `ServerHandler::handle` has in hand before it looks at the action. `Dropped` is a
      request that is not HTTP, or an exception: no response is written. */
  datatype Received = Dropped | Refused | Received(session: Str, action: Str, message: Str)

  function RequestBody(raw: Str): Option<Str> {
    match Detect(raw)
    case Threw => None
    case NotHttp => None
    case Tls(_) => Some(ExtractBody(raw))
    case Http(request) => Some(if request.body == "" then ExtractBody(raw) else request.body)
  }

  function OuterHeaders(raw: Str): Str {
    match Find(raw, HEADER_END) case None => "" case Some(p) => raw[..p + 2]
  }

  function DecodeRequest(cipher: Cipher, raw: Str): Received {
    match RequestBody(raw)
    case None => Dropped
    case Some(body) =>
      match Base64.Decode(body)
      case None => Refused
      case Some(text) =>
        match cipher.unseal(text)
        case None => Refused
        case Some(message) =>
          var headers := OuterHeaders(raw);
          Received(RawHeader(headers, SESSION), RawHeader(headers, ACTION), message)
  }

  /** The end of `postTunnelAction`: the plain body of a response, or "". */
  function DecodeResponse(cipher: Cipher, response: Str): Str {
    var body := ExtractBody(response);
    if body == "" then ""
    else match cipher.unseal(body) case None => "" case Some(plain) => plain
  }

  // ----- the header lines ---------------------------------------------------------------------

  lemma NotPrefix(line: Str, prefix: Str, i: nat)
    requires i < |prefix| && i < |line| && LowerChar(line[i]) != prefix[i]
    ensures !StartsWith(ToLower(line), prefix)
  {
    if |prefix| <= |line| {
      assert ToLower(line)[0..|prefix|][i] == LowerChar(line[i]);
    }
  }

  lemma IsPrefix(name: Str, prefix: Str, value: Str)
    requires |name| == |prefix| && ToLower(name) == prefix
    ensures StartsWith(ToLower(name + value), prefix)
  {
    assert ToLower(name + value)[0..|prefix|] == prefix;
  }

  /** The verb holds no colon, so the request line is no header. */
  lemma RequestLineIsNoHeader(verb: Str, rest: Str, prefix: Str)
    requires ':' !in verb && |prefix| > 0 && prefix[|prefix| - 1] == ':' && ' ' !in prefix
    ensures !StartsWith(ToLower(verb + " " + rest), prefix)
  {
    var line := verb + " " + rest;
    if |verb| < |prefix| {
      assert line[|verb|] == ' ';
      NotPrefix(line, prefix, |verb|);
    } else {
      assert line[|prefix| - 1] == verb[|prefix| - 1];
      NotPrefix(line, prefix, |prefix| - 1);
    }
  }

  lemma CleanField(name: Str, value: Str)
    requires name != "" && OneLine(name) && OneLine(value)
    ensures CleanLine(name + value)
  {
  }

  lemma StartLineClean(d: Decoy)
    requires d.Usable()
    ensures CleanLine(StartLine(d))
  {
    var rest := " " + ("/" + d.endPoint) + " " + ("HTTP/" + d.httpVersion);
    NoBlanks(d.verb, d.endPoint);
    CleanField(d.verb, rest);
    assert StartLine(d) == d.verb + rest;
  }

  lemma DecoyLinesClean(d: Decoy)
    requires d.Usable()
    ensures CleanLine(StartLine(d)) && CleanLine(HostLine(d.host)) && CleanLine(AgentLine(d.userAgent))
  {
    hide CleanLine;
    StartLineClean(d);
    CleanField("Host: ", d.host);
    CleanField("User-Agent: ", d.userAgent);
  }

  lemma AcceptLineClean()
    ensures CleanLine(AcceptLine())
  {
  }

  lemma TypeLineClean()
    ensures CleanLine(TypeLine())
  {
  }

  lemma FixedLinesClean(keepAlive: bool)
    ensures CleanLine(AcceptLine()) && CleanLine(TypeLine())
    ensures OneLine(KeepOrClose(keepAlive)) && CleanLine(ConnectionLine(KeepOrClose(keepAlive)))
  {
    hide CleanLine;
    AcceptLineClean();
    TypeLineClean();
    CleanField("Connection: ", KeepOrClose(keepAlive));
  }

  lemma NipoLinesClean(session: Str, action: Str)
    requires OneLine(session) && OneLine(action)
    ensures CleanLine(SessionLine(session)) && CleanLine(ActionLine(action))
  {
    CleanField("X-Nipo-Session:", " " + session);
    CleanField("X-Nipo-Action:", " " + action);
  }

  lemma LengthLineClean(length: nat)
    ensures CleanLine(LengthLine(length))
  {
    DecimalHasNo(length, CR);
    DecimalHasNo(length, LF);
    CleanField("Content-Length:", " " + Decimal(length));
  }

  lemma RequestLinesClean(d: Decoy, session: Str, action: Str, length: nat, keepAlive: bool)
    requires d.Usable() && OneLine(session) && OneLine(action)
    ensures CleanLines(RequestLines(d, session, action, length, keepAlive))
  {
    DecoyLinesClean(d);
    FixedLinesClean(keepAlive);
    NipoLinesClean(session, action);
    LengthLineClean(length);
    hide CleanLine, StartLine, HostLine, AgentLine, AcceptLine, TypeLine, SessionLine, ActionLine, LengthLine,
      ConnectionLine;
  }

  lemma ResponseLinesClean(status: Str, connection: Str, length: nat)
    requires OneLine(status) && OneLine(connection)
    ensures CleanLines(ResponseLines(status, connection, length))
  {
    CleanField("HTTP/1.1 ", status);
    FixedLinesClean(true);
    LengthLineClean(length);
    CleanField("Connection: ", connection);
    assert CleanLine(StatusLine(status)) && CleanLine(ConnectionLine(connection));
    hide CleanLine, TypeLine, StatusLine, LengthLine, ConnectionLine;
  }

  // ----- which header line a scan stops at ------------------------------------------------------

  const PREFIX_SESSION: Str := "x-nipo-session:"
  const PREFIX_ACTION: Str := "x-nipo-action:"

  /** The three names the server and the readers look for. */
  predicate Looked(prefix: Str) {
    prefix == PREFIX_SESSION || prefix == PREFIX_ACTION || prefix == CONTENT_LENGTH
  }

  predicate Hit(line: Str, prefix: Str) {
    StartsWith(ToLower(line), prefix)
  }

  lemma LookedShape(prefix: Str)
    requires Looked(prefix)
    ensures |prefix| >= 14 && prefix[|prefix| - 1] == ':' && ' ' !in prefix
    ensures prefix[0] == 'x' || prefix[0] == 'c'
  {
  }

  lemma StartLineMisses(d: Decoy, prefix: Str)
    requires d.Usable() && Looked(prefix)
    ensures !Hit(StartLine(d), prefix)
  {
    LookedShape(prefix);
    NoBlanks(d.verb, d.endPoint);
    RequestLineIsNoHeader(d.verb, ("/" + d.endPoint) + " " + ("HTTP/" + d.httpVersion), prefix);
    assert StartLine(d) == d.verb + " " + (("/" + d.endPoint) + " " + ("HTTP/" + d.httpVersion));
  }

  lemma DecoyLinesMiss(d: Decoy, prefix: Str)
    requires Looked(prefix)
    ensures !Hit(HostLine(d.host), prefix) && !Hit(AgentLine(d.userAgent), prefix) && !Hit(AcceptLine(), prefix)
  {
    LookedShape(prefix);
    NotPrefix(HostLine(d.host), prefix, 0);
    NotPrefix(AgentLine(d.userAgent), prefix, 0);
    NotPrefix(AcceptLine(), prefix, 0);
  }

  lemma TypeLineMisses(prefix: Str)
    requires Looked(prefix)
    ensures !Hit(TypeLine(), prefix)
  {
    NotPrefix(TypeLine(), prefix, if prefix == CONTENT_LENGTH then 8 else 0);
  }

  lemma StatusLineMisses(status: Str)
    ensures !Hit(StatusLine(status), CONTENT_LENGTH)
  {
    NotPrefix(StatusLine(status), CONTENT_LENGTH, 0);
  }

  lemma NipoLinesMiss(session: Str, action: Str)
    ensures !Hit(SessionLine(session), PREFIX_ACTION)
    ensures !Hit(SessionLine(session), CONTENT_LENGTH) && !Hit(ActionLine(action), CONTENT_LENGTH)
  {
    NotPrefix(SessionLine(session), PREFIX_ACTION, 7);
    NotPrefix(SessionLine(session), CONTENT_LENGTH, 0);
    NotPrefix(ActionLine(action), CONTENT_LENGTH, 0);
  }

  lemma NamesLower()
    ensures ToLower("X-Nipo-Session:") == PREFIX_SESSION && ToLower(SESSION) + ":" == PREFIX_SESSION
    ensures ToLower("X-Nipo-Action:") == PREFIX_ACTION && ToLower(ACTION) + ":" == PREFIX_ACTION
    ensures ToLower("Content-Length:") == CONTENT_LENGTH
  {
  }

  lemma NipoLinesHit(session: Str, action: Str)
    ensures Hit(SessionLine(session), PREFIX_SESSION) && Hit(ActionLine(action), PREFIX_ACTION)
  {
    NamesLower();
    IsPrefix("X-Nipo-Session:", PREFIX_SESSION, " " + session);
    IsPrefix("X-Nipo-Action:", PREFIX_ACTION, " " + action);
  }

  lemma LengthLineHits(length: nat)
    ensures Hit(LengthLine(length), CONTENT_LENGTH)
  {
    NamesLower();
    IsPrefix("Content-Length:", CONTENT_LENGTH, " " + Decimal(length));
  }

  lemma ScanStops(lines: seq<Str>, tail: Str, k: nat, prefix: Str)
    requires CleanLines(lines) && k < |lines|
    requires forall j :: 0 <= j < k ==> !Hit(lines[j], prefix)
    requires Hit(lines[k], prefix)
    ensures ScanHeader(HeaderBlock(lines) + tail, prefix) == Some(lines[k])
  {
    assert forall j :: 0 <= j < k ==> !StartsWith(ToLower(lines[j]), prefix) by {
      forall j | 0 <= j < k ensures !StartsWith(ToLower(lines[j]), prefix) {
        assert !Hit(lines[j], prefix);
      }
    }
    ScanFinds(lines, tail, k, prefix);
  }

  lemma FirstFiveMiss(d: Decoy, session: Str, action: Str, length: nat, keepAlive: bool, prefix: Str)
    requires d.Usable() && Looked(prefix)
    ensures forall j :: 0 <= j < 5 ==> !Hit(RequestLines(d, session, action, length, keepAlive)[j], prefix)
  {
    var lines := RequestLines(d, session, action, length, keepAlive);
    StartLineMisses(d, prefix);
    DecoyLinesMiss(d, prefix);
    TypeLineMisses(prefix);
    hide Hit, Looked, StartLine, HostLine, AgentLine, AcceptLine, TypeLine, SessionLine, ActionLine, LengthLine,
      ConnectionLine;
    forall j | 0 <= j < 5 ensures !Hit(lines[j], prefix) {
      assert j == 0 || j == 1 || j == 2 || j == 3 || j == 4;
    }
  }

  /** The server and the readers find the session, action and length lines of a request. */
  lemma SessionScan(d: Decoy, session: Str, action: Str, length: nat, keepAlive: bool, tail: Str)
    requires d.Usable() && OneLine(session) && OneLine(action)
    ensures ScanHeader(HeaderBlock(RequestLines(d, session, action, length, keepAlive)) + tail, PREFIX_SESSION)
            == Some(SessionLine(session))
  {
    var lines := RequestLines(d, session, action, length, keepAlive);
    assert lines[5] == SessionLine(session);
    assert Looked(PREFIX_SESSION);
    hide *;
    RequestLinesClean(d, session, action, length, keepAlive);
    FirstFiveMiss(d, session, action, length, keepAlive, PREFIX_SESSION);
    NipoLinesHit(session, action);
    ScanStops(lines, tail, 5, PREFIX_SESSION);
  }

  lemma ActionScan(d: Decoy, session: Str, action: Str, length: nat, keepAlive: bool, tail: Str)
    requires d.Usable() && OneLine(session) && OneLine(action)
    ensures ScanHeader(HeaderBlock(RequestLines(d, session, action, length, keepAlive)) + tail, PREFIX_ACTION)
            == Some(ActionLine(action))
  {
    var lines := RequestLines(d, session, action, length, keepAlive);
    assert lines[5] == SessionLine(session) && lines[6] == ActionLine(action);
    assert Looked(PREFIX_ACTION);
    hide *;
    RequestLinesClean(d, session, action, length, keepAlive);
    FirstFiveMiss(d, session, action, length, keepAlive, PREFIX_ACTION);
    NipoLinesMiss(session, action);
    NipoLinesHit(session, action);
    ScanStops(lines, tail, 6, PREFIX_ACTION);
  }

  lemma LengthScan(d: Decoy, session: Str, action: Str, length: nat, keepAlive: bool, tail: Str)
    requires d.Usable() && OneLine(session) && OneLine(action)
    ensures ScanHeader(HeaderBlock(RequestLines(d, session, action, length, keepAlive)) + tail, CONTENT_LENGTH)
            == Some(LengthLine(length))
  {
    var lines := RequestLines(d, session, action, length, keepAlive);
    assert lines[5] == SessionLine(session) && lines[6] == ActionLine(action) && lines[7] == LengthLine(length);
    assert Looked(CONTENT_LENGTH);
    hide *;
    RequestLinesClean(d, session, action, length, keepAlive);
    FirstFiveMiss(d, session, action, length, keepAlive, CONTENT_LENGTH);
    NipoLinesMiss(session, action);
    LengthLineHits(length);
    ScanStops(lines, tail, 7, CONTENT_LENGTH);
  }

  lemma ResponseScan(status: Str, connection: Str, length: nat, tail: Str)
    requires OneLine(status) && OneLine(connection)
    ensures ScanHeader(HeaderBlock(ResponseLines(status, connection, length)) + tail, CONTENT_LENGTH)
            == Some(LengthLine(length))
  {
    var lines := ResponseLines(status, connection, length);
    assert lines[0] == StatusLine(status) && lines[1] == TypeLine() && lines[2] == LengthLine(length);
    assert Looked(CONTENT_LENGTH);
    hide *;
    ResponseLinesClean(status, connection, length);
    StatusLineMisses(status);
    TypeLineMisses(CONTENT_LENGTH);
    LengthLineHits(length);
    ScanStops(lines, tail, 2, CONTENT_LENGTH);
  }

  /** The declared length is read back for any size a `size_t` holds. */
  lemma LengthLineValue(length: nat)
    requires length <= MAX_SIZE
    ensures |LengthLine(length)| >= 15
    ensures Stoull(TrimFront(LengthLine(length)[15..])) == Some(length)
  {
    var s := " " + Decimal(length);
    assert LengthLine(length)[15..] == s && s[1..] == Decimal(length);
    var digits := Decimal(length);
    assert IsDigit(digits[0]);
    LeadingIntOfDecimal(length);
    hide Decimal, LeadingInt;
    assert TrimFront(s) == TrimFront(digits) == digits;
  }

  lemma ContentLengthOf(headers: Str, length: nat)
    requires length <= MAX_SIZE
    requires ScanHeader(headers, CONTENT_LENGTH) == Some(LengthLine(length))
    ensures ContentLength(headers) == Some(length)
  {
    LengthLineValue(length);
    hide ScanHeader, LengthLine, TrimFront, Stoull;
  }

  // ----- round trips --------------------------------------------------------------------------------

  lemma MessageFrame(lines: seq<Str>, body: Str)
    requires CleanLines(lines) && ContentLength(HeaderBlock(lines) + CRLF) == Some(|body|)
    ensures FrameEnd(Message(lines, body)) == Some(|Message(lines, body)|)
  {
    hide *;
    var p := MessageLayout(lines, body);
    FrameEndIs(Message(lines, body), p, |body|);
  }

  lemma FrameEndIs(stream: Str, p: nat, length: nat)
    requires Find(stream, HEADER_END) == Some(p)
    requires ContentLength(stream[..p + 4]) == Some(length)
    ensures FrameEnd(stream) == Some(p + 4 + length)
  {
    hide Find, ContentLength;
  }

  /** A request is one frame; Beast accepts it exactly if its body is within the limit, and
      then its body and headers come back. */
  lemma RequestFrame(d: Decoy, session: Str, action: Str, keepAlive: bool, body: Str)
    requires d.Usable() && OneLine(session) && OneLine(action) && |body| <= MAX_SIZE
    ensures
      var m := Message(RequestLines(d, session, action, |body|, keepAlive), body);
      && FrameEnd(m) == Some(|m|)
      && RequestBody(m) == (if |body| <= BODY_LIMIT then Some(body) else None)
      && OuterHeaders(m) == HeaderBlock(RequestLines(d, session, action, |body|, keepAlive))
  {
    var lines := RequestLines(d, session, action, |body|, keepAlive);
    var m := Message(lines, body);
    RequestLinesClean(d, session, action, |body|, keepAlive);
    LengthScan(d, session, action, |body|, keepAlive, CRLF);
    ContentLengthOf(HeaderBlock(lines) + CRLF, |body|);
    MessageFrame(lines, body);
    HeaderEndOfMessage(lines, body);
    assert lines[0] == StartLine(d);
    RequestStarts(d, lines, body);
    OuterHeadersOf(lines, body);
    RequestBodyOf(d, lines, body);
  }

  lemma OuterHeadersOf(lines: seq<Str>, body: Str)
    requires CleanLines(lines)
    ensures OuterHeaders(Message(lines, body)) == HeaderBlock(lines)
  {
    HeaderEndOfMessage(lines, body);
    assert Message(lines, body)[..|HeaderBlock(lines)|] == HeaderBlock(lines);
  }

  lemma RequestStarts(d: Decoy, lines: seq<Str>, body: Str)
    requires d.Usable() && lines != [] && lines[0] == StartLine(d)
    ensures Message(lines, body) != "" && Message(lines, body)[0] == d.verb[0]
    ensures d.verb[0] as int >= 32
    ensures RequestLine(StartLine(d)) == Some((d.verb, "/" + d.endPoint))
  {
    hide RequestLine;
    assert IsTokenChar(d.verb[0]);
    assert StartLine(d)[0] == d.verb[0];
    assert HeaderBlock(lines)[0] == StartLine(d)[0];
    RequestLineIs(d.verb, "/" + d.endPoint, "HTTP/" + d.httpVersion);
  }

  lemma RequestBodyOf(d: Decoy, lines: seq<Str>, body: Str)
    requires d.Usable() && CleanLines(lines) && lines[0] == StartLine(d)
    requires ContentLength(HeaderBlock(lines) + CRLF) == Some(|body|)
    ensures RequestBody(Message(lines, body)) == if |body| <= BODY_LIMIT then Some(body) else None
  {
    RequestStarts(d, lines, body);
    HeaderEndOfMessage(lines, body);
    ParseRequestOfMessage(lines, body, d.verb, "/" + d.endPoint);
    TextIsHttp(Message(lines, body));
    hide Message, Detect, StartLine, HeaderBlock, ContentLength, ExtractBody, RequestLine;
  }

  lemma HeadersReadBack(d: Decoy, session: Str, action: Str, length: nat, keepAlive: bool)
    requires d.Usable() && OneLine(session) && OneLine(action)
    ensures RawHeader(HeaderBlock(RequestLines(d, session, action, length, keepAlive)), SESSION) == Trim(session)
    ensures RawHeader(HeaderBlock(RequestLines(d, session, action, length, keepAlive)), ACTION) == Trim(action)
  {
    var headers := HeaderBlock(RequestLines(d, session, action, length, keepAlive));
    assert headers + "" == headers;
    NamesLower();
    assert SessionLine(session) == SESSION + ":" + (" " + session);
    assert ActionLine(action) == ACTION + ":" + (" " + action);
    hide *;
    SessionScan(d, session, action, length, keepAlive, "");
    ActionScan(d, session, action, length, keepAlive, "");
    RawHeaderIs(headers, SESSION, session);
    RawHeaderIs(headers, ACTION, action);
  }

  lemma RawHeaderIs(headers: Str, name: Str, value: Str)
    requires ScanHeader(headers, ToLower(name) + ":") == Some(name + ":" + (" " + value))
    ensures RawHeader(headers, name) == Trim(value)
  {
    FieldValue(name, value);
    hide ScanHeader, ToLower, Trim;
  }

  lemma FieldValue(name: Str, value: Str)
    ensures (name + ":" + (" " + value))[|name| + 1..] == " " + value
    ensures Trim(" " + value) == Trim(value)
  {
    TrimOfField(value);
  }

  /** The way up: for any raw body, blank lines included, the server recovers the session,
      the action and, once unsealed and unhexed, the body, exactly if the encoded body is
      within Beast's limit; beyond it the request is dropped. */
  lemma RequestRoundTrip(cipher: Cipher, nonce: Str, d: Decoy, session: Str, action: Str, keepAlive: bool, rawBody: Str)
    requires cipher.Lawful() && d.Usable() && OneLine(session) && OneLine(action)
    requires var m := EncodeRequest(cipher, nonce, d, session, action, keepAlive, rawBody);
             m.Some? && |m.value| <= MAX_SIZE
    ensures
      var m := EncodeRequest(cipher, nonce, d, session, action, keepAlive, rawBody).value;
      && FrameEnd(m) == Some(|m|)
      && DecodeRequest(cipher, m) ==
         (if Fits(cipher, nonce, rawBody) then Received(Trim(session), Trim(action), Hex(rawBody)) else Dropped)
      && HexToAscii(Hex(rawBody)) == Some(rawBody)
  {
    var text := cipher.seal(nonce, Hex(rawBody)).value;
    var body := Base64.Encode(text);
    assert |body| <= |Message(RequestLines(d, session, action, |body|, keepAlive), body)|;
    RequestFrame(d, session, action, keepAlive, body);
    HeadersReadBack(d, session, action, |body|, keepAlive);
    Base64.DecodeInvertsEncode(text);
    HexToAsciiInvertsHex(rawBody);
    hide Message, RequestLines, HeaderBlock, FrameEnd, RequestBody, OuterHeaders, RawHeader, Trim, HexToAscii, Hex,
      Base64.Encode, Base64.Decode;
  }

  /** A cipher that satisfies both assumptions: one byte in front, taken off again. */
  const PREFIX_CIPHER: Cipher :=
    Cipher((nonce: Str, plain: Str) => Some("!" + plain), (text: Str) => if text == "" then None else Some(text[1..]))

  lemma PrefixCipherIsLawful()
    ensures PREFIX_CIPHER.Lawful() && PREFIX_CIPHER.Compact()
  {
    forall nonce: Str, plain: Str ensures PREFIX_CIPHER.unseal(PREFIX_CIPHER.seal(nonce, plain).value) == Some(plain) {
      assert ("!" + plain)[1..] == plain;
    }
  }

  lemma PrefixLimit(rawBody: Str)
    ensures EncodeBody(PREFIX_CIPHER, "", rawBody).Some?
    ensures Fits(PREFIX_CIPHER, "", rawBody) <==> |rawBody| <= 393215
  {
    hide Hex, Base64.Encode;
    Base64.EncodeShape("!" + Hex(rawBody));
  }

  /** The limit in bytes of raw body, with that cipher: one byte more does not come back. */
  lemma LongBodyDropped(d: Decoy, session: Str, action: Str, keepAlive: bool, rawBody: Str)
    requires d.Usable() && OneLine(session) && OneLine(action)
    ensures Fits(PREFIX_CIPHER, "", rawBody) <==> |rawBody| <= 393215
    ensures
      var m := EncodeRequest(PREFIX_CIPHER, "", d, session, action, keepAlive, rawBody);
      && m.Some?
      && (|m.value| <= MAX_SIZE ==> (DecodeRequest(PREFIX_CIPHER, m.value) == Dropped <==> |rawBody| > 393215))
  {
    hide Hex, Base64.Encode, Message, RequestLines, DecodeRequest, Fits, FrameEnd, PREFIX_CIPHER;
    PrefixCipherIsLawful();
    PrefixLimit(rawBody);
    var m := EncodeRequest(PREFIX_CIPHER, "", d, session, action, keepAlive, rawBody);
    if |m.value| <= MAX_SIZE {
      RequestRoundTrip(PREFIX_CIPHER, "", d, session, action, keepAlive, rawBody);
    }
  }

  /** Whatever the agent reads from a client in one go fits, open or send. */
  lemma OneReadFits(cipher: Cipher, nonce: Str, rawBody: Str)
    requires cipher.Compact() && |rawBody| <= 65536
    ensures Fits(cipher, nonce, rawBody) <==> cipher.seal(nonce, Hex(rawBody)).Some?
  {
    hide Hex, Base64.Encode;
    var sealed := cipher.seal(nonce, Hex(rawBody));
    if sealed.Some? {
      Base64.EncodeShape(sealed.value);
      assert |sealed.value| <= 2 * 65536 + 32;
    }
  }

  /** The way down: the agent recovers exactly the plain body, although the sealed body is
      arbitrary binary; when sealing failed it recovers "". */
  lemma ResponseRoundTrip(cipher: Cipher, nonce: Str, plain: Str, status: Str, connection: Str)
    requires cipher.Lawful() && OneLine(status) && OneLine(connection)
    requires |SealedResponse(cipher, nonce, plain, status, connection)| <= MAX_SIZE
    ensures
      var m := SealedResponse(cipher, nonce, plain, status, connection);
      && FrameEnd(m) == Some(|m|)
      && m != ""
      && DecodeResponse(cipher, m) == if cipher.seal(nonce, plain).Some? then plain else ""
  {
    match cipher.seal(nonce, plain)
    case Some(text) =>
      PlainResponseFrame(text, status, connection);
    case None =>
      PlainResponseFrame("", "500 Internal Server Error", "close");
  }

  lemma PlainResponseFrame(body: Str, status: Str, connection: Str)
    requires OneLine(status) && OneLine(connection)
    requires |PlainResponse(body, status, connection)| <= MAX_SIZE
    ensures
      var m := PlainResponse(body, status, connection);
      FrameEnd(m) == Some(|m|) && ExtractBody(m) == body && m != ""
  {
    var lines := ResponseLines(status, connection, |body|);
    ResponseLinesClean(status, connection, |body|);
    ResponseScan(status, connection, |body|, CRLF);
    ContentLengthOf(HeaderBlock(lines) + CRLF, |body|);
    MessageFrame(lines, body);
    HeaderEndOfMessage(lines, body);
  }

  /** Both directions over sockets, cut in any way: the server's reader and the agent's reader
      hand over what the other side meant. */
  method DeliverRequest(socket: Socket, buf: Streambuf, cipher: Cipher, nonce: Str, d: Decoy,
                        session: Str, action: Str, keepAlive: bool, rawBody: Str)
    returns (received: Received)
    requires cipher.Lawful() && d.Usable() && OneLine(session) && OneLine(action)
    requires var m := EncodeRequest(cipher, nonce, d, session, action, keepAlive, rawBody);
             m.Some? && |m.value| <= MAX_SIZE && socket.Valid() && socket.Pending() == m.value
    modifies socket, buf
    ensures received ==
            if Fits(cipher, nonce, rawBody) then Received(Trim(session), Trim(action), Hex(rawBody)) else Dropped
    ensures socket.Valid() && socket.Pending() == ""
  {
    RequestRoundTrip(cipher, nonce, d, session, action, keepAlive, rawBody);
    ghost var m := EncodeRequest(cipher, nonce, d, session, action, keepAlive, rawBody).value;
    hide *;
    ghost var head, calls;
    var ok;
    ok, head, calls := ServerReceive(socket, buf);
    ReadsFrameExact(m, head, ok, buf.data, socket.Pending());
    received := DecodeRequest(cipher, buf.data);
  }

  method DeliverResponse(socket: Socket, out: Streambuf, cipher: Cipher, nonce: Str, plain: Str,
                         status: Str, connection: Str)
    returns (body: Str)
    requires cipher.Lawful() && OneLine(status) && OneLine(connection) && cipher.seal(nonce, plain).Some?
    requires |SealedResponse(cipher, nonce, plain, status, connection)| <= MAX_SIZE
    requires socket.Valid() && socket.Pending() == SealedResponse(cipher, nonce, plain, status, connection)
    modifies socket, out
    ensures body == plain
    ensures socket.Valid() && socket.Pending() == ""
  {
    ResponseRoundTrip(cipher, nonce, plain, status, connection);
    ghost var m := SealedResponse(cipher, nonce, plain, status, connection);
    hide *;
    ghost var head, calls;
    var ok;
    ok, head, calls := ReadHttpMessage(socket, out);
    ReadsFrameExact(m, head, ok, out.data, socket.Pending());
    body := DecodeResponse(cipher, out.data);
  }
}
