/** `HTTP::detectType` and `HTTP::setIPPort`: what a buffer holds and where it wants to go.
    The Beast request parser stands behind `ParseRequest`, reduced to what the program
    relies on: the request line, the Content-Length body, and the limit on its length. */
module HttpRequest {
  import opened Bytes
  import opened HexCodec
  import opened HttpUtils
  import opened HostPort
  import opened Sni

  datatype Request = Request(verb: Str, target: Str, body: Str) {
    predicate IsConnect() {
      verb == "CONNECT"
    }
  }

  /** `Threw` is an exception out of `parseTls`; `NotHttp` is `false`. */
  datatype Detected = Threw | NotHttp | Tls(sni: Str) | Http(request: Request)

  /** The default limit of Beast's parser on the body of a request. */
  const BODY_LIMIT: nat := 0x10_0000

  /** The characters Beast takes in a method, and in a target. */
  predicate IsTokenChar(c: Byte) {
    'A' <= c <= 'Z' || 'a' <= c <= 'z' || '0' <= c <= '9' || c in "!#$%&'*+-.^_`|~"
  }

  predicate IsPathChar(c: Byte) {
    c as int > 32 && c as int != 127
  }

  predicate Token(s: Str) {
    s != "" && forall i :: 0 <= i < |s| ==> IsTokenChar(s[i])
  }

  predicate PathText(s: Str) {
    forall i :: 0 <= i < |s| ==> IsPathChar(s[i])
  }

  /** Method, target and version of a request line. */
  function RequestLine(line: Str): Option<(Str, Str)> {
    match Find(line, " ")
    case None => None
    case Some(first) =>
      match FindFrom(line, " ", first + 1)
      case None => None
      case Some(second) =>
        var version := line[second + 1..];
        var verb, target := line[..first], line[first + 1..second];
        if Token(verb) && target != "" && PathText(target) && (version == "HTTP/1.1" || version == "HTTP/1.0") then
          Some((verb, target))
        else None
  }

  /** The declared length of a body. */
  function Declared(headers: Str): nat {
    match ContentLength(headers) case None => 0 case Some(n) => n
  }

  function ParseRequest(raw: Str): Option<Request> {
    match Find(raw, HEADER_END)
    case None => None
    case Some(p) =>
      match RequestLine(FirstLine(raw))
      case None => None
      case Some((verb, target)) =>
        var length := Declared(raw[..p + 4]);
        if length > BODY_LIMIT then None
        else Some(Request(verb, target, raw[p + 4..Min(p + 4 + length, |raw|)]))
  }

  /** `detectType`: the first byte separates TLS records from HTTP text. */
  function Detect(raw: Str): Detected {
    var first := Hex(raw)[..Min(2, 2 * |raw|)];
    if first == "16" || first == "14" || first == "17" then
      match ParseTlsOutcome(Hex(raw))
      case Throws => Threw
      case Rejected => NotHttp
      case Parsed(_, sni) => Tls(sni)
    else
      match ParseRequest(raw)
      case None => NotHttp
      case Some(request) => Http(request)
  }

  /** `setIPPort` for a CONNECT target or a TLS server name. */
  function Destination(target: Str): Endpoint {
    match EndpointOf(target, 443)
    case None => Endpoint("", 443)
    case Some(e) => e
  }

  /** Only the bytes 0x14, 0x16 and 0x17 are taken for TLS. */
  lemma TextIsHttp(raw: Str)
    requires raw != "" && raw[0] as int >= 32
    ensures Detect(raw) == match ParseRequest(raw) case None => NotHttp case Some(r) => Http(r)
  {
    HexAt(raw, 0);
    var h := Hex(raw);
    assert h[..2] == [h[0], h[1]] && h[0] == HexDigit(raw[0] as int / 16);
    assert raw[0] as int / 16 >= 2;
    FirstDigitTells(raw[0] as int / 16);
    assert h[..2][0] != '1';
  }

  lemma FirstDigitTells(v: nat)
    requires 2 <= v < 16
    ensures HexDigit(v) != '1'
  {
  }

  /** A request line of three space-free words parses into its words. */
  lemma RequestLineIs(verb: Str, target: Str, version: Str)
    requires Token(verb) && target != "" && PathText(target)
    requires version == "HTTP/1.1" || version == "HTTP/1.0"
    ensures RequestLine(verb + " " + target + " " + version) == Some((verb, target))
  {
    var line := verb + " " + target + " " + version;
    var second := |verb| + 1 + |target|;
    NoBlanks(verb, target);
    assert line[..|verb|] == verb;
    FindByteIs(line, ' ', |verb|);
    forall j: nat | |verb| + 1 <= j < second ensures !OccursAt(line, " ", j) {
      OneByteOccurs(line, ' ', j);
      assert line[j] == target[j - |verb| - 1];
    }
    OneByteOccurs(line, ' ', second);
    FindFromIs(line, " ", |verb| + 1, second);
    assert line[|verb| + 1..second] == target;
    assert line[second + 1..] == version;
  }

  lemma NoBlanks(verb: Str, target: Str)
    ensures Token(verb) ==> ' ' !in verb && ':' !in verb && CR !in verb && LF !in verb
    ensures PathText(target) ==> ' ' !in target && CR !in target && LF !in target
  {
    assert forall c: Byte :: c == ' ' || c == ':' || c == CR || c == LF ==> !IsTokenChar(c);
    assert forall c: Byte :: c == ' ' || c == CR || c == LF ==> !IsPathChar(c);
  }

  lemma FindFromIs(s: Str, p: Str, from: nat, i: nat)
    requires from <= i && OccursAt(s, p, i)
    requires forall j: nat :: from <= j < i ==> !OccursAt(s, p, j)
    ensures FindFrom(s, p, from) == Some(i)
  {
  }

  /** And nothing else parses: the line is its words and a version. */
  lemma RequestLineExactly(line: Str)
    ensures RequestLine(line).Some? ==>
              var (verb, target) := RequestLine(line).value;
              && Token(verb) && target != "" && PathText(target)
              && (line == verb + " " + target + " " + "HTTP/1.1" || line == verb + " " + target + " " + "HTTP/1.0")
  {
    if RequestLine(line).Some? {
      var first := Find(line, " ").value;
      var second := FindFrom(line, " ", first + 1).value;
      assert line[first..first + 1] == " " && line[second..second + 1] == " ";
      assert line == line[..first] + " " + line[first + 1..second] + " " + line[second + 1..];
    }
  }

  /** A ClientHello in one complete record is taken for TLS, with the name of a server_name
      extension that comes first. */
  lemma HelloDetected(h: ClientHello, recordVersion: Str, after: Str, host: Str, more: Str)
    requires ValidHello(h) && |recordVersion| == 2 && |host| + |more| + 3 < 65536
    requires h.first == Extension(0, ServerNameData(host, more))
    ensures Detect(Record(h, recordVersion, after)) == Tls(host)
  {
    hide Hex, Record, ParseTlsOutcome;
    RecordOpens(h, recordVersion, after);
    ParseFindsServerName(h, recordVersion, after, host, more);
    RecordLength(h, recordVersion, after);
  }

  lemma OtherHelloDetected(h: ClientHello, recordVersion: Str, after: Str)
    requires ValidHello(h) && |recordVersion| == 2 && h.first.kind != 0
    ensures Detect(Record(h, recordVersion, after)) == Tls("")
  {
    hide Hex, Record, ParseTlsOutcome;
    RecordOpens(h, recordVersion, after);
    ParseIgnoresLaterServerName(h, recordVersion, after);
    RecordLength(h, recordVersion, after);
  }

  /** A record of application data or of a cipher change is TLS without a name. */
  lemma OtherRecordDetected(rest: Str)
    ensures Detect([23 as char] + rest) == Tls("") && Detect([20 as char] + rest) == Tls("")
  {
    hide Hex, ParseTlsOutcome, ParseRequest;
    RecordKinds(23 as char, rest);
    RecordKinds(20 as char, rest);
    FirstByteInHex(23 as char, rest);
    FirstByteInHex(20 as char, rest);
    OnlyThreeKinds(23 as char);
    OnlyThreeKinds(20 as char);
  }

  lemma FirstByteInHex(b: Byte, rest: Str)
    ensures |Hex([b] + rest)| >= 2 && Hex([b] + rest)[..2] == HexByte(b)
  {
    assert ([b] + rest)[1..] == rest;
    assert Hex([b] + rest) == HexByte(b) + Hex(rest);
  }

  /** A ClientHello cut off before its session id length makes `parseTls` throw. */
  lemma CutHelloThrows(raw: Str)
    requires 6 <= |raw| < 43 && raw[0] as int == 22 && raw[5] as int == 1
    ensures Detect(raw) == Threw
  {
    assert raw == [raw[0]] + raw[1..];
    FirstByteInHex(raw[0], raw[1..]);
    HexOfByte(22 as char);
    HexOfByte(1 as char);
    HexSlice(raw, 5, 6);
    assert raw[5..6] == [raw[5]];
    var body := Hex(raw);
    assert body[2 * 5..2 * 6] == "01" && |body| == 2 * |raw|;
    CutHelloOutcome(body);
  }

  lemma CutHelloOutcome(body: Str)
    requires 12 <= |body| < 86 && body[..2] == "16" && body[10..12] == "01"
    ensures ParseTlsOutcome(body) == Throws
  {
    SubstrInRange(body, 10, 2);
    assert Substr(body, 86, 2).None?;
  }

  /** A handshake record of another message is TLS without a name, and one too short to tell is
      an exception. */
  lemma OtherMessageDetected(raw: Str)
    requires raw != "" && raw[0] as int == 22
    ensures |raw| == 5 || (|raw| > 5 && raw[5] as int != 1) ==> Detect(raw) == Tls("")
    ensures |raw| < 5 ==> Detect(raw) == Threw
  {
    assert raw == [raw[0]] + raw[1..];
    FirstByteInHex(raw[0], raw[1..]);
    HexOfByte(22 as char);
    var body := Hex(raw);
    assert |body| == 2 * |raw|;
    if |raw| > 5 {
      HexSlice(raw, 5, 6);
      assert raw[5..6] == [raw[5]];
      HexOfByte(raw[5]);
      HandshakeByte(raw[5]);
      assert body[2 * 5..2 * 6] == HexByte(raw[5]);
      SubstrInRange(body, 10, 2);
    }
    OtherMessageOutcome(body);
  }

  lemma HandshakeByte(b: Byte)
    ensures HexByte(b) == "01" ==> b as int == 1
  {
    var x, y := b as int / 16, b as int % 16;
    assert HexByte(b) == [HexDigit(x), HexDigit(y)];
    assert b as int == 16 * x + y;
    ZeroDigit(x);
    DigitsDiffer(y);
  }

  lemma ZeroDigit(v: nat)
    requires v < 16
    ensures HexDigit(v) == '0' <==> v == 0
  {
  }

  lemma OtherMessageOutcome(body: Str)
    requires |body| >= 2 && body[..2] == "16"
    ensures |body| < 10 ==> ParseTlsOutcome(body) == Throws
    ensures |body| >= 10 && Substr(body, 10, 2) != Some("01") ==> ParseTlsOutcome(body) == Parsed(Handshake, "")
  {
  }

  /** The kind of a record goes by its first byte. */
  lemma RecordKinds(b: Byte, rest: Str)
    ensures b as int == 20 ==> ParseTlsOutcome(Hex([b] + rest)) == Parsed(ChangeCipherSpec, "")
    ensures b as int == 23 ==> ParseTlsOutcome(Hex([b] + rest)) == Parsed(ApplicationData, "")
    ensures b as int != 20 && b as int != 22 && b as int != 23 ==> ParseTlsOutcome(Hex([b] + rest)) == Rejected
  {
    FirstByteInHex(b, rest);
    OnlyThreeKinds(b);
  }

  lemma OnlyThreeKinds(b: Byte)
    ensures (HexByte(b) == "14" <==> b as int == 20) && (HexByte(b) == "16" <==> b as int == 22)
    ensures HexByte(b) == "17" <==> b as int == 23
  {
    var x, y := b as int / 16, b as int % 16;
    assert HexByte(b) == [HexDigit(x), HexDigit(y)];
    assert b as int == 16 * x + y;
    DigitsDiffer(x);
    DigitsDiffer(y);
  }

  lemma DigitsDiffer(v: nat)
    requires v < 16
    ensures (HexDigit(v) == '1' <==> v == 1) && (HexDigit(v) == '4' <==> v == 4)
    ensures (HexDigit(v) == '6' <==> v == 6) && (HexDigit(v) == '7' <==> v == 7)
  {
  }

  /** Where a CONNECT goes whose target names no readable port: the host at 443, or nowhere. */
  lemma TargetWithoutPort(host: Str, text: Str)
    requires host != "" && host[0] != '[' && ':' !in host && ':' !in text
    ensures Destination(host) == Endpoint(host, 443)
    ensures PortOf(text).None? ==> Destination(host + ":" + text) == Endpoint("", 443)
  {
    hide PortOf, EndpointOf;
    BareHostGetsDefault(host, 443);
    HostAndText(host, text, 443);
  }

  lemma ParseRequestAt(raw: Str, p: nat, verb: Str, target: Str)
    requires Find(raw, HEADER_END) == Some(p)
    requires RequestLine(FirstLine(raw)) == Some((verb, target))
    requires p + 4 <= |raw| && (Declared(raw[..p + 4]) == |raw| - p - 4 || |raw| == p + 4)
    ensures ParseRequest(raw) ==
            if Declared(raw[..p + 4]) > BODY_LIMIT then None else Some(Request(verb, target, raw[p + 4..]))
  {
    hide Find, RequestLine, FirstLine, Declared;
    assert raw[p + 4..|raw|] == raw[p + 4..];
  }

  /** A message made of clean lines parses by its first line and its declared length, or is
      refused for that length. */
  lemma ParseRequestOfMessage(lines: seq<Str>, body: Str, verb: Str, target: Str)
    requires CleanLines(lines) && RequestLine(lines[0]) == Some((verb, target))
    requires Declared(HeaderBlock(lines) + CRLF) == |body| || body == ""
    ensures ParseRequest(Message(lines, body)) ==
            if Declared(HeaderBlock(lines) + CRLF) > BODY_LIMIT then None else Some(Request(verb, target, body))
  {
    hide HeaderBlock, Declared, RequestLine, FirstLine, Message, Find, ParseRequest;
    var p := MessageLayout(lines, body);
    ParseRequestAt(Message(lines, body), p, verb, target);
  }
}
