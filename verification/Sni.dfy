/** `HTTP::parseTls`: the server name out of a ClientHello, found by 16-bit index arithmetic
    over a hexadecimal dump, and the record layout it has to invert (section 7.4.1.2 of
    RFC 5246, section 3 of RFC 6066). */
module Sni {
  import opened Bytes
  import opened HexCodec

  datatype TlsType = Handshake | ChangeCipherSpec | ApplicationData

  /** How `parseTls` ends: an exception out of `substr` or `stoul`, `false`, or `true` with
      the type and server name it leaves in `parsedTlsRequest_`. */
  datatype TlsOutcome = Throws | Rejected | Parsed(kind: TlsType, sni: Str)

  /** Assignment to an `unsigned short`. */
  function U16(n: nat): (r: nat)
    ensures r < 65536
  {
    n % 65536
  }

  /** The position after a length-prefixed field whose length stood just before `pos`. */
  function Skip(pos: nat, length: nat): nat {
    U16(pos + length * 2)
  }

  function AfterSession(body: Str): Option<nat> {
    match Substr(body, 86, 2)
    case None => None
    case Some(length) =>
      if Substr(body, 88, HexToInt(length)).None? then None
      else Some(Skip(88, HexToInt(length)))
  }

  function AfterCiphers(body: Str, pos: nat): Option<nat> {
    match Substr(body, pos, 4)
    case None => None
    case Some(length) => Some(Skip(U16(pos + 4), U16(HexToInt(length))))
  }

  function AfterCompression(body: Str, pos: nat): Option<nat> {
    match Substr(body, pos, 2)
    case None => None
    case Some(length) => Some(Skip(U16(pos + 2), HexToInt(length)))
  }

  /** Where the first extension of a ClientHello starts; `None` is an exception. */
  function FirstExtension(body: Str): Option<nat> {
    match AfterSession(body)
    case None => None
    case Some(pos1) =>
      match AfterCiphers(body, pos1)
      case None => None
      case Some(pos2) =>
        match AfterCompression(body, pos2)
        case None => None
        case Some(pos3) => if Substr(body, pos3, 4).None? then None else Some(U16(pos3 + 4))
  }

  /** The name in the extension at `pos`, if that is a server_name extension. */
  function NameAt(body: Str, pos: nat): Option<Str> {
    match Substr(body, pos, 4)
    case None => None
    case Some(extensionType) =>
      if HexToInt(extensionType) != 0 then Some("") else NameText(body, U16(pos + 14))
  }

  function NameText(body: Str, pos: nat): Option<Str> {
    match Substr(body, pos, 4)
    case None => None
    case Some(nameLength) =>
      match Substr(body, U16(pos + 4), U16(HexToInt(nameLength)) * 2)
      case None => None
      case Some(name) => HexToAscii(name)
  }

  /** The server name of a handshake record; `None` is an exception. */
  function ServerName(body: Str): Option<Str> {
    match Substr(body, 10, 2)
    case None => None
    case Some(kind) =>
      if kind != "01" then Some("")
      else
        match FirstExtension(body)
        case None => None
        case Some(pos) => NameAt(body, pos)
  }

  function ParseTlsOutcome(body: Str): TlsOutcome {
    var first := body[..Min(2, |body|)];
    if first == "16" then
      match ServerName(body)
      case None => Throws
      case Some(sni) => Parsed(Handshake, sni)
    else if first == "14" then Parsed(ChangeCipherSpec, "")
    else if first == "17" then Parsed(ApplicationData, "")
    else Rejected
  }

  /** The `TlsRequest` fields of an `HTTP` object and the method that fills them. */
  class TlsRequest {
    var sni: Str
    var body: Str
    var kind: TlsType

    constructor (body: Str)
      ensures this.body == body && sni == ""
    {
      this.body, sni, kind := body, "", Handshake;
    }

    /** `parseTls`, without the `setIPPort` call that closes it. */
    method ParseTls() returns (outcome: TlsOutcome)
      requires sni == ""
      modifies this
      ensures outcome == ParseTlsOutcome(body) && body == old(body)
      ensures outcome.Parsed? ==> sni == outcome.sni && kind == outcome.kind
      ensures !outcome.Parsed? ==> sni == ""
    {
      var tmpStr := body[..Min(2, |body|)];
      if tmpStr == "16" {
        kind := Handshake;
        var threw := ParseHandshake();
        if threw {
          return Throws;
        }
        return Parsed(Handshake, sni);
      } else if tmpStr == "14" {
        kind := ChangeCipherSpec;
        return Parsed(ChangeCipherSpec, "");
      } else if tmpStr == "17" {
        kind := ApplicationData;
        return Parsed(ApplicationData, "");
      }
      return Rejected;
    }

    /** The handshake branch. */
    method ParseHandshake() returns (threw: bool)
      requires sni == ""
      modifies `sni
      ensures threw <==> ServerName(body).None?
      ensures sni == if threw then "" else ServerName(body).value
    {
      hide FirstExtension, NameAt, Substr;
      var tmp := Substr(body, 10, 2);
      if tmp.None? {
        return true;
      }
      if tmp.value == "01" {
        var pos;
        threw, pos := SkipToExtensions();
        if threw {
          return true;
        }
        threw := ReadServerName(pos);
        return threw;
      }
      return false;
    }

    /** `pos` and `tmpPos` are the original's two 16-bit cursors. */
    method SkipToExtensions() returns (threw: bool, pos: nat)
      ensures threw <==> FirstExtension(body).None?
      ensures !threw ==> FirstExtension(body) == Some(pos)
    {
      hide AfterSession, AfterCiphers, AfterCompression, Substr, U16;
      threw, pos := SkipSession();
      if threw {
        return;
      }
      threw, pos := SkipCiphers(pos);
      if threw {
        return;
      }
      threw, pos := SkipCompression(pos);
      if threw {
        return;
      }
      var tmp := Substr(body, pos, 4);
      pos := U16(pos + 4);
      return tmp.None?, pos;
    }

    method SkipSession() returns (threw: bool, pos: nat)
      ensures threw <==> AfterSession(body).None?
      ensures !threw ==> AfterSession(body) == Some(pos)
    {
      assert U16(88) == 88;
      hide HexToInt, Substr, U16;
      pos := 86;
      var tmp := Substr(body, pos, 2);
      if tmp.None? {
        return true, pos;
      }
      var tmpPos := U16(HexToInt(tmp.value));
      SmallField(body, pos);
      pos := U16(pos + 2);
      tmp := Substr(body, pos, tmpPos);
      if tmp.None? {
        return true, pos;
      }
      pos := U16(pos + tmpPos * 2);
      return false, pos;
    }

    method SkipCiphers(start: nat) returns (threw: bool, pos: nat)
      ensures threw <==> AfterCiphers(body, start).None?
      ensures !threw ==> AfterCiphers(body, start) == Some(pos)
    {
      hide HexToInt, Substr, U16;
      pos := start;
      var tmp := Substr(body, pos, 4);
      if tmp.None? {
        return true, pos;
      }
      var tmpPos := U16(HexToInt(tmp.value));
      pos := U16(pos + 4);
      pos := U16(pos + tmpPos * 2);
      return false, pos;
    }

    method SkipCompression(start: nat) returns (threw: bool, pos: nat)
      ensures threw <==> AfterCompression(body, start).None?
      ensures !threw ==> AfterCompression(body, start) == Some(pos)
    {
      hide HexToInt, Substr, U16;
      pos := start;
      var tmp := Substr(body, pos, 2);
      if tmp.None? {
        return true, pos;
      }
      var tmpPos := U16(HexToInt(tmp.value));
      SmallField(body, pos);
      pos := U16(pos + 2);
      pos := U16(pos + tmpPos * 2);
      return false, pos;
    }

    method ReadServerName(start: nat) returns (threw: bool)
      requires sni == ""
      modifies `sni
      ensures threw <==> NameAt(body, start).None?
      ensures sni == if threw then "" else NameAt(body, start).value
    {
      hide HexToInt, HexToAscii, Substr, U16;
      var pos := start;
      var tmp := Substr(body, pos, 4);
      if tmp.None? {
        return true;
      }
      if HexToInt(tmp.value) == 0 {
        pos := U16(pos + 14);
        tmp := Substr(body, pos, 4);
        if tmp.None? {
          return true;
        }
        var tmpPos := U16(HexToInt(tmp.value));
        pos := U16(pos + 4);
        tmp := Substr(body, pos, tmpPos * 2);
        if tmp.None? {
          return true;
        }
        var ascii := HexToAsciiLoop(tmp.value);
        if ascii.None? {
          return true;
        }
        sni := ascii.value;
      }
      return false;
    }
  }

  /** A length read from two characters never needs the 16-bit cut. */
  lemma SmallField(body: Str, pos: nat)
    requires Substr(body, pos, 2).Some?
    ensures U16(HexToInt(Substr(body, pos, 2).value)) == HexToInt(Substr(body, pos, 2).value)
  {
    var text := Substr(body, pos, 2).value;
    HexValueBound(text[..HexRun(text)]);
  }

  lemma HexValueBound(s: Str)
    requires |s| <= 2
    ensures HexValue(s) < 256
  {
    if |s| == 2 {
      assert HexValue(s) == HexValue(s[..1]) * 16 + CharToHex(s[1]);
      assert s[..1][..0] == "";
    }
  }

  // ----- the record layout ------------------------------------------------------------------

  function Byte1(n: nat): (r: Str)
    requires n < 256
    ensures |r| == 1
  {
    [n as char]
  }

  function Byte2(n: nat): (r: Str)
    requires n < 65536
    ensures |r| == 2
  {
    [(n / 256) as char, (n % 256) as char]
  }

  function Byte3(n: nat): (r: Str)
    requires n < 0x100_0000
    ensures |r| == 3
  {
    [(n / 65536) as char] + Byte2(n % 65536)
  }

  datatype Extension = Extension(kind: nat, data: Str)

  datatype ClientHello = ClientHello(
    version: Str, random: Str, session: Str, ciphers: Str, compression: Str,
    first: Extension, others: Str)

  predicate ValidExtension(e: Extension) {
    e.kind < 65536 && |e.data| < 65536
  }

  function ExtensionBytes(e: Extension): Str
    requires ValidExtension(e)
  {
    Byte2(e.kind) + (Byte2(|e.data|) + e.data)
  }

  function HelloLength(h: ClientHello): nat
    requires ValidExtension(h.first)
  {
    34 + 1 + |h.session| + 2 + |h.ciphers| + 1 + |h.compression| + 2 + |ExtensionBytes(h.first)| + |h.others|
  }

  /** The fixed-size fields have their sizes, the length prefixes can be written, and the
      handshake message fits one record of 2^14 bytes. `others` are the bytes of the
      extensions after the first. */
  predicate ValidHello(h: ClientHello) {
    && |h.version| == 2 && |h.random| == 32
    && |h.session| < 256 && |h.compression| < 256
    && ValidExtension(h.first)
    && 4 + HelloLength(h) <= 16384
  }

  /** The 43 bytes from the start of the record to the session id. */
  function Opening(h: ClientHello, recordVersion: Str): (r: Str)
    requires ValidHello(h) && |recordVersion| == 2
    ensures |r| == 43
  {
    [22 as char] + recordVersion + Byte2(4 + HelloLength(h))
    + [1 as char] + Byte3(HelloLength(h)) + h.version + h.random
  }

  /** A buffer that starts with one TLS record holding the whole ClientHello. */
  function Record(h: ClientHello, recordVersion: Str, after: Str): Str
    requires ValidHello(h) && |recordVersion| == 2
  {
    Opening(h, recordVersion) + Fields(h, after)
  }

  /** The record length field counts exactly the bytes up to `after`. */
  lemma RecordLength(h: ClientHello, recordVersion: Str, after: Str)
    requires ValidHello(h) && |recordVersion| == 2
    ensures |Record(h, recordVersion, after)| == 5 + 4 + HelloLength(h) + |after|
  {
  }

  /** The extension data of a server_name extension whose first entry is `host`. */
  function ServerNameData(host: Str, more: Str): Str
    requires |host| + |more| + 3 < 65536
  {
    Byte2(|host| + |more| + 3) + ([0 as char] + (Byte2(|host|) + (host + more)))
  }

  // ----- inversion ------------------------------------------------------------------------------

  lemma Cut(bytes: Str, i: nat, field: Str, rest: Str)
    requires i <= |bytes| && bytes[i..] == field + rest
    ensures i + |field| <= |bytes|
    ensures bytes[i..i + |field|] == field && bytes[i + |field|..] == rest
  {
    assert |bytes[i..]| == |bytes| - i;
    assert bytes[i..i + |field|] == bytes[i..][..|field|];
    assert bytes[i + |field|..] == bytes[i..][|field|..];
  }

  /** Reading the field at byte offset `i`. */
  lemma ReadField(bytes: Str, i: nat, field: Str, rest: Str)
    requires i <= |bytes| && bytes[i..] == field + rest
    ensures Substr(Hex(bytes), 2 * i, 2 * |field|) == Some(Hex(field))
    ensures i + |field| <= |bytes| && bytes[i + |field|..] == rest
  {
    hide Hex, Substr;
    Cut(bytes, i, field, rest);
    HexSlice(bytes, i, i + |field|);
    SubstrInRange(Hex(bytes), 2 * i, 2 * |field|);
    assert 2 * (i + |field|) == 2 * i + 2 * |field|;
  }

  lemma ReadByte(bytes: Str, i: nat, n: nat, rest: Str)
    requires n < 256
    requires i <= |bytes| && bytes[i..] == Byte1(n) + rest
    ensures Substr(Hex(bytes), 2 * i, 2).Some? && HexToInt(Substr(Hex(bytes), 2 * i, 2).value) == n
    ensures i + 1 <= |bytes| && bytes[i + 1..] == rest
  {
    ReadField(bytes, i, Byte1(n), rest);
    HexOfByte(n as char);
    StoulHexOfByte(n as char);
  }

  lemma ReadPair(bytes: Str, i: nat, n: nat, rest: Str)
    requires n < 65536
    requires i <= |bytes| && bytes[i..] == Byte2(n) + rest
    ensures Substr(Hex(bytes), 2 * i, 4).Some? && HexToInt(Substr(Hex(bytes), 2 * i, 4).value) == n
    ensures i + 2 <= |bytes| && bytes[i + 2..] == rest
  {
    ReadField(bytes, i, Byte2(n), rest);
    HexToIntOfPair((n / 256) as char, (n % 256) as char);
  }

  lemma ReadBytes(bytes: Str, i: nat, field: Str, rest: Str)
    requires i <= |bytes| && bytes[i..] == field + rest
    ensures i + |field| <= |bytes| && bytes[i + |field|..] == rest
  {
    Cut(bytes, i, field, rest);
  }

  lemma U16Small(n: nat)
    requires n < 65536
    ensures U16(n) == n
  {
  }

  lemma AfterSessionIs(body: Str, n: nat)
    requires Substr(body, 86, 2).Some? && HexToInt(Substr(body, 86, 2).value) == n
    requires 88 <= |body| && 88 + n * 2 < 65536
    ensures AfterSession(body) == Some(88 + n * 2)
  {
    SubstrStarts(body, 88, n);
    U16Small(88 + n * 2);
  }

  lemma AfterCiphersIs(body: Str, pos: nat, n: nat)
    requires Substr(body, pos, 4).Some? && HexToInt(Substr(body, pos, 4).value) == n
    requires pos + 4 + n * 2 < 65536
    ensures AfterCiphers(body, pos) == Some(pos + 4 + n * 2)
  {
    hide Substr, HexToInt, U16;
    U16Small(pos + 4);
    U16Small(n);
    U16Small(pos + 4 + n * 2);
  }

  lemma AfterCompressionIs(body: Str, pos: nat, n: nat)
    requires Substr(body, pos, 2).Some? && HexToInt(Substr(body, pos, 2).value) == n
    requires pos + 2 + n * 2 < 65536
    ensures AfterCompression(body, pos) == Some(pos + 2 + n * 2)
  {
    hide Substr, HexToInt, U16;
    U16Small(pos + 2);
    U16Small(pos + 2 + n * 2);
  }

  lemma Past(bytes: Str, i: nat, j: nat, prefix: Str, field: Str, rest: Str)
    requires i <= |bytes| && bytes[i..] == prefix + (field + rest)
    requires j == i + |prefix| + |field|
    ensures j <= |bytes| && bytes[j..] == rest
  {
    Cut(bytes, i, prefix, field + rest);
    Cut(bytes, i + |prefix|, field, rest);
  }

  lemma SessionSkipped(bytes: Str, next: nat, session: Str, rest: Str)
    requires |bytes| >= 43 && |session| < 256 && next == 44 + |session|
    requires bytes[43..] == Byte1(|session|) + (session + rest)
    ensures AfterSession(Hex(bytes)) == Some(2 * next)
  {
    hide *;
    ReadByte(bytes, 43, |session|, session + rest);
    AfterSessionIs(Hex(bytes), |session|);
    assert 88 + |session| * 2 == 2 * next;
  }

  lemma CiphersSkipped(bytes: Str, i: nat, next: nat, ciphers: Str, rest: Str)
    requires i <= |bytes| && |ciphers| < 65536 && next == i + 2 + |ciphers| && 2 * next < 65536
    requires bytes[i..] == Byte2(|ciphers|) + (ciphers + rest)
    ensures AfterCiphers(Hex(bytes), 2 * i) == Some(2 * next)
  {
    hide *;
    ReadPair(bytes, i, |ciphers|, ciphers + rest);
    AfterCiphersIs(Hex(bytes), 2 * i, |ciphers|);
    assert 2 * i + 4 + |ciphers| * 2 == 2 * next;
  }

  lemma CompressionSkipped(bytes: Str, i: nat, next: nat, compression: Str, rest: Str)
    requires i <= |bytes| && |compression| < 256 && next == i + 1 + |compression| && 2 * next < 65536
    requires bytes[i..] == Byte1(|compression|) + (compression + rest)
    ensures AfterCompression(Hex(bytes), 2 * i) == Some(2 * next)
  {
    hide *;
    ReadByte(bytes, i, |compression|, compression + rest);
    AfterCompressionIs(Hex(bytes), 2 * i, |compression|);
    assert 2 * i + 2 + |compression| * 2 == 2 * next;
  }

  /** The byte offset of the first extension. */
  function ExtensionOffset(h: ClientHello): nat {
    49 + |h.session| + |h.ciphers| + |h.compression|
  }

  /** The bytes from each length prefix on: ciphers, compression, extensions. */
  function FromExtensions(h: ClientHello, after: Str): Str
    requires ValidHello(h)
  {
    Byte2(|ExtensionBytes(h.first)| + |h.others|) + (ExtensionBytes(h.first) + (h.others + after))
  }

  function FromCompression(h: ClientHello, after: Str): Str
    requires ValidHello(h)
  {
    Byte1(|h.compression|) + (h.compression + FromExtensions(h, after))
  }

  function FromCiphers(h: ClientHello, after: Str): Str
    requires ValidHello(h)
  {
    Byte2(|h.ciphers|) + (h.ciphers + FromCompression(h, after))
  }

  /** The ClientHello from its session id on, followed by whatever comes `after` it. */
  function Fields(h: ClientHello, after: Str): Str
    requires ValidHello(h)
  {
    Byte1(|h.session|) + (h.session + FromCiphers(h, after))
  }

  lemma RecordFields(h: ClientHello, recordVersion: Str, after: Str)
    requires ValidHello(h) && |recordVersion| == 2
    ensures |Record(h, recordVersion, after)| >= 43
    ensures Record(h, recordVersion, after)[43..] == Fields(h, after)
  {
    hide Opening, Fields;
  }

  lemma FieldOffsets(h: ClientHello, recordVersion: Str, after: Str)
    requires ValidHello(h) && |recordVersion| == 2
    ensures
      var bytes := Record(h, recordVersion, after);
      && |bytes| >= 49 + |h.session| + |h.ciphers| + |h.compression|
      && bytes[43..] == Fields(h, after)
      && bytes[44 + |h.session|..] == FromCiphers(h, after)
      && bytes[46 + |h.session| + |h.ciphers|..] == FromCompression(h, after)
      && bytes[47 + |h.session| + |h.ciphers| + |h.compression|..] == FromExtensions(h, after)
  {
    hide Record, ExtensionBytes;
    RecordFields(h, recordVersion, after);
    var bytes := Record(h, recordVersion, after);
    var s, c, m := Byte1(|h.session|), Byte2(|h.ciphers|), Byte1(|h.compression|);
    var tail1, tail2, tail3 := FromExtensions(h, after), FromCompression(h, after), FromCiphers(h, after);
    assert Fields(h, after) == s + (h.session + tail3);
    assert tail3 == c + (h.ciphers + tail2);
    assert tail2 == m + (h.compression + tail1);
    assert |tail1| >= 2;
    hide *;
    Past(bytes, 43, 44 + |h.session|, s, h.session, tail3);
    Past(bytes, 44 + |h.session|, 46 + |h.session| + |h.ciphers|, c, h.ciphers, tail2);
    var i := 46 + |h.session| + |h.ciphers|;
    Past(bytes, i, i + 1 + |h.compression|, m, h.compression, tail1);
  }

  /** Over a complete record the 16-bit cursor never wraps: it stops exactly at the first
      extension. */
  lemma CursorReachesExtension(h: ClientHello, recordVersion: Str, after: Str)
    requires ValidHello(h) && |recordVersion| == 2
    ensures FirstExtension(Hex(Record(h, recordVersion, after))) == Some(2 * ExtensionOffset(h))
  {
    var bytes := Record(h, recordVersion, after);
    var i1 := 44 + |h.session|;
    var i2 := i1 + 2 + |h.ciphers|;
    var i3 := i2 + 1 + |h.compression|;
    assert ExtensionOffset(h) == i3 + 2 && 2 * i3 + 4 < 65536;
    FieldOffsets(h, recordVersion, after);
    var body := Hex(bytes);
    SessionSkipped(bytes, i1, h.session, FromCiphers(h, after));
    CiphersSkipped(bytes, i1, i2, h.ciphers, FromCompression(h, after));
    CompressionSkipped(bytes, i2, i3, h.compression, FromExtensions(h, after));
    assert Substr(body, 2 * i3, 4).Some? by { SubstrStarts(body, 2 * i3, 4); }
    hide *;
    FirstExtensionIs(body, 2 * i1, 2 * i2, 2 * i3);
  }

  /** On any other text it does: positions count modulo 2^16. */
  lemma CursorWraps(body: Str, pos: nat)
    ensures AfterCiphers(body, pos).Some? ==>
              var length := HexToInt(Substr(body, pos, 4).value) % 65536;
              AfterCiphers(body, pos).value == (pos + 4 + 2 * length) % 65536
    ensures AfterCompression(body, pos).Some? ==>
              var length := HexToInt(Substr(body, pos, 2).value);
              AfterCompression(body, pos).value == (pos + 2 + 2 * length) % 65536
  {
    hide Substr, HexToInt, Skip, U16;
    if Substr(body, pos, 4).Some? { SkipCounts(pos + 4, HexToInt(Substr(body, pos, 4).value) % 65536); }
    if Substr(body, pos, 2).Some? { SkipCounts(pos + 2, HexToInt(Substr(body, pos, 2).value)); }
    if Substr(body, pos, 4).Some? { LengthCounts(HexToInt(Substr(body, pos, 4).value)); }
  }

  lemma SkipCounts(from: nat, length: nat)
    ensures Skip(U16(from), length) == (from + 2 * length) % 65536
  {
  }

  lemma LengthCounts(n: nat)
    ensures U16(n) == n % 65536
  {
  }

  lemma FirstExtensionIs(body: Str, pos1: nat, pos2: nat, pos3: nat)
    requires AfterSession(body) == Some(pos1) && AfterCiphers(body, pos1) == Some(pos2)
    requires AfterCompression(body, pos2) == Some(pos3) && Substr(body, pos3, 4).Some?
    requires pos3 + 4 < 65536
    ensures FirstExtension(body) == Some(pos3 + 4)
  {
    hide AfterSession, AfterCiphers, AfterCompression, Substr;
  }

  lemma NameAtOther(body: Str, pos: nat, kind: nat)
    requires Substr(body, pos, 4).Some? && HexToInt(Substr(body, pos, 4).value) == kind != 0
    ensures NameAt(body, pos) == Some("")
  {
  }

  lemma NameAtIs(body: Str, pos: nat, length: nat, name: Str)
    requires Substr(body, pos, 4).Some? && HexToInt(Substr(body, pos, 4).value) == 0
    requires pos + 18 < 65536 && length < 65536
    requires Substr(body, pos + 14, 4).Some? && HexToInt(Substr(body, pos + 14, 4).value) == length
    requires Substr(body, pos + 18, 2 * length) == Some(Hex(name))
    ensures NameAt(body, pos) == Some(name)
  {
    hide Substr, HexToInt, U16, HexToAscii, Hex;
    U16Small(pos + 14);
    U16Small(pos + 18);
    U16Small(length);
    HexToAsciiInvertsHex(name);
  }

  lemma NameLayout(host: Str, more: Str, rest: Str) returns (skipped: Str)
    requires |host| + |more| + 5 < 65536
    ensures |skipped| == 5
    ensures ExtensionBytes(Extension(0, ServerNameData(host, more))) + rest
            == Byte2(0) + (skipped + (Byte2(|host|) + (host + (more + rest))))
  {
    skipped := Byte2(|host| + |more| + 5) + Byte2(|host| + |more| + 3) + [0 as char];
  }

  /** The host name of a server_name extension at byte offset `i` is found by its fixed
      offsets: 2 bytes of type, 2 of length, 2 of list length, 1 of name type, 2 of length. */
  lemma NameFound(bytes: Str, i: nat, host: Str, more: Str, rest: Str)
    requires |host| + |more| + 5 < 65536 && 2 * i + 18 < 65536
    requires i <= |bytes|
    requires bytes[i..] == ExtensionBytes(Extension(0, ServerNameData(host, more))) + rest
    ensures NameAt(Hex(bytes), 2 * i) == Some(host)
  {
    hide *;
    var skipped := NameLayout(host, more, rest);
    NameRead(bytes, i, skipped, Byte2(|host|) + (host + (more + rest)), host, more + rest);
  }

  lemma NameRead(bytes: Str, i: nat, skipped: Str, name: Str, host: Str, tail: Str)
    requires |skipped| == 5 && |host| < 65536 && 2 * i + 18 < 65536
    requires i <= |bytes| && bytes[i..] == Byte2(0) + (skipped + name)
    requires name == Byte2(|host|) + (host + tail)
    ensures NameAt(Hex(bytes), 2 * i) == Some(host)
  {
    hide *;
    ReadPair(bytes, i, 0, skipped + name);
    HostAfterSkipped(bytes, i, skipped, name, host, tail);
    NameAtIs(Hex(bytes), 2 * i, |host|, host);
  }

  lemma HostAfterSkipped(bytes: Str, i: nat, skipped: Str, name: Str, host: Str, tail: Str)
    requires |skipped| == 5 && |host| < 65536
    requires i <= |bytes| && bytes[i..] == Byte2(0) + (skipped + name)
    requires name == Byte2(|host|) + (host + tail)
    ensures Substr(Hex(bytes), 2 * i + 14, 4).Some?
    ensures HexToInt(Substr(Hex(bytes), 2 * i + 14, 4).value) == |host|
    ensures Substr(Hex(bytes), 2 * i + 18, 2 * |host|) == Some(Hex(host))
  {
    hide *;
    Past(bytes, i, i + 7, Byte2(0), skipped, name);
    HostRead(bytes, i + 7, 2 * i, host, tail);
  }

  lemma HostRead(bytes: Str, j: nat, pos: nat, host: Str, tail: Str)
    requires |host| < 65536 && pos + 14 == 2 * j
    requires j <= |bytes| && bytes[j..] == Byte2(|host|) + (host + tail)
    ensures Substr(Hex(bytes), pos + 14, 4).Some? && HexToInt(Substr(Hex(bytes), pos + 14, 4).value) == |host|
    ensures Substr(Hex(bytes), pos + 18, 2 * |host|) == Some(Hex(host))
  {
    hide *;
    ReadPair(bytes, j, |host|, host + tail);
    ReadField(bytes, j + 2, host, tail);
    assert 2 * (j + 2) == pos + 18;
  }

  lemma RecordOpens(h: ClientHello, recordVersion: Str, after: Str)
    requires ValidHello(h) && |recordVersion| == 2
    ensures Hex(Record(h, recordVersion, after))[..2] == "16"
    ensures Substr(Hex(Record(h, recordVersion, after)), 10, 2) == Some("01")
  {
    var bytes := Record(h, recordVersion, after);
    assert bytes[0..1] == [22 as char] && bytes[5..6] == [1 as char];
    HexOfByte(22 as char);
    HexOfByte(1 as char);
    HexSlice(bytes, 0, 1);
    HexSlice(bytes, 5, 6);
    assert |bytes| >= 43;
    hide Hex;
    SubstrInRange(Hex(bytes), 10, 2);
    assert Hex(bytes)[..2] == Hex(bytes)[2 * 0..2 * 1];
    assert Hex(bytes)[10..12] == Hex(bytes)[2 * 5..2 * 6];
  }

  /** For every ClientHello that fits one complete record, whatever follows the record: if
      the server_name extension comes first, `parseTls` finds exactly its first host name. */
  lemma ParseFindsServerName(h: ClientHello, recordVersion: Str, after: Str, host: Str, more: Str)
    requires ValidHello(h) && |recordVersion| == 2
    requires |host| + |more| + 3 < 65536
    requires h.first == Extension(0, ServerNameData(host, more))
    ensures ParseTlsOutcome(Hex(Record(h, recordVersion, after))) == Parsed(Handshake, host)
  {
    var bytes, i := Record(h, recordVersion, after), ExtensionOffset(h);
    RecordOpens(h, recordVersion, after);
    CursorReachesExtension(h, recordVersion, after);
    ExtensionAt(h, recordVersion, after);
    NameFound(bytes, i, host, more, h.others + after);
    hide Record, Hex, Substr, FirstExtension, NameAt;
  }

  /** And if another extension comes first, the name stays empty, wherever server_name is. */
  lemma ParseIgnoresLaterServerName(h: ClientHello, recordVersion: Str, after: Str)
    requires ValidHello(h) && |recordVersion| == 2
    requires h.first.kind != 0
    ensures ParseTlsOutcome(Hex(Record(h, recordVersion, after))) == Parsed(Handshake, "")
  {
    var bytes, i := Record(h, recordVersion, after), ExtensionOffset(h);
    RecordOpens(h, recordVersion, after);
    CursorReachesExtension(h, recordVersion, after);
    ExtensionAt(h, recordVersion, after);
    var tail := Byte2(|h.first.data|) + h.first.data + (h.others + after);
    assert bytes[i..] == Byte2(h.first.kind) + tail;
    ReadPair(bytes, i, h.first.kind, tail);
    NameAtOther(Hex(bytes), 2 * i, h.first.kind);
    hide Record, Hex, Substr, FirstExtension, NameAt;
  }

  lemma ExtensionAt(h: ClientHello, recordVersion: Str, after: Str)
    requires ValidHello(h) && |recordVersion| == 2
    ensures
      var bytes, i := Record(h, recordVersion, after), ExtensionOffset(h);
      i <= |bytes| && bytes[i..] == ExtensionBytes(h.first) + (h.others + after)
      && 2 * i + 18 < 65536
  {
    FieldOffsets(h, recordVersion, after);
    var bytes, i := Record(h, recordVersion, after), ExtensionOffset(h);
    var n := |ExtensionBytes(h.first)| + |h.others|;
    var tail := ExtensionBytes(h.first) + (h.others + after);
    assert FromExtensions(h, after) == Byte2(n) + tail;
    assert i == 49 + |h.session| + |h.ciphers| + |h.compression|;
    hide Record, ExtensionBytes, ExtensionOffset, FromExtensions, FromCompression, FromCiphers, Fields;
    ReadBytes(bytes, i - 2, Byte2(n), tail);
  }
}
