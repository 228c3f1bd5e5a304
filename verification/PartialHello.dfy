/** What `detectType` makes of a ClientHello it is given only in part: the agent looks at what it
    has read up to a blank line or the end of the stream, the server at what stands up to the
    first blank line. */
module PartialHello {
  import opened Bytes
  import opened HexCodec
  import opened HttpRequest
  import opened Sni

  // ----- reading from a text that was cut ------------------------------------------------------------

  lemma CutField(bytes: Str, n: nat, i: nat, field: Str, rest: Str)
    requires i <= |bytes| && bytes[i..] == field + rest
    requires i + |field| <= n <= |bytes|
    ensures bytes[..n][i..] == field + rest[..n - i - |field|]
  {
    assert |bytes[i..]| == |bytes| - i;
    assert bytes[..n][i..] == bytes[i..][..n - i];
  }

  /** No stage of the cursor reads anything behind the end. */
  lemma PastEnd(body: Str, pos: nat)
    requires pos > |body|
    ensures AfterCiphers(body, pos) == None && AfterCompression(body, pos) == None
    ensures NameAt(body, pos) == None && Substr(body, pos, 4) == None
  {
  }

  /** A length that is itself cut reads as something small, and leads behind the end. */
  lemma CutLengths(body: Str, pos: nat)
    requires pos <= |body| && pos < 50000
    ensures |body| < pos + 4 ==> AfterCiphers(body, pos).Some? && AfterCiphers(body, pos).value > |body|
    ensures |body| < pos + 2 ==> AfterCompression(body, pos).Some? && AfterCompression(body, pos).value > |body|
  {
    CutCiphers(body, pos);
    CutCompression(body, pos);
  }

  lemma CutCiphers(body: Str, pos: nat)
    requires pos <= |body| && pos < 50000
    ensures |body| < pos + 4 ==> AfterCiphers(body, pos).Some? && AfterCiphers(body, pos).value > |body|
  {
    if |body| < pos + 4 {
      var length := Substr(body, pos, 4).value;
      ShortValue(length);
      hide HexToInt;
      AfterCiphersIs(body, pos, HexToInt(length));
    }
  }

  lemma CutCompression(body: Str, pos: nat)
    requires pos <= |body| && pos < 50000
    ensures |body| < pos + 2 ==> AfterCompression(body, pos).Some? && AfterCompression(body, pos).value > |body|
  {
    if |body| < pos + 2 {
      var length := Substr(body, pos, 2).value;
      ShortValue(length);
      hide HexToInt;
      AfterCompressionIs(body, pos, HexToInt(length));
    }
  }

  lemma ShortValue(hex: Str)
    requires |hex| < 4
    ensures HexToInt(hex) < 4096
  {
    ValueBelow(hex[..HexRun(hex)]);
  }

  lemma {:induction false} ValueBelow(hex: Str)
    ensures |hex| == 0 ==> HexValue(hex) == 0
    ensures |hex| <= 1 ==> HexValue(hex) < 16
    ensures |hex| <= 2 ==> HexValue(hex) < 256
    ensures |hex| <= 3 ==> HexValue(hex) < 4096
  {
    if hex != "" { ValueBelow(hex[..|hex| - 1]); }
  }

  // ----- the stages of a ClientHello that was cut ------------------------------------------------------

  function CiphersOffset(h: ClientHello): nat {
    44 + |h.session|
  }

  function CompressionOffset(h: ClientHello): nat {
    CiphersOffset(h) + 2 + |h.ciphers|
  }

  lemma SessionOfCut(h: ClientHello, recordVersion: Str, after: Str, n: nat)
    requires ValidHello(h) && |recordVersion| == 2 && 44 <= n <= |Record(h, recordVersion, after)|
    ensures AfterSession(Hex(Record(h, recordVersion, after)[..n])) == Some(2 * CiphersOffset(h))
  {
    var bytes := Record(h, recordVersion, after);
    FieldOffsets(h, recordVersion, after);
    var rest := h.session + FromCiphers(h, after);
    assert bytes[43..] == Byte1(|h.session|) + rest;
    assert 2 * CiphersOffset(h) == 88 + |h.session| * 2 && |h.session| < 256;
    hide *;
    CutField(bytes, n, 43, Byte1(|h.session|), rest);
    var cut := bytes[..n];
    ReadByte(cut, 43, |h.session|, rest[..n - 44]);
    AfterSessionIs(Hex(cut), |h.session|);
  }

  lemma CiphersOfCut(h: ClientHello, recordVersion: Str, after: Str, n: nat)
    requires ValidHello(h) && |recordVersion| == 2
    requires CiphersOffset(h) + 2 <= n <= |Record(h, recordVersion, after)|
    ensures AfterCiphers(Hex(Record(h, recordVersion, after)[..n]), 2 * CiphersOffset(h)) ==
            Some(2 * CompressionOffset(h))
  {
    var bytes := Record(h, recordVersion, after);
    FieldOffsets(h, recordVersion, after);
    var i, rest := CiphersOffset(h), h.ciphers + FromCompression(h, after);
    assert |h.ciphers| < 16384 && i < 300;
    assert bytes[i..] == Byte2(|h.ciphers|) + rest;
    assert 2 * CompressionOffset(h) == 2 * i + 4 + |h.ciphers| * 2;
    hide *;
    CutField(bytes, n, i, Byte2(|h.ciphers|), rest);
    var cut := bytes[..n];
    ReadPair(cut, i, |h.ciphers|, rest[..n - i - 2]);
    AfterCiphersIs(Hex(cut), 2 * i, |h.ciphers|);
  }

  lemma CompressionOfCut(h: ClientHello, recordVersion: Str, after: Str, n: nat)
    requires ValidHello(h) && |recordVersion| == 2
    requires CompressionOffset(h) + 1 <= n <= |Record(h, recordVersion, after)|
    ensures AfterCompression(Hex(Record(h, recordVersion, after)[..n]), 2 * CompressionOffset(h)) ==
            Some(2 * ExtensionOffset(h) - 4)
  {
    var bytes := Record(h, recordVersion, after);
    FieldOffsets(h, recordVersion, after);
    var i, rest := CompressionOffset(h), h.compression + FromExtensions(h, after);
    assert |h.compression| < 256 && i < 16384 && i == 46 + |h.session| + |h.ciphers|;
    assert bytes[i..] == Byte1(|h.compression|) + rest;
    assert 2 * ExtensionOffset(h) - 4 == 2 * i + 2 + |h.compression| * 2;
    hide *;
    CutField(bytes, n, i, Byte1(|h.compression|), rest);
    var cut := bytes[..n];
    ReadByte(cut, i, |h.compression|, rest[..n - i - 1]);
    AfterCompressionIs(Hex(cut), 2 * i, |h.compression|);
  }

  /** Cut before its first extension, the cursor fails or leads behind the end. */
  lemma CutBeforeExtensions(h: ClientHello, recordVersion: Str, after: Str, n: nat)
    requires ValidHello(h) && |recordVersion| == 2
    requires 43 <= n < ExtensionOffset(h) && n <= |Record(h, recordVersion, after)|
    ensures
      var first := FirstExtension(Hex(Record(h, recordVersion, after)[..n]));
      first.None? || first.value > 2 * n
  {
    var i1, i2, i3 := CiphersOffset(h), CompressionOffset(h), ExtensionOffset(h) - 2;
    assert i1 < 300 && i2 < 16384 + 300 && i3 < 32000;
    var body := Hex(Record(h, recordVersion, after)[..n]);
    assert |body| == 2 * n;
    if n >= 44 { SessionOfCut(h, recordVersion, after, n); }
    if n >= i1 + 2 { CiphersOfCut(h, recordVersion, after, n); }
    if n >= i2 + 1 { CompressionOfCut(h, recordVersion, after, n); }
    hide *;
    if n == 43 {
      NothingBehind(body);
    } else if n < i1 {
      PastEnd(body, 2 * i1);
      StopsAtCiphers(body, 2 * i1);
    } else if n < i1 + 2 {
      CutLengths(body, 2 * i1);
      PastEnd(body, AfterCiphers(body, 2 * i1).value);
      StopsAtCompression(body, 2 * i1, AfterCiphers(body, 2 * i1).value);
    } else if n < i2 {
      PastEnd(body, 2 * i2);
      StopsAtCompression(body, 2 * i1, 2 * i2);
    } else if n < i2 + 1 {
      CutLengths(body, 2 * i2);
      PastEnd(body, AfterCompression(body, 2 * i2).value);
      StopsAtLength(body, 2 * i1, 2 * i2, AfterCompression(body, 2 * i2).value);
    } else {
      PastEndOrThere(body, 2 * i1, 2 * i2, 2 * i3);
    }
  }

  lemma NothingBehind(body: Str)
    requires |body| == 86
    ensures FirstExtension(body) == None
  {
  }

  lemma StopsAtCiphers(body: Str, pos1: nat)
    requires AfterSession(body) == Some(pos1) && AfterCiphers(body, pos1) == None
    ensures FirstExtension(body) == None
  {
    hide AfterSession, AfterCiphers;
  }

  lemma StopsAtCompression(body: Str, pos1: nat, pos2: nat)
    requires AfterSession(body) == Some(pos1) && AfterCiphers(body, pos1) == Some(pos2)
    requires AfterCompression(body, pos2) == None
    ensures FirstExtension(body) == None
  {
    hide AfterSession, AfterCiphers, AfterCompression;
  }

  lemma StopsAtLength(body: Str, pos1: nat, pos2: nat, pos3: nat)
    requires AfterSession(body) == Some(pos1) && AfterCiphers(body, pos1) == Some(pos2)
    requires AfterCompression(body, pos2) == Some(pos3) && Substr(body, pos3, 4) == None
    ensures FirstExtension(body) == None
  {
    hide AfterSession, AfterCiphers, AfterCompression, Substr;
  }

  lemma PastEndOrThere(body: Str, pos1: nat, pos2: nat, pos3: nat)
    requires AfterSession(body) == Some(pos1) && AfterCiphers(body, pos1) == Some(pos2)
    requires AfterCompression(body, pos2) == Some(pos3) && |body| < pos3 + 4 < 65536
    ensures FirstExtension(body) == None || FirstExtension(body) == Some(pos3 + 4)
  {
    hide AfterSession, AfterCiphers, AfterCompression, Substr;
  }

  /** From the first extension on the cursor is where it should be. */
  lemma CursorOfCut(h: ClientHello, recordVersion: Str, after: Str, n: nat)
    requires ValidHello(h) && |recordVersion| == 2
    requires ExtensionOffset(h) <= n <= |Record(h, recordVersion, after)|
    ensures FirstExtension(Hex(Record(h, recordVersion, after)[..n])) == Some(2 * ExtensionOffset(h))
  {
    var i1, i2, i3 := CiphersOffset(h), CompressionOffset(h), ExtensionOffset(h) - 2;
    assert i3 < 32000;
    var body := Hex(Record(h, recordVersion, after)[..n]);
    assert |body| == 2 * n;
    SessionOfCut(h, recordVersion, after, n);
    CiphersOfCut(h, recordVersion, after, n);
    CompressionOfCut(h, recordVersion, after, n);
    hide *;
    SubstrStarts(body, 2 * i3, 4);
    FirstExtensionIs(body, 2 * i1, 2 * i2, 2 * i3);
  }

  // ----- the name -------------------------------------------------------------------------------------

  /** Nine bytes stand between the start of the extension and its host name; with fewer of them
      the name cannot be read. */
  lemma NameTooShort(body: Str, pos: nat)
    requires pos <= |body| < pos + 18 && pos + 18 < 65536
    requires HexToInt(Substr(body, pos, 4).value) == 0
    ensures NameAt(body, pos) == None
  {
    hide HexToInt;
    U16Small(pos + 14);
    U16Small(pos + 18);
  }

  lemma TypeOfCut(bytes: Str, i: nat, rest: Str)
    requires i <= |bytes| && bytes[i..] == rest
    requires rest == "" || rest == [0 as char] || (|rest| >= 2 && rest[..2] == Byte2(0))
    ensures Substr(Hex(bytes), 2 * i, 4).Some? && HexToInt(Substr(Hex(bytes), 2 * i, 4).value) == 0
  {
    if |rest| >= 2 {
      assert rest == Byte2(0) + rest[2..];
      ReadPair(bytes, i, 0, rest[2..]);
    } else {
      RestOfHex(bytes, i);
      ZeroText(rest);
    }
  }

  /** What is left of a text is what a long read from there returns. */
  lemma RestOfHex(bytes: Str, i: nat)
    requires i <= |bytes|
    ensures |Hex(bytes)| == 2 * |bytes|
    ensures forall n: nat :: n >= 2 * |bytes| - 2 * i ==> Substr(Hex(bytes), 2 * i, n) == Some(Hex(bytes[i..]))
  {
    hide Hex;
    HexSlice(bytes, i, |bytes|);
    assert bytes[i..|bytes|] == bytes[i..];
  }

  lemma ZeroText(rest: Str)
    requires rest == "" || rest == [0 as char]
    ensures HexToInt(Hex(rest)) == 0
  {
    if rest != "" {
      HexOfByte(0 as char);
      StoulHexOfByte(0 as char);
    }
  }

  /** The name as far as it was read. */
  lemma NameOfCut(bytes: Str, i: nat, skipped: Str, host: Str, tail: Str)
    requires |skipped| == 5 && |host| < 65536 && 2 * i + 18 < 65536
    requires i <= |bytes| && bytes[i..] == Byte2(0) + (skipped + (Byte2(|host|) + tail))
    requires tail <= host || host <= tail
    ensures NameAt(Hex(bytes), 2 * i) == Some(if host <= tail then host else tail)
  {
    hide *;
    ReadPair(bytes, i, 0, skipped + (Byte2(|host|) + tail));
    Past(bytes, i, i + 7, Byte2(0), skipped, Byte2(|host|) + tail);
    ReadPair(bytes, i + 7, |host|, tail);
    var name := if host <= tail then host else tail;
    NameTextOfCut(bytes, i + 9, host, tail);
    assert 2 * (i + 9) == 2 * i + 18 && 2 * (i + 7) == 2 * i + 14;
    NameAtIs(Hex(bytes), 2 * i, |host|, name);
  }

  lemma NameTextOfCut(bytes: Str, i: nat, host: Str, tail: Str)
    requires i <= |bytes| && bytes[i..] == tail && (tail <= host || host <= tail)
    ensures Substr(Hex(bytes), 2 * i, 2 * |host|) == Some(Hex(if host <= tail then host else tail))
  {
    hide Hex, Substr;
    if host <= tail {
      assert tail == host + tail[|host|..];
      ReadField(bytes, i, host, tail[|host|..]);
    } else {
      RestOfHex(bytes, i);
    }
  }

  /** The bytes from the first extension on, as far as they were read. */
  lemma ExtensionOfCut(h: ClientHello, recordVersion: Str, after: Str, n: nat)
    requires ValidHello(h) && |recordVersion| == 2
    requires ExtensionOffset(h) <= n <= |Record(h, recordVersion, after)|
    ensures
      var i := ExtensionOffset(h);
      var all := ExtensionBytes(h.first) + (h.others + after);
      && n - i <= |all| && Record(h, recordVersion, after)[..n][i..] == all[..n - i]
      && 2 * i + 18 < 65536
  {
    ExtensionAt(h, recordVersion, after);
    var i, bytes := ExtensionOffset(h), Record(h, recordVersion, after);
    var all := ExtensionBytes(h.first) + (h.others + after);
    hide Record, ExtensionBytes, ExtensionOffset;
    assert |bytes[i..]| == |bytes| - i;
    assert bytes[..n][i..] == bytes[i..][..n - i];
  }

  lemma NameOfCutHello(h: ClientHello, recordVersion: Str, after: Str, host: Str, more: Str, n: nat)
    requires ValidHello(h) && |recordVersion| == 2 && |host| + |more| + 3 < 65536
    requires h.first == Extension(0, ServerNameData(host, more))
    requires ExtensionOffset(h) <= n <= |Record(h, recordVersion, after)|
    ensures
      var i := ExtensionOffset(h);
      NameAt(Hex(Record(h, recordVersion, after)[..n]), 2 * i) ==
      if n < i + 9 then None else Some(host[..Min(n - i - 9, |host|)])
  {
    ExtensionOfCut(h, recordVersion, after, n);
    assert |host| + |more| + 5 < 65536;
    var i, cut := ExtensionOffset(h), Record(h, recordVersion, after)[..n];
    assert |cut| == n;
    hide Record, ExtensionOffset, Hex, NameAt, HexToInt, Substr, ExtensionBytes;
    var rest := h.others + after;
    var skipped := NameLayout(host, more, rest);
    CutLayout(skipped, host, more + rest, n - i);
    var front := Byte2(0) + (skipped + (Byte2(|host|) + ""));
    if n < i + 9 {
      TypeOfCut(cut, i, cut[i..]);
      NameTooShort(Hex(cut), 2 * i);
    } else {
      var tail := (host + (more + rest))[..n - i - 9];
      HostOrLess(host, more + rest, n - i - 9);
      NameOfCut(cut, i, skipped, host, tail);
    }
  }

  /** A prefix of the extension: its type or less, or all before the name and part of what
      follows. */
  lemma CutLayout(skipped: Str, host: Str, rest: Str, m: nat)
    requires |skipped| == 5 && |host| < 65536 && m <= 9 + |host| + |rest|
    ensures
      var cut := (Byte2(0) + (skipped + (Byte2(|host|) + (host + rest))))[..m];
      && (m < 9 ==> cut == "" || cut == [0 as char] || (|cut| >= 2 && cut[..2] == Byte2(0)))
      && (m >= 9 ==> cut == Byte2(0) + (skipped + (Byte2(|host|) + (host + rest)[..m - 9])))
  {
    var a, b := Byte2(0), Byte2(|host|);
    var all := a + (skipped + (b + (host + rest)));
    assert a == [0 as char, 0 as char];
    if m >= 9 {
      assert all[..m] == a + (skipped + (b + (host + rest)[..m - 9]));
    } else if m >= 2 {
      assert all[..m][..2] == a;
    } else if m == 1 {
      assert all[..m] == [0 as char];
    }
  }

  lemma HostOrLess(host: Str, rest: Str, k: nat)
    requires k <= |host| + |rest|
    ensures
      var tail := (host + rest)[..k];
      && (tail <= host || host <= tail)
      && (if host <= tail then host else tail) == host[..Min(k, |host|)]
  {
    var tail := (host + rest)[..k];
    if k >= |host| {
      assert tail[..|host|] == host;
    } else {
      assert tail == host[..k];
    }
  }

  // ----- the whole ------------------------------------------------------------------------------------

  /** Where the host name stands in a ClientHello with server_name first. */
  function NameOffset(h: ClientHello): nat {
    ExtensionOffset(h) + 9
  }

  lemma OutcomeOfCut(h: ClientHello, recordVersion: Str, after: Str, host: Str, more: Str, n: nat)
    requires ValidHello(h) && |recordVersion| == 2 && |host| + |more| + 3 < 65536
    requires h.first == Extension(0, ServerNameData(host, more))
    requires 43 <= n <= |Record(h, recordVersion, after)|
    ensures
      ServerName(Hex(Record(h, recordVersion, after)[..n])) ==
      if n < NameOffset(h) then None else Some(host[..Min(n - NameOffset(h), |host|)])
  {
    var bytes := Record(h, recordVersion, after);
    var body := Hex(bytes[..n]);
    assert |body| == 2 * n;
    assert Substr(body, 10, 2) == Some("01") by { KindOfCut(h, recordVersion, after, n); }
    if n < ExtensionOffset(h) {
      CutBeforeExtensions(h, recordVersion, after, n);
      if FirstExtension(body).Some? { PastEnd(body, FirstExtension(body).value); }
    } else {
      CursorOfCut(h, recordVersion, after, n);
      NameOfCutHello(h, recordVersion, after, host, more, n);
    }
    hide Record, Hex, Substr, FirstExtension, NameAt, ExtensionOffset;
  }

  lemma KindOfCut(h: ClientHello, recordVersion: Str, after: Str, n: nat)
    requires ValidHello(h) && |recordVersion| == 2 && 43 <= n <= |Record(h, recordVersion, after)|
    ensures Substr(Hex(Record(h, recordVersion, after)[..n]), 10, 2) == Some("01")
  {
    var bytes := Record(h, recordVersion, after);
    var cut := bytes[..n];
    assert bytes[5..6] == [1 as char];
    hide Record, Hex;
    assert cut[5..6] == bytes[5..6];
    HexOfByte(1 as char);
    HexSlice(cut, 5, 6);
    SubstrInRange(Hex(cut), 10, 2);
  }

  /** The first n bytes of a ClientHello with server_name first are an exception if they end
      before the host name, and TLS with as much of the name as they hold otherwise; five bytes
      are taken for a record without a name. */
  lemma CutHelloDetected(h: ClientHello, recordVersion: Str, after: Str, host: Str, more: Str, n: nat)
    requires ValidHello(h) && |recordVersion| == 2 && |host| + |more| + 3 < 65536
    requires h.first == Extension(0, ServerNameData(host, more))
    requires 1 <= n <= |Record(h, recordVersion, after)|
    ensures
      Detect(Record(h, recordVersion, after)[..n]) ==
      if n == 5 then Tls("")
      else if n < NameOffset(h) then Threw
      else Tls(host[..Min(n - NameOffset(h), |host|)])
  {
    var cut := Record(h, recordVersion, after)[..n];
    assert cut[0] as int == 22 && (n > 5 ==> cut[5] as int == 1);
    hide Record, Detect, Hex, ServerName;
    if n <= 5 {
      OtherMessageDetected(cut);
    } else if n < 43 {
      CutHelloThrows(cut);
    } else {
      OutcomeOfCut(h, recordVersion, after, host, more, n);
      HandshakeDetected(cut);
    }
  }

  lemma HandshakeDetected(raw: Str)
    requires raw != "" && raw[0] as int == 22
    ensures Detect(raw) == match ServerName(Hex(raw)) case None => Threw case Some(name) => Tls(name)
  {
    hide Hex, ServerName;
    assert raw == [raw[0]] + raw[1..];
    FirstByteInHex(raw[0], raw[1..]);
    OnlyThreeKinds(raw[0]);
  }

  /** So the name is right exactly if all of it is there: what ends inside the name passes for a
      ClientHello with a shorter one. */
  lemma NameIsWholeExactly(h: ClientHello, recordVersion: Str, after: Str, host: Str, more: Str, n: nat)
    requires ValidHello(h) && |recordVersion| == 2 && |host| + |more| + 3 < 65536 && host != ""
    requires h.first == Extension(0, ServerNameData(host, more))
    requires 1 <= n <= |Record(h, recordVersion, after)|
    ensures Detect(Record(h, recordVersion, after)[..n]) == Tls(host) <==> n >= NameOffset(h) + |host|
  {
    hide Record, Detect, ValidHello, ServerNameData;
    CutHelloDetected(h, recordVersion, after, host, more, n);
    assert n >= NameOffset(h) && n < NameOffset(h) + |host| ==> |host[..n - NameOffset(h)]| < |host|;
    assert host[..|host|] == host;
  }
}
