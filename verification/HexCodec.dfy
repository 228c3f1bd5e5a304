/** The hexadecimal layer of `general.hpp`: `hexArrToStr`, `hexToASCII`, `strToHexArr`,
    `charToHex`, `hexToInt`. */
module HexCodec {
  import opened Bytes

  function HexDigit(v: nat): Byte
    requires v < 16
  {
    if v < 10 then (v + 48) as char else (v + 87) as char
  }

  predicate IsHexDigit(c: Byte) {
    IsDigit(c) || 'A' <= c <= 'F' || 'a' <= c <= 'f'
  }

  /** `charToHex`: anything that is not a hex digit counts as zero. */
  function CharToHex(c: Byte): (v: nat)
    ensures v < 16
  {
    if IsDigit(c) then c as int - 48
    else if 'A' <= c <= 'F' then c as int - 55
    else if 'a' <= c <= 'f' then c as int - 87
    else 0
  }

  function HexByte(b: Byte): (h: Str)
    ensures |h| == 2
  {
    [HexDigit(b as int / 16), HexDigit(b as int % 16)]
  }

  /** The text `hexArrToStr` produces: two lower-case digits a byte. */
  function Hex(data: Str): (h: Str)
    ensures |h| == 2 * |data|
  {
    if data == "" then "" else HexByte(data[0]) + Hex(data[1..])
  }

  function HexRun(s: Str): (n: nat)
    ensures n <= |s|
    ensures n < |s| ==> !IsHexDigit(s[n])
  {
    if s == "" || !IsHexDigit(s[0]) then 0 else 1 + HexRun(s[1..])
  }

  function HexValue(s: Str): nat {
    if s == "" then 0 else HexValue(s[..|s| - 1]) * 16 + CharToHex(s[|s| - 1])
  }

  /** `stoul(part, nullptr, 16)` on the one- or two-character parts `hexToASCII` cuts (too
      short for a `0x` prefix to matter). A minus sign negates modulo 2^64; `None` is the
      exception for a part without digits. */
  function StoulHex(part: Str): Option<nat> {
    var t := SkipSpace(part);
    var signed := t != "" && (t[0] == '-' || t[0] == '+');
    var digits := if signed then t[1..] else t;
    var n := HexRun(digits);
    if n == 0 then None
    else
      var v := HexValue(digits[..n]);
      Some(if signed && t[0] == '-' && 0 < v <= MAX_SIZE then MAX_SIZE + 1 - v else v)
  }

  /** What `hexToASCII` computes; `None` is the exception out of `stoul`. */
  function HexToAscii(hex: Str): Option<Str> {
    if hex == "" then Some("") else
      var n := Min(2, |hex|);
      match StoulHex(hex[..n])
      case None => None
      case Some(v) =>
        Prepend([(v % 256) as char], HexToAscii(hex[n..]))
  }

  function Prepend(head: Str, tail: Option<Str>): Option<Str> {
    match tail
    case None => None
    case Some(rest) => Some(head + rest)
  }

  /** What `strToHexArr` computes: no failure, a trailing odd digit is dropped. */
  function StrToHexArr(hex: Str): (r: Str)
    ensures |r| == |hex| / 2
  {
    seq(|hex| / 2, i requires 0 <= i < |hex| / 2 =>
      (16 * CharToHex(hex[2 * i]) + CharToHex(hex[2 * i + 1])) as char)
  }

  /** `hexToInt` on strings of hex digits, the only ones it is given. */
  function HexToInt(hex: Str): nat {
    HexValue(hex[..HexRun(hex)])
  }

  // ----- the loops --------------------------------------------------------------------

  method HexArrToStr(data: Str) returns (text: Str)
    ensures text == Hex(data)
  {
    text := "";
    for i := 0 to |data|
      invariant text == Hex(data[..i])
    {
      text := text + HexByte(data[i]);
      HexConcat(data[..i], [data[i]]);
      assert data[..i + 1] == data[..i] + [data[i]];
      HexOfByte(data[i]);
    }
    assert data[..|data|] == data;
  }

  /** One turn of the `hexToASCII` loop. */
  lemma HexToAsciiStep(hex: Str, i: nat, n: nat, out: Str)
    requires i < |hex| && n == Min(2, |hex| - i)
    ensures Prepend(out, HexToAscii(hex[i..])) ==
            match StoulHex(hex[i..i + n])
            case None => None
            case Some(v) => Prepend(out + [(v % 256) as char], HexToAscii(hex[i + n..]))
  {
    var rest := hex[i..];
    assert rest[..n] == hex[i..i + n] && rest[n..] == hex[i + n..];
    if StoulHex(rest[..n]).Some? && HexToAscii(rest[n..]).Some? {
      var c: Str := [(StoulHex(rest[..n]).value % 256) as char];
      assert out + (c + HexToAscii(rest[n..]).value) == (out + c) + HexToAscii(rest[n..]).value;
    }
  }

  method HexToAsciiLoop(hex: Str) returns (ascii: Option<Str>)
    ensures ascii == HexToAscii(hex)
  {
    var out: Str := "";
    var i := 0;
    PrependNothing(HexToAscii(hex));
    while i < |hex|
      invariant 0 <= i
      invariant HexToAscii(hex) == Prepend(out, HexToAscii(hex[Min(i, |hex|)..]))
      decreases |hex| - i
    {
      var n := Min(2, |hex| - i);
      HexToAsciiStep(hex, i, n, out);
      var v := StoulHex(hex[i..i + n]);
      if v.None? {
        return None;
      }
      out := out + [(v.value % 256) as char];
      i := i + 2;
    }
    assert out + "" == out;
    return Some(out);
  }

  method StrToHexArrLoop(hex: Str) returns (result: array<Byte>)
    ensures fresh(result) && result[..] == StrToHexArr(hex)
  {
    result := new Byte[|hex| / 2](_ => '\0');
    for i := 0 to |hex| / 2
      invariant forall k :: 0 <= k < i ==> result[k] == StrToHexArr(hex)[k]
    {
      result[i] := (16 * CharToHex(hex[2 * i]) + CharToHex(hex[2 * i + 1])) as char;
    }
  }

  lemma PrependNothing(o: Option<Str>)
    ensures Prepend("", o) == o
  {
    if o.Some? { assert "" + o.value == o.value; }
  }

  // ----- inverses ---------------------------------------------------------------------

  lemma HexOfByte(b: Byte)
    ensures Hex([b]) == HexByte(b)
  {
    assert Hex([b]) == HexByte(b) + Hex([b][1..]);
  }

  lemma {:induction false} HexConcat(a: Str, b: Str)
    ensures Hex(a + b) == Hex(a) + Hex(b)
  {
    if a == "" {
      assert a + b == b;
    } else {
      assert (a + b)[1..] == a[1..] + b;
      HexConcat(a[1..], b);
    }
  }

  lemma HexSlice(data: Str, i: nat, j: nat)
    requires i <= j <= |data|
    ensures Hex(data)[2 * i..2 * j] == Hex(data[i..j])
  {
    hide Hex;
    var x, y, z := Hex(data[..i]), Hex(data[i..j]), Hex(data[j..]);
    HexInThree(data, i, j);
    Middle(x, y, z);
  }

  lemma HexInThree(data: Str, i: nat, j: nat)
    requires i <= j <= |data|
    ensures Hex(data) == Hex(data[..i]) + (Hex(data[i..j]) + Hex(data[j..]))
    ensures |Hex(data[..i])| == 2 * i && |Hex(data[..i])| + |Hex(data[i..j])| == 2 * j
  {
    hide Hex;
    Split3(data, i, j);
    HexConcat(data[..i], data[i..j] + data[j..]);
    HexConcat(data[i..j], data[j..]);
  }

  lemma DigitRoundTrip(v: nat)
    requires v < 16
    ensures IsHexDigit(HexDigit(v)) && CharToHex(HexDigit(v)) == v
    ensures HexDigit(v) != '-' && HexDigit(v) != '+' && !IsSpace(HexDigit(v))
  {
  }

  /** Two digits of an image read back as their byte. */
  lemma StoulHexOfByte(b: Byte)
    ensures StoulHex(HexByte(b)) == Some(b as int) && HexToInt(HexByte(b)) == b as int
  {
    var h := HexByte(b);
    DigitRoundTrip(b as int / 16);
    DigitRoundTrip(b as int % 16);
    assert SkipSpace(h) == h;
    AllHexRun(h);
    assert h[..2] == h && h[..1][..0] == "";
    assert HexValue(h[..1]) == CharToHex(h[0]);
  }

  /** `hexToASCII` inverts `hexArrToStr` on every byte string. */
  lemma {:induction false} HexToAsciiInvertsHex(data: Str)
    ensures HexToAscii(Hex(data)) == Some(data)
  {
    hide StoulHex, HexByte;
    if data != "" {
      var h := Hex(data);
      assert h[..2] == HexByte(data[0]) && h[2..] == Hex(data[1..]);
      StoulHexOfByte(data[0]);
      HexToAsciiInvertsHex(data[1..]);
      PairThenRest(h, data);
    }
  }

  /** A pair that reads as the first byte, and a rest that reads as the others. */
  lemma PairThenRest(hex: Str, data: Str)
    requires |hex| >= 2 && data != ""
    requires StoulHex(hex[..2]) == Some(data[0] as int) && HexToAscii(hex[2..]) == Some(data[1..])
    ensures HexToAscii(hex) == Some(data)
  {
    hide StoulHex;
    assert [data[0]] + data[1..] == data;
  }

  /** `strToHexArr` inverts `hexArrToStr` too, so the two decoders agree on its image. */
  lemma StrToHexArrInvertsHex(data: Str)
    ensures StrToHexArr(Hex(data)) == data
    ensures HexToAscii(Hex(data)) == Some(StrToHexArr(Hex(data)))
  {
    hide Hex, HexByte, CharToHex;
    forall i | 0 <= i < |data| ensures StrToHexArr(Hex(data))[i] == data[i] {
      HexAt(data, i);
      ByteFromDigits(data[i]);
    }
    HexToAsciiInvertsHex(data);
  }

  lemma ByteFromDigits(b: Byte)
    ensures (16 * CharToHex(HexByte(b)[0]) + CharToHex(HexByte(b)[1])) as char == b
  {
    DigitRoundTrip(b as int / 16);
    DigitRoundTrip(b as int % 16);
  }

  lemma HexAt(data: Str, i: nat)
    requires i < |data|
    ensures Hex(data)[2 * i] == HexByte(data[i])[0] && Hex(data)[2 * i + 1] == HexByte(data[i])[1]
  {
    HexSlice(data, i, i + 1);
    assert data[i..i + 1] == [data[i]];
    HexOfByte(data[i]);
    var two := Hex(data)[2 * i..2 * (i + 1)];
    assert two[0] == Hex(data)[2 * i] && two[1] == Hex(data)[2 * i + 1];
  }

  /** Off that image they differ: a stray character is zero to one and fatal to the other. */
  lemma DecodersDisagreeOffImage()
    ensures StrToHexArr("zz") == ['\0'] && HexToAscii("zz") == None
  {
    assert StrToHexArr("zz")[0] == '\0';
    var z: Str := "zz";
    assert z[..2] == z && SkipSpace(z) == z && HexRun(z) == 0;
  }

  lemma AllHexRun(s: Str)
    requires forall i :: 0 <= i < |s| ==> IsHexDigit(s[i])
    ensures HexRun(s) == |s|
  {
  }

  /** A two-byte big-endian integer comes back from its hex text. */
  lemma HexToIntOfPair(a: Byte, b: Byte)
    ensures HexToInt(Hex([a, b])) == 256 * a as int + b as int
  {
    var h := HexByte(a) + HexByte(b);
    HexConcat([a], [b]);
    HexOfByte(a);
    HexOfByte(b);
    assert [a] + [b] == [a, b];
    DigitRoundTrip(a as int / 16);
    DigitRoundTrip(a as int % 16);
    DigitRoundTrip(b as int / 16);
    DigitRoundTrip(b as int % 16);
    AllHexRun(h);
    assert h[..4] == h && h[..3][..2] == h[..2] && h[..2][..1] == h[..1] && h[..1][..0] == "";
    assert HexValue(h[..1]) == CharToHex(h[0]);
    assert HexValue(h[..2]) == 16 * CharToHex(h[0]) + CharToHex(h[1]);
    assert HexValue(h[..3]) == 16 * HexValue(h[..2]) + CharToHex(h[2]);
  }

  /** The parts `stoul` reads though no hex digit comes first: a sign or a blank, and a lone
      digit at the end. */
  lemma OddPartsRead(d: Byte)
    requires IsHexDigit(d)
    ensures HexToAscii([d]) == Some([CharToHex(d) as char])
    ensures HexToAscii(['+', d]) == Some([CharToHex(d) as char]) && HexToAscii([' ', d]) == Some([CharToHex(d) as char])
    ensures HexToAscii(['-', d]) == Some([((256 - CharToHex(d)) % 256) as char])
  {
    hide HexToAscii, StoulHex;
    LoneDigit(d);
    OnePart([d]);
    OnePart(['+', d]);
    OnePart([' ', d]);
    OnePart(['-', d]);
  }

  lemma OnePart(part: Str)
    requires 1 <= |part| <= 2
    ensures HexToAscii(part) == match StoulHex(part) case None => None case Some(v) => Some([(v % 256) as char])
  {
    hide StoulHex;
    assert part[..Min(2, |part|)] == part && part[Min(2, |part|)..] == "";
    assert HexToAscii("") == Some("");
    assert forall c: Byte :: [c] + "" == [c];
  }

  lemma LoneDigit(d: Byte)
    requires IsHexDigit(d)
    ensures StoulHex([d]) == Some(CharToHex(d)) && StoulHex(['+', d]) == Some(CharToHex(d))
    ensures StoulHex([' ', d]) == Some(CharToHex(d))
    ensures StoulHex(['-', d]) == Some(if CharToHex(d) == 0 then 0 else MAX_SIZE + 1 - CharToHex(d))
  {
    assert HexRun([d]) == 1 && [d][..1] == [d] && HexValue([d]) == CharToHex(d) by {
      assert [d][1..] == "" && [d][..0] == "";
    }
    assert ['+', d][1..] == [d] && ['-', d][1..] == [d] && [' ', d][1..] == [d];
    assert SkipSpace([d]) == [d] && SkipSpace(['+', d]) == ['+', d] && SkipSpace(['-', d]) == ['-', d];
    assert SkipSpace([' ', d]) == [d];
  }

  /** `hexToASCII` throws at the first pair that starts with no digit, sign or blank, wherever
      it stands behind well-formed pairs. */
  lemma {:induction false} BadPairThrows(data: Str, x: Byte, y: Byte, rest: Str)
    requires !IsHexDigit(x) && !IsSpace(x) && x != '+' && x != '-'
    ensures HexToAscii(Hex(data) + ([x, y] + rest)) == None
  {
    hide StoulHex, HexByte, HexToAscii;
    var bad: Str := [x, y] + rest;
    var all := Hex(data) + bad;
    if data == "" {
      assert all == bad && bad[..2] == [x, y];
      NoDigitThrows(x, y);
      FirstPairDecides(all);
    } else {
      assert Hex(data) == HexByte(data[0]) + Hex(data[1..]);
      assert all[..2] == HexByte(data[0]) && all[2..] == Hex(data[1..]) + bad;
      StoulHexOfByte(data[0]);
      BadPairThrows(data[1..], x, y, rest);
      FirstPairDecides(all);
    }
  }

  lemma FirstPairDecides(hex: Str)
    requires |hex| >= 2
    ensures StoulHex(hex[..2]).None? || HexToAscii(hex[2..]).None? ==> HexToAscii(hex).None?
  {
    hide StoulHex;
  }

  lemma NoDigitThrows(x: Byte, y: Byte)
    requires !IsHexDigit(x) && !IsSpace(x) && x != '+' && x != '-'
    ensures StoulHex([x, y]) == None
  {
    assert SkipSpace([x, y]) == [x, y];
  }

  // ----- upper case -------------------------------------------------------------------------------

  function UpperChar(c: Byte): Byte {
    if 'a' <= c <= 'f' then (c as int - 32) as char else c
  }

  /** The same digits, the letters in upper case. */
  function Upper(s: Str): (r: Str)
    ensures |r| == |s|
  {
    seq(|s|, i requires 0 <= i < |s| => UpperChar(s[i]))
  }

  /** Both decoders read upper-case digits as well. */
  lemma UpperCaseReads(data: Str)
    ensures HexToAscii(Upper(Hex(data))) == Some(data) && StrToHexArr(Upper(Hex(data))) == data
  {
    hide Hex, HexToAscii, CharToHex;
    UpperCaseToAscii(data);
    forall i | 0 <= i < |data| ensures StrToHexArr(Upper(Hex(data)))[i] == data[i] {
      HexAt(data, i);
      UpperByteFromDigits(data[i]);
    }
  }

  lemma {:induction false} UpperCaseToAscii(data: Str)
    ensures HexToAscii(Upper(Hex(data))) == Some(data)
  {
    hide StoulHex, HexByte;
    if data != "" {
      var h := Upper(Hex(data));
      assert h[..2] == Upper(HexByte(data[0])) && h[2..] == Upper(Hex(data[1..]));
      StoulUpper(data[0]);
      UpperCaseToAscii(data[1..]);
      PairThenRest(h, data);
    }
  }

  lemma UpperDigit(v: nat)
    requires v < 16
    ensures var c := UpperChar(HexDigit(v)); CharToHex(c) == v && IsHexDigit(c) && !IsSpace(c) && c != '-' && c != '+'
  {
  }

  lemma StoulUpper(b: Byte)
    ensures StoulHex(Upper(HexByte(b))) == Some(b as int)
  {
    var h := Upper(HexByte(b));
    UpperDigit(b as int / 16);
    UpperDigit(b as int % 16);
    assert SkipSpace(h) == h;
    AllHexRun(h);
    assert h[..2] == h && h[..1][..0] == "";
    assert HexValue(h[..1]) == CharToHex(h[0]);
  }

  lemma UpperByteFromDigits(b: Byte)
    ensures (16 * CharToHex(UpperChar(HexByte(b)[0])) + CharToHex(UpperChar(HexByte(b)[1]))) as char == b
  {
    UpperDigit(b as int / 16);
    UpperDigit(b as int % 16);
  }
}
