/** `encode64` and `decode64` of `general.hpp`: base64 as in section 4 of RFC 4648. */
module Base64 {
  import opened Bytes

  /** The 64-character alphabet, Table 1 of RFC 4648. */
  function Symbol(v: nat): (c: Byte)
    requires v < 64
    ensures IsSymbol(c)
  {
    if v < 26 then (v + 65) as char
    else if v < 52 then (v + 71) as char
    else if v < 62 then (v - 4) as char
    else if v == 62 then '+'
    else '/'
  }

  predicate IsSymbol(c: Byte) {
    'A' <= c <= 'Z' || 'a' <= c <= 'z' || '0' <= c <= '9' || c == '+' || c == '/'
  }

  /** The decoding table of Boost's `binary_from_base64`: an inner `=` reads as zero and any
      other character outside the alphabet throws. */
  function Index(c: Byte): (r: Option<nat>)
    ensures r.Some? <==> IsSymbol(c) || c == '='
    ensures r.Some? ==> r.value < 64
  {
    if 'A' <= c <= 'Z' then Some(c as int - 65)
    else if 'a' <= c <= 'z' then Some(c as int - 71)
    else if '0' <= c <= '9' then Some(c as int + 4)
    else if c == '+' then Some(62)
    else if c == '/' then Some(63)
    else if c == '=' then Some(0)
    else None
  }

  /** `encode64`: eight-bit units regrouped into sextets, zero-filled, then padded. */
  function Encode(s: Str): Str {
    if |s| == 0 then ""
    else if |s| == 1 then EncodeOne(s[0])
    else if |s| == 2 then EncodeTwo(s[0], s[1])
    else EncodeThree(s[0], s[1], s[2]) + Encode(s[3..])
  }

  function EncodeOne(a: Byte): Str {
    var x := a as int;
    [Symbol(x / 4), Symbol(x % 4 * 16), '=', '=']
  }

  function EncodeTwo(a: Byte, b: Byte): Str {
    var x, y := a as int, b as int;
    [Symbol(x / 4), Symbol(x % 4 * 16 + y / 16), Symbol(y % 16 * 4), '=']
  }

  function EncodeThree(a: Byte, b: Byte, c: Byte): (r: Str)
    ensures |r| == 4
    ensures forall i :: 0 <= i < 4 ==> IsSymbol(r[i])
  {
    var x, y, z := a as int, b as int, c as int;
    [Symbol(x / 4), Symbol(x % 4 * 16 + y / 16), Symbol(y % 16 * 4 + z / 64), Symbol(z % 64)]
  }

  /** `trim_right_if(is_any_of("="))`. */
  function TrimPads(t: Str): (r: Str)
    ensures |r| <= |t| && r == t[..|r|]
    ensures r == "" || r[|r| - 1] != '='
    ensures forall i :: |r| <= i < |t| ==> t[i] == '='
  {
    if t == "" || t[|t| - 1] != '=' then t else TrimPads(t[..|t| - 1])
  }

  /** Sextets regrouped into bytes, left-over bits discarded. `None` is the exception for a
      bad character, and also stands for a single trailing sextet, where the original reads
      past the end of its input. */
  function DecodeSextets(t: Str): Option<Str> {
    if |t| == 0 then Some("")
    else if |t| == 1 then None
    else
      var a, b := Index(t[0]), Index(t[1]);
      if a.None? || b.None? then None
      else
        var first: Byte := (a.value * 4 + b.value / 16) as char;
        if |t| == 2 then Some([first])
        else
          var c := Index(t[2]);
          if c.None? then None
          else
            var second: Byte := (b.value % 16 * 16 + c.value / 4) as char;
            if |t| == 3 then Some([first, second])
            else
              var d := Index(t[3]);
              if d.None? then None
              else
                var third: Byte := (c.value % 4 * 64 + d.value) as char;
                match DecodeSextets(t[4..])
                case None => None
                case Some(rest) => Some([first, second, third] + rest)
  }

  /** `decode64`; `None` is the exception. */
  function Decode(text: Str): Option<Str> {
    DecodeSextets(TrimPads(text))
  }

  // ----- shape --------------------------------------------------------------------------

  function PadCount(n: nat): (p: nat)
    ensures p <= 2
  {
    (3 - n % 3) % 3
  }

  /** Section 4 of RFC 4648: 4*ceil(n/3) characters, then nothing but alphabet characters
      up to the zero, one or two pads that close the text. */
  lemma {:induction false} EncodeShape(s: Str)
    ensures |Encode(s)| == 4 * ((|s| + 2) / 3)
    ensures PadCount(|s|) <= |Encode(s)|
    ensures forall i :: 0 <= i < |Encode(s)| - PadCount(|s|) ==> IsSymbol(Encode(s)[i])
    ensures forall i :: |Encode(s)| - PadCount(|s|) <= i < |Encode(s)| ==> Encode(s)[i] == '='
    decreases s, 1
  {
    if |s| >= 3 {
      EncodeShapeStep(s);
    }
  }

  lemma {:induction false} EncodeShapeStep(s: Str)
    requires |s| >= 3
    ensures |Encode(s)| == 4 * ((|s| + 2) / 3)
    ensures PadCount(|s|) <= |Encode(s)|
    ensures forall i :: 0 <= i < |Encode(s)| - PadCount(|s|) ==> IsSymbol(Encode(s)[i])
    ensures forall i :: |Encode(s)| - PadCount(|s|) <= i < |Encode(s)| ==> Encode(s)[i] == '='
    decreases s, 0
  {
    hide PadCount, EncodeThree, IsSymbol;
    var t := s[3..];
    EncodeShape(t);
    PadCountStep(|t|);
    assert |Encode(t)| == 4 * ((|t| + 2) / 3) && (|s| + 2) / 3 == (|t| + 2) / 3 + 1;
  }

  lemma TrimPadsIs(t: Str, k: nat)
    requires k <= |t|
    requires k == 0 || t[k - 1] != '='
    requires forall i :: k <= i < |t| ==> t[i] == '='
    ensures TrimPads(t) == t[..k]
  {
  }

  /** The text before the pads. */
  function Sextets(s: Str): Str {
    EncodeShape(s);
    Encode(s)[..|Encode(s)| - PadCount(|s|)]
  }

  lemma TrimPadsOfEncode(s: Str)
    ensures TrimPads(Encode(s)) == Sextets(s)
  {
    EncodeShape(s);
    TrimPadsIs(Encode(s), |Encode(s)| - PadCount(|s|));
  }

  lemma SextetsStep(s: Str)
    requires |s| >= 3
    ensures Sextets(s) == EncodeThree(s[0], s[1], s[2]) + Sextets(s[3..])
  {
    hide PadCount, EncodeThree, IsSymbol;
    EncodeShape(s[3..]);
    PadCountStep(|s| - 3);
    CutEnd(EncodeThree(s[0], s[1], s[2]), Encode(s[3..]), PadCount(|s|));
  }

  lemma CutEnd(a: Str, b: Str, k: nat)
    requires k <= |b|
    ensures (a + b)[..|a + b| - k] == a + b[..|b| - k]
  {
  }

  // ----- inverse ------------------------------------------------------------------------

  lemma SymbolIndex(v: nat)
    requires v < 64
    ensures Index(Symbol(v)) == Some(v)
  {
  }

  /** The three bytes of four sextets. */
  function ThreeBytes(p: nat, q: nat, r: nat, t: nat): Str
    requires p < 64 && q < 64 && r < 64 && t < 64
  {
    [(p * 4 + q / 16) as char, (q % 16 * 16 + r / 4) as char, (r % 4 * 64 + t) as char]
  }

  lemma DecodeGroup(group: Str, rest: Str, p: nat, q: nat, r: nat, t: nat)
    requires |group| == 4
    requires Index(group[0]) == Some(p) && Index(group[1]) == Some(q)
    requires Index(group[2]) == Some(r) && Index(group[3]) == Some(t)
    ensures DecodeSextets(group + rest) ==
            match DecodeSextets(rest) case None => None case Some(bytes) => Some(ThreeBytes(p, q, r, t) + bytes)
  {
    hide Index;
    assert (group + rest)[4..] == rest;
  }

  lemma Regroup(x: nat, y: nat, z: nat)
    requires x < 256 && y < 256 && z < 256
    ensures ThreeBytes(x / 4, x % 4 * 16 + y / 16, y % 16 * 4 + z / 64, z % 64)
            == [x as char, y as char, z as char]
  {
    assert (x % 4 * 16 + y / 16) / 16 == x % 4 && (x % 4 * 16 + y / 16) % 16 == y / 16;
    assert (y % 16 * 4 + z / 64) / 4 == y % 16 && (y % 16 * 4 + z / 64) % 4 == z / 64;
  }

  lemma DecodeThree(a: Byte, b: Byte, c: Byte, rest: Str)
    ensures DecodeSextets(EncodeThree(a, b, c) + rest) ==
            match DecodeSextets(rest) case None => None case Some(r) => Some([a, b, c] + r)
  {
    hide Symbol, Index, DecodeSextets, ThreeBytes;
    var x, y, z := a as int, b as int, c as int;
    SymbolIndex(x / 4);
    SymbolIndex(x % 4 * 16 + y / 16);
    SymbolIndex(y % 16 * 4 + z / 64);
    SymbolIndex(z % 64);
    DecodeGroup(EncodeThree(a, b, c), rest, x / 4, x % 4 * 16 + y / 16, y % 16 * 4 + z / 64, z % 64);
    Regroup(x, y, z);
  }

  /** `decode64` undoes `encode64` on every byte string. */
  lemma DecodeInvertsEncode(s: Str)
    ensures Decode(Encode(s)) == Some(s)
  {
    TrimPadsOfEncode(s);
    DecodeSextetsInverts(s);
  }

  lemma DecodeTail(a: Byte, b: Byte)
    ensures DecodeSextets(EncodeOne(a)[..2]) == Some([a])
    ensures DecodeSextets(EncodeTwo(a, b)[..3]) == Some([a, b])
  {
    SymbolIndex(a as int / 4);
    SymbolIndex(a as int % 4 * 16);
    SymbolIndex(a as int % 4 * 16 + b as int / 16);
    SymbolIndex(b as int % 16 * 4);
  }

  lemma {:induction false} DecodeSextetsInverts(s: Str)
    ensures DecodeSextets(Sextets(s)) == Some(s)
    decreases s, 1
  {
    EncodeShape(s);
    if |s| == 1 {
      assert s == [s[0]] && Sextets(s) == EncodeOne(s[0])[..2];
      DecodeTail(s[0], s[0]);
    } else if |s| == 2 {
      assert s == [s[0], s[1]] && Sextets(s) == EncodeTwo(s[0], s[1])[..3];
      DecodeTail(s[0], s[1]);
    } else if |s| >= 3 {
      DecodeSextetsGroup(s);
    }
  }

  lemma {:induction false} DecodeSextetsGroup(s: Str)
    requires |s| >= 3
    ensures DecodeSextets(Sextets(s)) == Some(s)
    decreases s, 0
  {
    SextetsStep(s);
    DecodeSextetsInverts(s[3..]);
    hide DecodeSextets, Sextets, EncodeThree;
    DecodeThree(s[0], s[1], s[2], Sextets(s[3..]));
    assert [s[0], s[1], s[2]] + s[3..] == s;
  }

  /** `decode64` throws exactly for a character outside the alphabet before the pads at the
      end, and for a single left-over sextet. */
  lemma DecodeExactly(text: Str)
    ensures Decode(text).Some? <==>
            |TrimPads(text)| % 4 != 1 && forall i :: 0 <= i < |TrimPads(text)| ==> Index(TrimPads(text)[i]).Some?
  {
    DecodeSextetsExactly(TrimPads(text));
  }

  /** An `=` before the end reads as an `A`, the symbol of zero. */
  lemma {:induction false} InnerPadIsZero(t: Str)
    ensures DecodeSextets(t) == DecodeSextets(AForPads(t))
  {
    hide Index, AForPads;
    AForPadsAt(t);
    if |t| > 4 {
      AForPadsAt(t[4..]);
      assert AForPads(t)[4..] == AForPads(t[4..]);
      InnerPadIsZero(t[4..]);
    } else if |t| == 4 {
      assert AForPads(t)[4..] == t[4..];
    }
  }

  function AForPads(t: Str): (r: Str)
    ensures |r| == |t|
  {
    seq(|t|, i requires 0 <= i < |t| => if t[i] == '=' then 'A' else t[i])
  }

  lemma AForPadsAt(t: Str)
    ensures forall i :: 0 <= i < |t| ==> AForPads(t)[i] == if t[i] == '=' then 'A' else t[i]
    ensures forall i :: 0 <= i < |t| ==> Index(AForPads(t)[i]) == Index(t[i])
  {
  }

  lemma {:induction false} DecodeSextetsExactly(t: Str)
    ensures DecodeSextets(t).Some? <==> |t| % 4 != 1 && forall i :: 0 <= i < |t| ==> Index(t[i]).Some?
  {
    hide Index;
    if |t| >= 4 {
      DecodeSextetsExactly(t[4..]);
      assert forall i :: 4 <= i < |t| ==> t[i] == t[4..][i - 4];
    }
  }

  // ----- the bit stream ------------------------------------------------------------------

  /** The `width` low bits of `v`, most significant first. */
  function Bits(v: nat, width: nat): seq<nat> {
    if width == 0 then [] else Bits(v / 2, width - 1) + [v % 2]
  }

  function Pow2(n: nat): nat {
    if n == 0 then 1 else 2 * Pow2(n - 1)
  }

  function ByteBits(s: Str): seq<nat> {
    if s == "" then [] else Bits(s[0] as int, 8) + ByteBits(s[1..])
  }

  /** The bits a text spells through the decoding table. */
  function TextBits(t: Str): seq<nat> {
    if t == "" then [] else SymbolBits(t[0]) + TextBits(t[1..])
  }

  function SymbolBits(c: Byte): seq<nat> {
    match Index(c) case None => [] case Some(v) => Bits(v, 6)
  }

  lemma {:induction false} JoinBits(hi: nat, lo: nat, m: nat, n: nat)
    requires lo < Pow2(n)
    ensures Bits(hi * Pow2(n) + lo, m + n) == Bits(hi, m) + Bits(lo, n)
  {
    if n == 0 {
      assert hi * Pow2(0) + lo == hi;
    } else {
      var p := Pow2(n - 1);
      assert hi * Pow2(n) == 2 * (hi * p);
      JoinBits(hi, lo / 2, m, n - 1);
      assert (hi * Pow2(n) + lo) / 2 == hi * p + lo / 2;
      assert (hi * Pow2(n) + lo) % 2 == lo % 2;
    }
  }

  lemma SmallPowers()
    ensures Pow2(2) == 4 && Pow2(4) == 16 && Pow2(6) == 64
  {
    assert Pow2(2) == 4;
    assert Pow2(4) == 16;
  }

  /** The three ways a byte is cut, and the two ways a sextet is filled. */
  lemma Joins(hi: nat, lo: nat)
    ensures lo < 4 ==> Bits(4 * hi + lo, 8) == Bits(hi, 6) + Bits(lo, 2)
    ensures lo < 16 ==> Bits(16 * hi + lo, 8) == Bits(hi, 4) + Bits(lo, 4)
    ensures lo < 64 ==> Bits(64 * hi + lo, 8) == Bits(hi, 2) + Bits(lo, 6)
    ensures lo < 16 ==> Bits(16 * hi + lo, 6) == Bits(hi, 2) + Bits(lo, 4)
    ensures lo < 4 ==> Bits(4 * hi + lo, 6) == Bits(hi, 4) + Bits(lo, 2)
  {
    hide Bits, Pow2;
    SmallPowers();
    if lo < 4 { JoinBits(hi, lo, 6, 2); JoinBits(hi, lo, 4, 2); }
    if lo < 16 { JoinBits(hi, lo, 4, 4); JoinBits(hi, lo, 2, 4); }
    if lo < 64 { JoinBits(hi, lo, 2, 6); }
  }

  lemma {:induction false} TextBitsConcat(a: Str, b: Str)
    ensures TextBits(a + b) == TextBits(a) + TextBits(b)
  {
    if a == "" {
      assert a + b == b;
    } else {
      assert (a + b)[1..] == a[1..] + b;
      TextBitsConcat(a[1..], b);
    }
  }

  lemma {:induction false} ByteBitsConcat(a: Str, b: Str)
    ensures ByteBits(a + b) == ByteBits(a) + ByteBits(b)
  {
    if a == "" {
      assert a + b == b;
    } else {
      assert (a + b)[1..] == a[1..] + b;
      ByteBitsConcat(a[1..], b);
    }
  }

  lemma TextOne(p: Byte)
    ensures TextBits([p]) == SymbolBits(p)
  {
    assert TextBits([p]) == SymbolBits(p) + TextBits([p][1..]);
  }

  lemma ByteOne(a: Byte)
    ensures ByteBits([a]) == Bits(a as int, 8)
  {
    assert ByteBits([a]) == Bits(a as int, 8) + ByteBits([a][1..]);
  }

  lemma TextTwo(p: Byte, q: Byte)
    ensures TextBits([p, q]) == SymbolBits(p) + SymbolBits(q)
  {
    TextOne(p);
    TextOne(q);
    TextBitsConcat([p], [q]);
    assert [p] + [q] == [p, q];
  }

  lemma TextThree(p: Byte, q: Byte, r: Byte)
    ensures TextBits([p, q, r]) == SymbolBits(p) + SymbolBits(q) + SymbolBits(r)
  {
    TextTwo(p, q);
    TextOne(r);
    TextBitsConcat([p, q], [r]);
    assert [p, q] + [r] == [p, q, r];
  }

  lemma SymbolBitsIs(v: nat)
    requires v < 64
    ensures SymbolBits(Symbol(v)) == Bits(v, 6)
  {
    SymbolIndex(v);
  }

  lemma ByteTwo(a: Byte, b: Byte)
    ensures ByteBits([a, b]) == Bits(a as int, 8) + Bits(b as int, 8)
  {
    ByteOne(a);
    ByteOne(b);
    ByteBitsConcat([a], [b]);
    assert [a] + [b] == [a, b];
  }

  lemma OneBits(a: Byte)
    ensures TextBits(EncodeOne(a)[..2]) == ByteBits([a]) + Bits(0, 4)
  {
    var x := a as int;
    hide Bits, SymbolBits;
    TextTwo(Symbol(x / 4), Symbol(x % 4 * 16));
    SymbolBitsIs(x / 4);
    SymbolBitsIs(x % 4 * 16);
    Joins(x / 4, x % 4);
    Joins(x % 4, 0);
    assert EncodeOne(a)[..2] == [Symbol(x / 4), Symbol(x % 4 * 16)];
    ByteOne(a);
  }

  lemma TwoBits(a: Byte, b: Byte)
    ensures TextBits(EncodeTwo(a, b)[..3]) == ByteBits([a, b]) + Bits(0, 2)
  {
    var x, y := a as int, b as int;
    hide Bits, SymbolBits;
    TextThree(Symbol(x / 4), Symbol(x % 4 * 16 + y / 16), Symbol(y % 16 * 4));
    SymbolBitsIs(x / 4);
    SymbolBitsIs(x % 4 * 16 + y / 16);
    SymbolBitsIs(y % 16 * 4);
    Joins(x / 4, x % 4);
    Joins(x % 4, y / 16);
    Joins(y / 16, y % 16);
    Joins(y % 16, 0);
    assert EncodeTwo(a, b)[..3] == [Symbol(x / 4), Symbol(x % 4 * 16 + y / 16), Symbol(y % 16 * 4)];
    ByteTwo(a, b);
  }

  lemma ThreeBits(a: Byte, b: Byte, c: Byte)
    ensures TextBits(EncodeThree(a, b, c)) == ByteBits([a, b, c])
  {
    var x, y, z := a as int, b as int, c as int;
    hide Bits, SymbolBits, TextBits, ByteBits;
    var e0, e1, e2, e3 := Symbol(x / 4), Symbol(x % 4 * 16 + y / 16), Symbol(y % 16 * 4 + z / 64), Symbol(z % 64);
    TextThree(e0, e1, e2);
    TextOne(e3);
    TextBitsConcat([e0, e1, e2], [e3]);
    assert EncodeThree(a, b, c) == [e0, e1, e2] + [e3];
    ByteTwo(a, b);
    ByteOne(c);
    ByteBitsConcat([a, b], [c]);
    assert [a, b, c] == [a, b] + [c];
    SymbolBitsIs(x / 4);
    SymbolBitsIs(x % 4 * 16 + y / 16);
    SymbolBitsIs(y % 16 * 4 + z / 64);
    SymbolBitsIs(z % 64);
    Joins(x / 4, x % 4);
    Joins(x % 4, y / 16);
    Joins(y / 16, y % 16);
    Joins(y % 16, z / 64);
    Joins(z / 64, z % 64);
  }

  /** Independent reading of the standard: the sextets spelled by the text carry the bits of
      the input, all of them, in order, followed only by the zero fill of the last sextet. */
  lemma {:induction false} EncodeKeepsBits(s: Str)
    ensures TextBits(Sextets(s)) == ByteBits(s) + Bits(0, 2 * PadCount(|s|))
    decreases s, 1
  {
    EncodeShape(s);
    if |s| == 1 {
      assert s == [s[0]] && Sextets(s) == EncodeOne(s[0])[..2];
      OneBits(s[0]);
    } else if |s| == 2 {
      assert s == [s[0], s[1]] && Sextets(s) == EncodeTwo(s[0], s[1])[..3];
      TwoBits(s[0], s[1]);
    } else if |s| >= 3 {
      GroupKeepsBits(s);
    }
  }

  lemma PadCountStep(n: nat)
    ensures PadCount(n + 3) == PadCount(n)
  {
  }

  lemma {:induction false} GroupKeepsBits(s: Str)
    requires |s| >= 3
    ensures TextBits(Sextets(s)) == ByteBits(s) + Bits(0, 2 * PadCount(|s|))
    decreases s, 0
  {
    var g, t := [s[0], s[1], s[2]], s[3..];
    EncodeKeepsBits(t);
    assert Sextets(s) == EncodeThree(s[0], s[1], s[2]) + Sextets(t) by { SextetsStep(s); }
    assert PadCount(|s|) == PadCount(|t|) by { PadCountStep(|t|); }
    assert g + t == s;
    var e := EncodeThree(s[0], s[1], s[2]);
    assert TextBits(e) == ByteBits(g) by { ThreeBits(s[0], s[1], s[2]); }
    hide *;
    TextBitsConcat(e, Sextets(t));
    ByteBitsConcat(g, t);
    Associative(ByteBits(g), ByteBits(t), Bits(0, 2 * PadCount(|t|)));
  }

  lemma Associative(a: seq<nat>, b: seq<nat>, c: seq<nat>)
    ensures a + (b + c) == (a + b) + c
  {
  }
}
