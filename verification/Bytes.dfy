/** Byte strings and the standard-library text routines the program leans on:
    `std::string::find`, `std::to_string`, `std::stoi`, `std::stoull`. */
module Bytes {
  datatype Option<+T> = None | Some(value: T) {
    predicate IsFailure() {
      None?
    }

    function PropagateFailure<U>(): Option<U>
      requires None?
    {
      None
    }

    function Extract(): T
      requires Some?
    {
      value
    }
  }

  /** One `char` of a C++ `std::string`: eight bits, read as unsigned. */
  type Byte = c: char | c as int < 256

  type Str = seq<Byte>

  const CR: Byte := '\r'
  const LF: Byte := '\n'
  const CRLF: Str := "\r\n"
  const HEADER_END: Str := "\r\n\r\n"

  const MAX_SIZE: nat := 0xFFFF_FFFF_FFFF_FFFF
  const INT_MAX: int := 0x7FFF_FFFF

  function Min(a: int, b: int): int {
    if a < b then a else b
  }

  predicate OccursAt(s: Str, p: Str, i: nat) {
    i + |p| <= |s| && s[i..i + |p|] == p
  }

  /** `s.find(p, i)`: the least occurrence at or after `i`, or `npos`. */
  function FindFrom(s: Str, p: Str, i: nat): (r: Option<nat>)
    ensures r.Some? ==> i <= r.value && OccursAt(s, p, r.value)
    ensures r.Some? ==> forall j: nat :: i <= j < r.value ==> !OccursAt(s, p, j)
    ensures r.None? ==> forall j: nat :: i <= j ==> !OccursAt(s, p, j)
    decreases |s| - i
  {
    if i + |p| > |s| then None
    else if OccursAt(s, p, i) then Some(i)
    else FindFrom(s, p, i + 1)
  }

  /** `s.rfind(b)`. */
  function FindLast(s: Str, b: Byte): (r: Option<nat>)
    ensures r.Some? ==> r.value < |s| && s[r.value] == b && b !in s[r.value + 1..]
    ensures r.None? ==> b !in s
  {
    if s == "" then None
    else if s[|s| - 1] == b then Some(|s| - 1)
    else FindLast(s[..|s| - 1], b)
  }

  /** `s.substr(pos, n)`: clamped at the end; `None` is `std::out_of_range`. */
  function Substr(s: Str, pos: nat, n: nat): Option<Str> {
    if pos > |s| then None else Some(s[pos..Min(pos + n, |s|)])
  }

  function Find(s: Str, p: Str): (r: Option<nat>)
    ensures r.Some? ==> OccursAt(s, p, r.value)
    ensures r.Some? ==> forall j: nat :: j < r.value ==> !OccursAt(s, p, j)
    ensures r.None? ==> forall j: nat :: !OccursAt(s, p, j)
  {
    FindFrom(s, p, 0)
  }

  /** `s.rfind(p, 0) == 0`. */
  predicate StartsWith(s: Str, p: Str) {
    OccursAt(s, p, 0)
  }

  lemma FindIs(s: Str, p: Str, i: nat)
    requires OccursAt(s, p, i)
    requires forall j: nat :: j < i ==> !OccursAt(s, p, j)
    ensures Find(s, p) == Some(i)
  {
  }

  lemma SubstrInRange(s: Str, pos: nat, n: nat)
    requires pos + n <= |s|
    ensures Substr(s, pos, n) == Some(s[pos..pos + n])
  {
  }

  lemma SubstrStarts(s: Str, pos: nat, n: nat)
    requires pos <= |s|
    ensures Substr(s, pos, n).Some?
  {
  }

  lemma Middle(a: Str, b: Str, c: Str)
    ensures (a + (b + c))[|a|..|a| + |b|] == b
  {
  }

  lemma Split3(s: Str, i: nat, j: nat)
    requires i <= j <= |s|
    ensures s == s[..i] + (s[i..j] + s[j..])
  {
  }

  lemma OneByteOccurs(s: Str, b: Byte, j: nat)
    ensures OccursAt(s, [b], j) <==> j < |s| && s[j] == b
  {
    if j < |s| { assert s[j..j + 1] == [s[j]]; }
  }

  /** Finding one byte is finding the first index that holds it. */
  lemma FindByteIs(s: Str, b: Byte, i: nat)
    requires i < |s| && s[i] == b && b !in s[..i]
    ensures Find(s, [b]) == Some(i)
  {
    OneByteOccurs(s, b, i);
    forall j: nat | j < i ensures !OccursAt(s, [b], j) {
      OneByteOccurs(s, b, j);
      assert s[..i][j] == s[j];
    }
    FindIs(s, [b], i);
  }

  lemma FindByteNone(s: Str, b: Byte)
    ensures Find(s, [b]).None? <==> b !in s
  {
    forall k: nat ensures OccursAt(s, [b], k) <==> k < |s| && s[k] == b {
      OneByteOccurs(s, b, k);
    }
  }

  // ----- decimal text -------------------------------------------------------------

  predicate IsDigit(c: Byte) {
    '0' <= c <= '9'
  }

  /** The C locale's `isspace`. */
  predicate IsSpace(c: Byte) {
    c == ' ' || '\t' <= c <= '\r'
  }

  predicate AllDigits(s: Str) {
    forall i :: 0 <= i < |s| ==> IsDigit(s[i])
  }

  function DigitChar(d: nat): (c: Byte)
    requires d < 10
    ensures IsDigit(c)
  {
    (d + 48) as char
  }

  /** `std::to_string` of an unsigned value, and `operator<<` of a size. */
  function Decimal(n: nat): (s: Str)
    ensures |s| > 0 && AllDigits(s)
  {
    if n < 10 then [DigitChar(n)] else Decimal(n / 10) + [DigitChar(n % 10)]
  }

  function DecimalValue(s: Str): nat
    requires AllDigits(s)
  {
    if s == "" then 0
    else DecimalValue(s[..|s| - 1]) * 10 + (s[|s| - 1] as int - 48)
  }

  function DigitRun(s: Str): (n: nat)
    ensures n <= |s| && AllDigits(s[..n])
    ensures n < |s| ==> !IsDigit(s[n])
  {
    if s == "" || !IsDigit(s[0]) then 0 else
      var n := 1 + DigitRun(s[1..]);
      assert s[..n] == [s[0]] + s[1..][..n - 1];
      n
  }

  function SkipSpace(s: Str): (r: Str)
    ensures r == "" || !IsSpace(r[0])
  {
    if s != "" && IsSpace(s[0]) then SkipSpace(s[1..]) else s
  }

  /** What `strtol` and `strtoull` read before range checks: optional space, an optional
      sign, then a non-empty run of digits; whatever follows is ignored. */
  function LeadingInt(s: Str): Option<int> {
    var t := SkipSpace(s);
    var signed := t != "" && (t[0] == '-' || t[0] == '+');
    var digits := if signed then t[1..] else t;
    var n := DigitRun(digits);
    if n == 0 then None
    else
      var value: int := DecimalValue(digits[..n]);
      Some(if signed && t[0] == '-' then -value else value)
  }

  /** `std::stoi`: `None` is either exception. */
  function Stoi(s: Str): Option<int> {
    match LeadingInt(s)
    case None => None
    case Some(v) => if -INT_MAX - 1 <= v <= INT_MAX then Some(v) else None
  }

  /** `std::stoull`: a minus sign negates modulo 2^64 rather than failing. */
  function Stoull(s: Str): Option<nat> {
    match LeadingInt(s)
    case None => None
    case Some(v) =>
      if v > MAX_SIZE || -v > MAX_SIZE then None
      else Some(if v < 0 then MAX_SIZE + 1 + v else v)
  }

  lemma {:induction false} DecimalRoundTrip(n: nat)
    ensures DecimalValue(Decimal(n)) == n
  {
    if n >= 10 {
      DecimalRoundTrip(n / 10);
      var s := Decimal(n);
      assert s[..|s| - 1] == Decimal(n / 10);
    }
  }

  /** Printing a number and reading it back gives the number. */
  lemma LeadingIntOfDecimal(n: nat)
    ensures LeadingInt(Decimal(n)) == Some(n)
  {
    var s := Decimal(n);
    assert IsDigit(s[0]);
    assert SkipSpace(s) == s;
    assert DigitRun(s) == |s|;
    assert s[..|s|] == s;
    DecimalRoundTrip(n);
  }

  lemma {:induction false} RunStops(a: Str, tail: Str)
    requires AllDigits(a) && (tail == "" || !IsDigit(tail[0]))
    ensures DigitRun(a + tail) == |a|
  {
    if a == "" {
      assert a + tail == tail;
    } else {
      assert (a + tail)[1..] == a[1..] + tail && (a + tail)[0] == a[0];
      RunStops(a[1..], tail);
    }
  }

  lemma {:induction false} SpaceSkipped(blanks: Str, s: Str)
    requires (forall i :: 0 <= i < |blanks| ==> IsSpace(blanks[i])) && (s == "" || !IsSpace(s[0]))
    ensures SkipSpace(blanks + s) == s
  {
    if blanks == "" {
      assert blanks + s == s;
    } else {
      assert (blanks + s)[1..] == blanks[1..] + s;
      SpaceSkipped(blanks[1..], s);
    }
  }

  /** Blanks, a sign and what follows the digits do not keep a number from being read. */
  lemma NumberRead(blanks: Str, sign: Str, n: nat, tail: Str)
    requires forall i :: 0 <= i < |blanks| ==> IsSpace(blanks[i])
    requires sign == "" || sign == "+" || sign == "-"
    requires tail == "" || !IsDigit(tail[0])
    ensures LeadingInt(blanks + (sign + (Decimal(n) + tail))).Some?
    ensures LeadingInt(blanks + (sign + (Decimal(n) + tail))).value == if sign == "-" then 0 - n as int else n
  {
    hide Decimal, DecimalValue, DigitRun, SkipSpace;
    var digits := Decimal(n) + tail;
    assert IsDigit(digits[0]) by { assert digits[0] == Decimal(n)[0] && IsDigit(Decimal(n)[0]); }
    SpaceSkipped(blanks, sign + digits);
    assert sign + digits == (if sign == "" then digits else [sign[0]] + digits);
    assert sign != "" ==> (sign + digits)[1..] == digits;
    RunStops(Decimal(n), tail);
    assert digits[..|Decimal(n)|] == Decimal(n);
    DecimalRoundTrip(n);
  }

  /** Without a digit after them there is no number. */
  lemma NoNumberRead(blanks: Str, s: Str)
    requires forall i :: 0 <= i < |blanks| ==> IsSpace(blanks[i])
    requires s == "" || (!IsSpace(s[0]) && !IsDigit(s[0]) && s[0] != '+' && s[0] != '-')
    ensures LeadingInt(blanks + s) == None
  {
    SpaceSkipped(blanks, s);
  }

  /** `stoull` keeps what a `size_t` holds, and reads a minus sign modulo 2^64. */
  lemma SizeRead(n: nat)
    ensures Stoull(Decimal(n)) == if n <= MAX_SIZE then Some(n) else None
    ensures 0 < n <= MAX_SIZE ==> Stoull("-" + Decimal(n)) == Some(MAX_SIZE + 1 - n)
  {
    LeadingIntOfDecimal(n);
    NumberRead("", "-", n, "");
    assert "" + ("-" + (Decimal(n) + "")) == "-" + Decimal(n);
  }

  lemma DecimalShort(n: nat)
    requires n < 100000
    ensures |Decimal(n)| <= 5
  {
    assert |Decimal(n / 10000)| == 1;
    assert |Decimal(n / 1000)| <= 2;
    assert |Decimal(n / 100)| <= 3;
    assert |Decimal(n / 10)| <= 4;
  }

  lemma DecimalHasNo(n: nat, b: Byte)
    requires !IsDigit(b)
    ensures b !in Decimal(n)
  {
  }
}
