/** `http_utils.hpp`: header scanning, trimming and the header/body split. */
module HttpUtils {
  import opened Bytes

  function LowerChar(c: Byte): Byte {
    if 'A' <= c <= 'Z' then (c as int + 32) as char else c
  }

  /** `toLowerCopy`. */
  function ToLower(s: Str): (r: Str)
    ensures |r| == |s|
    ensures forall i :: 0 <= i < |s| ==> r[i] == LowerChar(s[i])
  {
    seq(|s|, i requires 0 <= i < |s| => LowerChar(s[i]))
  }

  predicate IsBlank(c: Byte) {
    c == ' ' || c == '\t'
  }

  predicate IsTrailing(c: Byte) {
    IsBlank(c) || c == CR || c == LF
  }

  function TrimFront(s: Str): Str {
    if s != "" && IsBlank(s[0]) then TrimFront(s[1..]) else s
  }

  function TrimBack(s: Str): Str {
    if s != "" && IsTrailing(s[|s| - 1]) then TrimBack(s[..|s| - 1]) else s
  }

  function Trim(s: Str): Str {
    TrimBack(TrimFront(s))
  }

  predicate Trimmed(s: Str) {
    s == "" || (!IsBlank(s[0]) && !IsTrailing(s[|s| - 1]))
  }

  /** `trimCopy`. */
  method TrimCopy(text: Str) returns (value: Str)
    ensures value == Trim(text)
  {
    value := text;
    while value != "" && IsBlank(value[0])
      invariant TrimFront(value) == TrimFront(text)
      decreases |value|
    {
      value := value[1..];
    }
    while value != "" && IsTrailing(value[|value| - 1])
      invariant TrimBack(value) == Trim(text)
      decreases |value|
    {
      value := value[..|value| - 1];
    }
  }

  /** A header value survives `name: value` and trimming exactly when it was trimmed. */
  lemma TrimOfField(value: Str)
    ensures Trim(" " + value) == Trim(value)
    ensures Trim(value) == value <==> Trimmed(value)
  {
    assert (" " + value)[1..] == value;
    TrimFrontShape(value);
    TrimBackShape(TrimFront(value));
  }

  /** What is trimmed: blanks and tabs in front, those and line ends behind, and no more. */
  lemma TrimExactly(front: Str, middle: Str, back: Str)
    requires forall i :: 0 <= i < |front| ==> front[i] == ' ' || front[i] == '\t'
    requires forall i :: 0 <= i < |back| ==> back[i] == ' ' || back[i] == '\t' || back[i] == CR || back[i] == LF
    requires middle != "" && middle[0] != ' ' && middle[0] != '\t'
    requires var c := middle[|middle| - 1]; c != ' ' && c != '\t' && c != CR && c != LF
    ensures Trim(front + (middle + back)) == middle
  {
    FrontTrimmed(front, middle + back);
    BackTrimmed(middle, back);
  }

  lemma {:induction false} FrontTrimmed(front: Str, s: Str)
    requires forall i :: 0 <= i < |front| ==> front[i] == ' ' || front[i] == '\t'
    requires s == "" || (s[0] != ' ' && s[0] != '\t')
    ensures TrimFront(front + s) == s
  {
    if front == "" {
      assert front + s == s;
    } else {
      assert (front + s)[1..] == front[1..] + s;
      FrontTrimmed(front[1..], s);
    }
  }

  lemma {:induction false} BackTrimmed(s: Str, back: Str)
    requires forall i :: 0 <= i < |back| ==> back[i] == ' ' || back[i] == '\t' || back[i] == CR || back[i] == LF
    requires s == "" || !IsTrailing(s[|s| - 1])
    ensures TrimBack(s + back) == s
  {
    if back == "" {
      assert s + back == s;
    } else {
      var n := |back| - 1;
      assert (s + back)[..|s + back| - 1] == s + back[..n] && (s + back)[|s + back| - 1] == back[n];
      BackTrimmed(s, back[..n]);
    }
  }

  lemma TrimFrontShape(s: Str)
    ensures |TrimFront(s)| <= |s| && TrimFront(s) == s[|s| - |TrimFront(s)|..]
    ensures TrimFront(s) == "" || !IsBlank(TrimFront(s)[0])
  {
  }

  lemma TrimBackShape(s: Str)
    ensures |TrimBack(s)| <= |s| && TrimBack(s) == s[..|TrimBack(s)|]
    ensures TrimBack(s) == "" || !IsTrailing(TrimBack(s)[|TrimBack(s)| - 1])
  {
  }

  /** `extractHeaders`: up to and including the blank line, or nothing. */
  function ExtractHeaders(message: Str): Str {
    match Find(message, HEADER_END)
    case None => ""
    case Some(p) => message[..p + 4]
  }

  /** `extractBody`: everything after the first blank line. */
  function ExtractBody(message: Str): Str {
    match Find(message, HEADER_END)
    case None => ""
    case Some(p) => message[p + 4..]
  }

  // ----- std::getline ---------------------------------------------------------------------

  function LineLength(s: Str): (n: nat)
    ensures n <= |s| && LF !in s[..n]
    ensures n < |s| ==> s[n] == LF
  {
    if s == "" || s[0] == LF then 0 else
      var n := 1 + LineLength(s[1..]);
      assert s[..n] == [s[0]] + s[1..][..n - 1];
      n
  }

  function StripCr(line: Str): Str {
    if line != "" && line[|line| - 1] == CR then line[..|line| - 1] else line
  }

  function FirstLine(s: Str): Str {
    StripCr(s[..LineLength(s)])
  }

  function AfterLine(s: Str): (r: Str)
    ensures s != "" ==> |r| < |s|
  {
    var n := LineLength(s);
    if n < |s| then s[n + 1..] else ""
  }

  /** The first line whose lower-case form starts with `prefix`. */
  function ScanHeader(text: Str, prefix: Str): Option<Str>
    decreases |text|
  {
    if text == "" then None
    else if StartsWith(ToLower(FirstLine(text)), prefix) then Some(FirstLine(text))
    else ScanHeader(AfterLine(text), prefix)
  }

  const CONTENT_LENGTH: Str := "content-length:"

  /** What `parseContentLength` answers; `None` is its `false`. A first matching line whose
      value does not parse decides the answer. */
  function ContentLength(headers: Str): Option<nat> {
    match ScanHeader(headers, CONTENT_LENGTH)
    case None => None
    case Some(line) =>
      if |line| < 15 then None
      else Stoull(TrimFront(line[15..]))
  }

  function RawHeader(headers: Str, name: Str): Str {
    match ScanHeader(headers, ToLower(name) + ":")
    case None => ""
    case Some(line) => if |line| <= |name| then "" else Trim(line[|name| + 1..])
  }

  /** A scan hit is at least as long as the prefix it matched, so both `substr` calls of the
      original are in range. */
  lemma {:induction false} ScanHitLong(text: Str, prefix: Str)
    requires ScanHeader(text, prefix).Some?
    ensures |prefix| <= |ScanHeader(text, prefix).value|
    decreases |text|
  {
    if !StartsWith(ToLower(FirstLine(text)), prefix) {
      ScanHitLong(AfterLine(text), prefix);
    }
  }

  method ScanLines(headers: Str, prefix: Str) returns (line: Option<Str>)
    ensures line == ScanHeader(headers, prefix)
  {
    var rest := headers;
    while rest != ""
      invariant ScanHeader(rest, prefix) == ScanHeader(headers, prefix)
      decreases |rest|
    {
      var current := FirstLine(rest);
      if StartsWith(ToLower(current), prefix) {
        return Some(current);
      }
      rest := AfterLine(rest);
    }
    return None;
  }

  /** `parseContentLength`. */
  method ParseContentLength(headers: Str) returns (value: Option<nat>)
    ensures value == ContentLength(headers)
  {
    var line := ScanLines(headers, CONTENT_LENGTH);
    if line.None? {
      return None;
    }
    ScanHitLong(headers, CONTENT_LENGTH);
    var raw := line.value[15..];
    while raw != "" && IsBlank(raw[0])
      invariant TrimFront(raw) == TrimFront(line.value[15..])
      decreases |raw|
    {
      raw := raw[1..];
    }
    return Stoull(raw);
  }

  /** `getRawHeader`. */
  method GetRawHeader(headers: Str, name: Str) returns (value: Str)
    ensures value == RawHeader(headers, name)
  {
    var line := ScanLines(headers, ToLower(name) + ":");
    if line.None? {
      return "";
    }
    ScanHitLong(headers, ToLower(name) + ":");
    value := TrimCopy(line.value[|name| + 1..]);
  }

  const TRANSFER_ENCODING: Str := "transfer-encoding:"
  const CHUNKED: Str := "chunked"

  /** `isChunked`: some transfer-encoding line names the chunked coding. */
  predicate Chunked(headers: Str)
    decreases |headers|
  {
    headers != "" &&
    var lower := ToLower(FirstLine(headers));
    (StartsWith(lower, TRANSFER_ENCODING) && Find(lower, CHUNKED).Some?) || Chunked(AfterLine(headers))
  }

  method IsChunked(headers: Str) returns (chunked: bool)
    ensures chunked == Chunked(headers)
  {
    var rest := headers;
    while rest != ""
      invariant Chunked(rest) == Chunked(headers)
      decreases |rest|
    {
      var lower := ToLower(FirstLine(rest));
      if StartsWith(lower, TRANSFER_ENCODING) && Find(lower, CHUNKED).Some? {
        return true;
      }
      rest := AfterLine(rest);
    }
    return false;
  }

  // ----- messages made of lines --------------------------------------------------------------

  /** A line the writers below may emit: not empty, no CR, no LF. */
  predicate CleanLine(line: Str) {
    line != "" && CR !in line && LF !in line
  }

  predicate CleanLines(lines: seq<Str>) {
    lines != [] && forall i :: 0 <= i < |lines| ==> CleanLine(lines[i])
  }

  function HeaderBlock(lines: seq<Str>): (r: Str)
    ensures lines != [] ==> |r| >= 2
  {
    if lines == [] then "" else (lines[0] + CRLF) + HeaderBlock(lines[1..])
  }

  function Message(lines: seq<Str>, body: Str): Str {
    HeaderBlock(lines) + (CRLF + body)
  }

  lemma OccursShift(a: Str, b: Str, p: Str, k: nat)
    ensures OccursAt(a + b, p, |a| + k) <==> OccursAt(b, p, k)
  {
    if k + |p| <= |b| { assert (a + b)[|a| + k..|a| + k + |p|] == b[k..k + |p|]; }
  }

  lemma HeaderEndBytes(s: Str, j: nat)
    ensures OccursAt(s, HEADER_END, j) <==>
            j + 4 <= |s| && s[j] == CR && s[j + 1] == LF && s[j + 2] == CR && s[j + 3] == LF
  {
    if j + 4 <= |s| { assert s[j..j + 4] == [s[j], s[j + 1], s[j + 2], s[j + 3]]; }
  }

  /** Inside clean lines the blank line cannot start. */
  lemma {:induction false} NoEarlyHeaderEnd(lines: seq<Str>, body: Str, j: nat)
    requires CleanLines(lines)
    requires j + 2 < |HeaderBlock(lines)|
    ensures !OccursAt(Message(lines, body), HEADER_END, j)
  {
    var line, first := lines[0], lines[0] + CRLF;
    var rest := HeaderBlock(lines[1..]) + (CRLF + body);
    var m := Message(lines, body);
    assert m == first + rest;
    HeaderEndBytes(m, j);
    if j < |line| {
      assert m[j] == line[j];
    } else if j == |line| {
      assert lines[1..] != [];
      assert m[j + 2] == rest[0] == lines[1][0];
    } else if j == |line| + 1 {
      assert m[j] == LF;
    } else {
      assert lines[1..] != [];
      NoEarlyHeaderEnd(lines[1..], body, j - |first|);
      OccursShift(first, rest, HEADER_END, j - |first|);
    }
  }

  lemma {:induction false} BlockEndsInCrlf(lines: seq<Str>)
    requires lines != []
    ensures HeaderBlock(lines)[|HeaderBlock(lines)| - 2..] == CRLF
  {
    if |lines| > 1 {
      BlockEndsInCrlf(lines[1..]);
      var r := HeaderBlock(lines[1..]);
      assert HeaderBlock(lines)[|HeaderBlock(lines)| - 2..] == r[|r| - 2..];
    } else {
      assert lines[1..] == [];
    }
  }

  /** The first blank line of a message made of clean lines is the one that closes the
      header, whatever bytes the body holds: blank lines included. */
  lemma HeaderEndOfMessage(lines: seq<Str>, body: Str)
    requires CleanLines(lines)
    ensures Find(Message(lines, body), HEADER_END) == Some(|HeaderBlock(lines)| - 2)
    ensures ExtractHeaders(Message(lines, body)) == HeaderBlock(lines) + CRLF
    ensures ExtractBody(Message(lines, body)) == body
  {
    hide HeaderBlock, Find, OccursAt;
    var m, h := Message(lines, body), HeaderBlock(lines);
    BlockEndsInCrlf(lines);
    BlankLineHere(h, body);
    forall j: nat | j < |h| - 2 ensures !OccursAt(m, HEADER_END, j) {
      NoEarlyHeaderEnd(lines, body, j);
    }
    FindIs(m, HEADER_END, |h| - 2);
  }

  /** Where a block ends in a line end, the next one makes the blank line. */
  lemma BlankLineHere(h: Str, body: Str)
    requires |h| >= 2 && h[|h| - 2..] == CRLF
    ensures
      var m, i := h + (CRLF + body), |h| - 2;
      OccursAt(m, HEADER_END, i) && m[..i + 4] == h + CRLF && m[i + 4..] == body
  {
    var m, i := h + (CRLF + body), |h| - 2;
    HeaderEndBytes(m, i);
    assert h[i] == h[i..][0] && h[i + 1] == h[i..][1];
    assert m[i..][..4] == [m[i], m[i + 1], m[i + 2], m[i + 3]];
  }

  lemma {:induction false} LineLengthIs(line: Str, rest: Str)
    requires LF !in line
    ensures LineLength(line + ([LF] + rest)) == |line|
  {
    if line != "" {
      assert (line + ([LF] + rest))[1..] == line[1..] + ([LF] + rest);
      LineLengthIs(line[1..], rest);
    }
  }

  lemma FirstLineOf(line: Str, rest: Str)
    requires LF !in line
    ensures FirstLine(line + CRLF + rest) == line
    ensures AfterLine(line + CRLF + rest) == rest
  {
    var s := line + CRLF + rest;
    var l := line + [CR];
    assert s == l + ([LF] + rest);
    LineLengthIs(l, rest);
    hide LineLength;
    assert s[..|l|] == l && s[|l| + 1..] == rest;
    assert l[..|l| - 1] == line;
  }

  lemma FirstLineOfBlock(lines: seq<Str>, tail: Str)
    requires CleanLines(lines)
    ensures FirstLine(HeaderBlock(lines) + tail) == lines[0]
    ensures AfterLine(HeaderBlock(lines) + tail) == HeaderBlock(lines[1..]) + tail
  {
    var rest := HeaderBlock(lines[1..]) + tail;
    assert HeaderBlock(lines) + tail == lines[0] + CRLF + rest;
    FirstLineOf(lines[0], rest);
  }

  /** A prefix that starts no line of the block is not found. */
  lemma {:induction false} ScanMisses(lines: seq<Str>, prefix: Str)
    requires prefix != "" && forall i :: 0 <= i < |lines| ==> CleanLine(lines[i])
    requires forall i :: 0 <= i < |lines| ==> !StartsWith(ToLower(lines[i]), prefix)
    ensures ScanHeader(HeaderBlock(lines) + CRLF, prefix).None?
  {
    if lines == [] {
      assert HeaderBlock(lines) + CRLF == "" + CRLF + "";
      FirstLineOf("", "");
    } else {
      FirstLineOfBlock(lines, CRLF);
      assert HeaderBlock(lines) + CRLF != "";
      ScanMisses(lines[1..], prefix);
    }
  }

  /** Where a message made of clean lines is cut. */
  lemma MessageLayout(lines: seq<Str>, body: Str) returns (p: nat)
    requires CleanLines(lines)
    ensures Find(Message(lines, body), HEADER_END) == Some(p)
    ensures |Message(lines, body)| == p + 4 + |body|
    ensures Message(lines, body)[..p + 4] == HeaderBlock(lines) + CRLF
    ensures Message(lines, body)[p + 4..] == body
    ensures FirstLine(Message(lines, body)) == lines[0]
  {
    hide Find, FirstLine, ExtractHeaders, ExtractBody;
    HeaderEndOfMessage(lines, body);
    FirstLineOfBlock(lines, CRLF + body);
    p := |HeaderBlock(lines)| - 2;
    CutHeader(HeaderBlock(lines), body);
  }

  lemma CutHeader(h: Str, body: Str)
    ensures (h + (CRLF + body))[..|h| + 2] == h + CRLF
    ensures (h + (CRLF + body))[|h| + 2..] == body
  {
  }

  /** Scanning a block of clean lines stops at the first line with the prefix. */
  lemma {:induction false} ScanFinds(lines: seq<Str>, tail: Str, k: nat, prefix: Str)
    requires CleanLines(lines) && k < |lines|
    requires forall j :: 0 <= j < k ==> !StartsWith(ToLower(lines[j]), prefix)
    requires StartsWith(ToLower(lines[k]), prefix)
    ensures ScanHeader(HeaderBlock(lines) + tail, prefix) == Some(lines[k])
  {
    hide HeaderBlock, FirstLine, AfterLine, ToLower, StartsWith;
    FirstLineOfBlock(lines, tail);
    assert HeaderBlock(lines) + tail != "";
    if k > 0 {
      ScanFinds(lines[1..], tail, k - 1, prefix);
    }
  }

  // ----- what headers say, by their lines ---------------------------------------------------------

  /** The first line of the field decides the declared length, readable or not; without such a
      line there is none. */
  lemma FirstLengthDecides(lines: seq<Str>, tail: Str, k: nat)
    requires CleanLines(lines) && k < |lines|
    requires forall j :: 0 <= j < k ==> !StartsWith(ToLower(lines[j]), "content-length:")
    requires StartsWith(ToLower(lines[k]), "content-length:")
    ensures |lines[k]| >= 15
    ensures ContentLength(HeaderBlock(lines) + tail) == Stoull(TrimFront(lines[k][15..]))
  {
    assert |lines[k]| >= 15;
    hide ScanHeader, HeaderBlock, StartsWith, ToLower, Stoull, TrimFront;
    ScanFinds(lines, tail, k, "content-length:");
  }

  lemma NoLengthDeclared(lines: seq<Str>)
    requires CleanLines(lines)
    requires forall i :: 0 <= i < |lines| ==> !StartsWith(ToLower(lines[i]), "content-length:")
    ensures ContentLength(HeaderBlock(lines) + CRLF) == None
  {
    hide ScanHeader, HeaderBlock, StartsWith, ToLower;
    ScanMisses(lines, "content-length:");
  }

  /** Likewise for any other field: what the first line says, trimmed, or nothing. */
  lemma FirstHeaderDecides(lines: seq<Str>, tail: Str, k: nat, name: Str)
    requires CleanLines(lines) && k < |lines|
    requires forall j :: 0 <= j < k ==> !StartsWith(ToLower(lines[j]), ToLower(name) + ":")
    requires StartsWith(ToLower(lines[k]), ToLower(name) + ":")
    ensures |lines[k]| >= |name| + 1
    ensures RawHeader(HeaderBlock(lines) + tail, name) == Trim(lines[k][|name| + 1..])
  {
    assert |lines[k]| >= |name| + 1;
    hide ScanHeader, HeaderBlock, StartsWith, ToLower, Trim;
    ScanFinds(lines, tail, k, ToLower(name) + ":");
  }

  lemma MissingHeader(lines: seq<Str>, name: Str)
    requires CleanLines(lines)
    requires forall i :: 0 <= i < |lines| ==> !StartsWith(ToLower(lines[i]), ToLower(name) + ":")
    ensures RawHeader(HeaderBlock(lines) + CRLF, name) == ""
  {
    hide ScanHeader, HeaderBlock, StartsWith, ToLower;
    ScanMisses(lines, ToLower(name) + ":");
  }

  /** Case is folded for the letters of the alphabet and for nothing else. */
  lemma AlphabetLowered(s: Str, i: nat)
    requires i < |s|
    ensures
      var l := ToLower(s)[i];
      if 'A' <= s[i] <= 'Z' then 'a' <= l <= 'z' && l as int - 'a' as int == s[i] as int - 'A' as int
      else l == s[i]
  {
  }

  /** A transfer-encoding line that mentions the chunked coding. */
  ghost predicate NamesChunked(line: Str) {
    var lower := ToLower(line);
    StartsWith(lower, "transfer-encoding:") && exists i: nat :: OccursAt(lower, "chunked", i)
  }

  /** A message is chunked exactly if some line of its block says so. */
  lemma {:induction false} ChunkedExactly(lines: seq<Str>)
    requires forall i :: 0 <= i < |lines| ==> CleanLine(lines[i])
    ensures Chunked(HeaderBlock(lines) + CRLF) <==> exists i :: 0 <= i < |lines| && NamesChunked(lines[i])
  {
    hide ToLower, StartsWith, Find, OccursAt, NamesChunked;
    if lines == [] {
      assert HeaderBlock(lines) + CRLF == "" + CRLF + "";
      FirstLineOf("", "");
      NamesChunkedIs("");
      EmptyNamesNothing();
    } else {
      FirstLineOfBlock(lines, CRLF);
      assert HeaderBlock(lines) + CRLF != "";
      NamesChunkedIs(lines[0]);
      ChunkedExactly(lines[1..]);
      hide HeaderBlock;
      assert forall i :: 1 <= i < |lines| ==> lines[i] == lines[1..][i - 1];
      if Chunked(HeaderBlock(lines[1..]) + CRLF) {
        var i :| 0 <= i < |lines[1..]| && NamesChunked(lines[1..][i]);
        assert NamesChunked(lines[i + 1]);
      }
    }
  }

  lemma NamesChunkedIs(line: Str)
    ensures NamesChunked(line) <==>
            StartsWith(ToLower(line), TRANSFER_ENCODING) && Find(ToLower(line), CHUNKED).Some?
  {
    hide ToLower, StartsWith, OccursAt;
  }

  lemma EmptyNamesNothing()
    ensures !NamesChunked("")
  {
  }
}
