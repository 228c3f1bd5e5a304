/** The two incremental readers of Content-Length messages: `readHttpMessageImpl` on the
    agent, `async_read_until` followed by `readRemainingHttpBodyImpl` on the server. */
module Readers {
  import opened Bytes
  import opened HttpUtils
  import opened Streams

  /** Where the first message of a byte stream ends, for messages with a Content-Length. */
  function FrameEnd(stream: Str): Option<nat> {
    match Find(stream, HEADER_END)
    case None => None
    case Some(p) =>
      match ContentLength(stream[..p + 4])
      case None => None
      case Some(length) => Some(p + 4 + length)
  }

  /** The same, from the header block and the body bytes that came with it. */
  lemma FrameEndOfParts(stream: Str)
    ensures |ExtractBody(stream)| <= |stream|
    ensures FrameEnd(stream) ==
            match ContentLength(ExtractHeaders(stream))
            case None => None
            case Some(length) => Some(|stream| - |ExtractBody(stream)| + length)
  {
    hide ContentLength, Find;
    assert ContentLength("").None? by { NoHeaderNoLength(); }
  }

  lemma NoHeaderNoLength()
    ensures ContentLength("").None?
  {
  }

  const LAST_CHUNK: Str := "\r\n0\r\n"
  const LAST_CHUNK_END: Str := "\r\n0\r\n\r\n"
  const ONLY_CHUNK: Str := "0\r\n\r\n"

  lemma FrameEndBy(stream: Str, p: nat, headers: Str)
    requires Find(stream, HEADER_END) == Some(p) && stream[..p + 4] == headers
    ensures FrameEnd(stream) ==
            match ContentLength(headers) case None => None case Some(length) => Some(p + 4 + length)
  {
    hide Find, ContentLength;
  }

  /** The header block decides the frame, so a longer stream has the same one. */
  lemma FrameEndInLonger(a: Str, b: Str)
    requires Find(a, HEADER_END).Some?
    ensures FrameEnd(a + b) == FrameEnd(a)
  {
    hide FrameEnd, Find, ContentLength;
    FindInLonger(a, b, HEADER_END);
    var p := Find(a, HEADER_END).value;
    assert (a + b)[..p + 4] == a[..p + 4];
    FrameEndBy(a, p, a[..p + 4]);
    FrameEndBy(a + b, p, a[..p + 4]);
  }

  /** What either reader promises for a stream `all` whose first message ends at `end`, when
      the header read stopped after `head` bytes: it succeeds exactly if the stream reaches
      the end of the message, and then holds the message, and no more unless the header read
      itself went further. */
  ghost predicate ReadsFrame(all: Str, end: nat, head: nat, ok: bool, got: Str, left: Str) {
    && (ok <==> end <= |all|)
    && (ok ==> Max(head, end) <= |all| && got == all[..Max(head, end)] && left == all[Max(head, end)..])
  }

  /** When the stream is one message, that is: success, the message, nothing left. */
  lemma ReadsFrameExact(all: Str, head: nat, ok: bool, got: Str, left: Str)
    requires head <= |all| && ReadsFrame(all, |all|, head, ok, got, left)
    ensures ok && got == all && left == ""
  {
  }

  function Max(a: nat, b: nat): (m: nat)
    ensures m == a || m == b
    ensures a <= m && b <= m
  {
    if a < b then b else a
  }

  /** `TCPClient::HttpUtils::readHttpMessageImpl`. The header read took `headCalls` of the
      socket's calls and `head` bytes; from there at most one call per missing body byte. */
  method ReadHttpMessage(socket: Socket, out: Streambuf) returns (ok: bool, ghost head: nat, ghost headCalls: nat)
    requires socket.Valid()
    modifies socket, out
    ensures socket.Valid() && head <= |old(socket.Pending())|
    ensures out.data + socket.Pending() == old(socket.Pending())
    ensures FrameEnd(old(socket.Pending())).Some? ==>
              ReadsFrame(old(socket.Pending()), FrameEnd(old(socket.Pending())).value, head,
                         ok, out.data, socket.Pending())
    ensures Find(old(socket.Pending()), HEADER_END).Some? ==> Find(old(socket.Pending()), HEADER_END).value + 4 <= head
    ensures old(socket.calls) <= headCalls <= old(socket.calls) + head + 1
    ensures FrameEnd(old(socket.Pending())).Some? ==>
              socket.calls - headCalls <= Max(head, FrameEnd(old(socket.Pending())).value) - head
    ensures Find(old(socket.Pending()), HEADER_END).None? ==> !ok
  {
    ghost var all := socket.Pending();
    out.Consume(|out.data|);
    assert out.data == "" && out.data + socket.Pending() == all;
    var found := socket.ReadUntil(out, HEADER_END);
    head, headCalls := |out.data|, socket.calls;
    if !found {
      return false, head, headCalls;
    }
    var current := out.data;
    FindInLonger(current, socket.Pending(), HEADER_END);
    FrameEndInLonger(current, socket.Pending());
    ghost var p := Find(current, HEADER_END).value;
    var headers, body := ExtractHeaders(current), ExtractBody(current);
    var contentLength := ParseContentLength(headers);
    if contentLength.Some? {
      ok := ReadBody(socket, out, |body|, contentLength.value);
      return ok, head, headCalls;
    }
    var chunked := IsChunked(headers);
    if chunked {
      ok := ReadChunks(socket, out, body);
      return ok, head, headCalls;
    }
    return true, head, headCalls;
  }

  /** The Content-Length loop: `have` body bytes are already buffered. */
  method ReadBody(socket: Socket, out: Streambuf, have: nat, contentLength: nat) returns (ok: bool)
    requires socket.Valid()
    modifies socket, out
    ensures socket.Valid() && out.data + socket.Pending() == old(out.data + socket.Pending())
    ensures ok <==> contentLength - have <= |old(socket.Pending())|
    ensures ok ==> |out.data| == |old(out.data)| + Max(have, contentLength) - have
    ensures socket.calls - old(socket.calls) <= Max(have, contentLength) - have
  {
    var size := have;
    while size < contentLength
      invariant socket.Valid() && out.data + socket.Pending() == old(out.data + socket.Pending())
      invariant |out.data| == |old(out.data)| + size - have && have <= size <= Max(have, contentLength)
      invariant socket.calls - old(socket.calls) <= size - have
      decreases contentLength - size
    {
      var piece, ec := socket.ReadSome(Min(8192, contentLength - size));
      if ec {
        assert out.data + "" == out.data;
        return false;
      }
      assert out.data + (piece + socket.Pending()) == (out.data + piece) + socket.Pending();
      out.Append(piece);
      size := size + |piece|;
    }
    return true;
  }

  /** The chunked loop. */
  method ReadChunks(socket: Socket, out: Streambuf, start: Str) returns (ok: bool)
    requires socket.Valid()
    modifies socket, out
    ensures socket.Valid() && out.data + socket.Pending() == old(out.data + socket.Pending())
    ensures ok ==> exists more: Str :: out.data == old(out.data) + more && Find(start + more, LAST_CHUNK).Some?
    ensures !ok ==> Find(start + old(socket.Pending()), LAST_CHUNK).None?
  {
    var body := start;
    ghost var more: Str := "";
    assert start + more == start && out.data + more == out.data;
    while Find(body, LAST_CHUNK_END).None? && Find(body, LAST_CHUNK).None?
      invariant socket.Valid() && out.data + socket.Pending() == old(out.data + socket.Pending())
      invariant body == start + more && out.data == old(out.data) + more
      invariant more + socket.Pending() == old(socket.Pending())
      decreases |socket.Pending()|
    {
      var piece, ec := socket.ReadSome(8192);
      if ec {
        assert more + "" == more;
        return false;
      }
      assert out.data + (piece + socket.Pending()) == (out.data + piece) + socket.Pending();
      assert more + (piece + socket.Pending()) == (more + piece) + socket.Pending();
      assert (start + more) + piece == start + (more + piece);
      assert (old(out.data) + more) + piece == old(out.data) + (more + piece);
      out.Append(piece);
      body := body + piece;
      more := more + piece;
    }
    if Find(body, LAST_CHUNK).None? { LastChunkIn(body); }
    return true;
  }

  /** The longer terminator contains the shorter, so the agent stops at the shorter. */
  lemma LastChunkIn(body: Str)
    requires Find(body, LAST_CHUNK_END).Some?
    ensures Find(body, LAST_CHUNK).Some?
  {
    var i := Find(body, LAST_CHUNK_END).value;
    assert body[i..i + 5] == body[i..i + 7][..5];
    assert OccursAt(body, LAST_CHUNK, i);
  }

  /** `TCPConnection::HttpUtils::readRemainingHttpBodyImpl`: the missing body bytes are
      collected apart and appended only once complete. */
  method ReadRemainingHttpBody(socket: Socket, buf: Streambuf) returns (ok: bool)
    requires socket.Valid()
    modifies socket, buf
    ensures socket.Valid()
    ensures ok ==> buf.data + socket.Pending() == old(buf.data + socket.Pending())
    ensures FrameEnd(old(buf.data)).Some? ==>
              ReadsFrame(old(buf.data + socket.Pending()), FrameEnd(old(buf.data)).value, |old(buf.data)|,
                         ok, buf.data, socket.Pending())
    ensures FrameEnd(old(buf.data)).Some? ==>
              socket.calls - old(socket.calls) <= Max(|old(buf.data)|, FrameEnd(old(buf.data)).value) - |old(buf.data)|
  {
    hide FrameEnd, ExtractHeaders, ExtractBody, ContentLength, Find;
    var current := buf.data;
    FrameEndOfParts(current);
    var headers, body := ExtractHeaders(current), ExtractBody(current);
    var contentLength := ParseContentLength(headers);
    if contentLength.Some? {
      if |body| < contentLength.value {
        var tmp;
        tmp, ok := ReadMissing(socket, contentLength.value - |body|);
        if !ok {
          return false;
        }
        assert current + (tmp + socket.Pending()) == (current + tmp) + socket.Pending();
        buf.Append(tmp);
      }
      return true;
    }
    var chunked := IsChunked(headers);
    if chunked {
      ok := ReadRemainingChunks(socket, buf);
      return ok;
    }
    return true;
  }

  method ReadMissing(socket: Socket, size: nat) returns (tmp: Str, ok: bool)
    requires socket.Valid()
    modifies socket
    ensures socket.Valid() && tmp + socket.Pending() == old(socket.Pending())
    ensures ok <==> size <= |old(socket.Pending())|
    ensures ok ==> |tmp| == size
    ensures socket.calls - old(socket.calls) <= size
  {
    tmp := "";
    while |tmp| < size
      invariant socket.Valid() && |tmp| <= size
      invariant tmp + socket.Pending() == old(socket.Pending())
      invariant socket.calls - old(socket.calls) <= |tmp|
      decreases size - |tmp|
    {
      var piece, ec := socket.ReadSome(size - |tmp|);
      if ec {
        return tmp, false;
      }
      assert tmp + (piece + socket.Pending()) == (tmp + piece) + socket.Pending();
      tmp := tmp + piece;
    }
    return tmp, true;
  }

  method ReadRemainingChunks(socket: Socket, buf: Streambuf) returns (ok: bool)
    requires socket.Valid()
    modifies socket, buf
    ensures socket.Valid() && buf.data + socket.Pending() == old(buf.data + socket.Pending())
    ensures ok ==> Find(ExtractBody(buf.data), LAST_CHUNK_END).Some? || ExtractBody(buf.data) == ONLY_CHUNK
  {
    while true
      invariant socket.Valid() && buf.data + socket.Pending() == old(buf.data + socket.Pending())
      decreases |socket.Pending()|
    {
      var pos := Find(buf.data, HEADER_END);
      if pos.None? {
        return false;
      }
      var bodyPart := buf.data[pos.value + 4..];
      if Find(bodyPart, LAST_CHUNK_END).Some? || bodyPart == ONLY_CHUNK {
        return true;
      }
      var piece, ec := socket.ReadSome(4096);
      if ec {
        return false;
      }
      assert buf.data + (piece + socket.Pending()) == (buf.data + piece) + socket.Pending();
      buf.Append(piece);
    }
  }

  /** `doReadServer`, then the body read of `handleReadServer`. */
  method ServerReceive(socket: Socket, buf: Streambuf) returns (ok: bool, ghost head: nat, ghost headCalls: nat)
    requires socket.Valid()
    modifies socket, buf
    ensures socket.Valid() && head <= |old(socket.Pending())|
    ensures FrameEnd(old(socket.Pending())).Some? ==>
              ReadsFrame(old(socket.Pending()), FrameEnd(old(socket.Pending())).value, head,
                         ok, buf.data, socket.Pending())
    ensures Find(old(socket.Pending()), HEADER_END).Some? ==> Find(old(socket.Pending()), HEADER_END).value + 4 <= head
    ensures old(socket.calls) <= headCalls <= old(socket.calls) + head + 1
    ensures FrameEnd(old(socket.Pending())).Some? ==>
              socket.calls - headCalls <= Max(head, FrameEnd(old(socket.Pending())).value) - head
    ensures Find(old(socket.Pending()), HEADER_END).None? ==> !ok
  {
    ghost var all := socket.Pending();
    buf.Consume(|buf.data|);
    assert buf.data == "" && buf.data + socket.Pending() == all;
    ok := socket.ReadUntil(buf, HEADER_END);
    head, headCalls := |buf.data|, socket.calls;
    if ok {
      FrameEndInLonger(buf.data, socket.Pending());
      ok := ReadRemainingHttpBody(socket, buf);
    }
  }

  /** Given the same bytes, cut in any two ways, the readers agree on success; and when the
      bytes are one message, both end with exactly that message and an empty socket. */
  method ReadersAgree(atAgent: Socket, out: Streambuf, atServer: Socket, buf: Streambuf)
    returns (agentOk: bool, serverOk: bool)
    requires atAgent.Valid() && atServer.Valid() && atAgent != atServer && out != buf
    requires atAgent.Pending() == atServer.Pending()
    requires FrameEnd(atAgent.Pending()).Some?
    modifies atAgent, out, atServer, buf
    ensures agentOk == serverOk == (FrameEnd(old(atAgent.Pending())).value <= |old(atAgent.Pending())|)
    ensures FrameEnd(old(atAgent.Pending())).value == |old(atAgent.Pending())| ==>
              out.data == buf.data == old(atAgent.Pending()) && atAgent.Pending() == atServer.Pending() == ""
  {
    ghost var h1, c1, h2, c2;
    ghost var all := atAgent.Pending();
    agentOk, h1, c1 := ReadHttpMessage(atAgent, out);
    serverOk, h2, c2 := ServerReceive(atServer, buf);
    if FrameEnd(all).value == |all| {
      ReadsFrameExact(all, h1, agentOk, out.data, atAgent.Pending());
      ReadsFrameExact(all, h2, serverOk, buf.data, atServer.Pending());
    }
  }
}
