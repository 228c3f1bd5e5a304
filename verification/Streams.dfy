/** Buffers and sockets: `boost::asio::streambuf` as the bytes it holds, a socket as the
    pieces in which its bytes will arrive. */
module Streams {
  import opened Bytes

  class Streambuf {
    var data: Str

    constructor ()
      ensures data == ""
    {
      data := "";
    }

    method Consume(n: nat)
      modifies this
      ensures data == old(data)[Min(n, |old(data)|)..]
    {
      data := data[Min(n, |data|)..];
    }

    /** `prepare` and `commit`, or a write through an `ostream`. */
    method Append(s: Str)
      modifies this
      ensures data == old(data) + s
    {
      data := data + s;
    }
  }

  /** `copyStringToStreambuf`: the old contents are dropped. */
  method CopyStringToStreambuf(s: Str, buff: Streambuf)
    modifies buff
    ensures buff.data == s
  {
    buff.Consume(|buff.data|);
    buff.Append(s);
    assert old(buff.data)[|old(buff.data)|..] == "";
  }

  /** `moveStreambuf`: appended to the target, gone from the source. */
  method MoveStreambuf(source: Streambuf, target: Streambuf)
    modifies source, target
    ensures source.data == ""
    ensures source != target ==> target.data == old(target.data) + old(source.data)
  {
    target.Append(source.data);
    source.Consume(|source.data|);
  }

  /** `copyStreambuf`: appended to the target, kept in the source. */
  method CopyStreambuf(source: Streambuf, target: Streambuf)
    modifies target
    ensures target.data == old(target.data) + old(source.data)
  {
    target.Append(source.data);
  }

  function Flatten(pieces: seq<Str>): Str {
    if pieces == [] then "" else pieces[0] + Flatten(pieces[1..])
  }

  /** The receiving side of a socket. The pieces fix how reads will be cut and where the
      stream fails: a read yields at least one byte of the first piece, and fails once no
      piece is left. Quantifying over the pieces is quantifying over every segmentation and
      every point of failure. */
  class Socket {
    var pieces: seq<Str>
    var calls: nat

    constructor (pieces: seq<Str>)
      requires forall i :: 0 <= i < |pieces| ==> pieces[i] != ""
      ensures Valid() && this.pieces == pieces && calls == 0
    {
      this.pieces, calls := pieces, 0;
    }

    ghost predicate Valid()
      reads this
    {
      forall i :: 0 <= i < |pieces| ==> pieces[i] != ""
    }

    ghost function Pending(): Str
      reads this
    {
      Flatten(pieces)
    }

    /** `read_some`. */
    method ReadSome(max: nat) returns (data: Str, ec: bool)
      requires Valid() && max > 0
      modifies this
      ensures Valid() && calls == old(calls) + 1
      ensures ec <==> old(Pending()) == ""
      ensures ec ==> data == "" && Pending() == ""
      ensures !ec ==> 1 <= |data| <= max && old(Pending()) == data + Pending()
    {
      calls := calls + 1;
      if pieces == [] {
        return "", true;
      }
      var n := Min(max, |pieces[0]|);
      data, ec := pieces[0][..n], false;
      assert Pending() == pieces[0] + Flatten(pieces[1..]);
      assert pieces[0] == data + pieces[0][n..];
      if n == |pieces[0]| {
        pieces := pieces[1..];
      } else {
        var rest := [pieces[0][n..]] + pieces[1..];
        assert rest[1..] == pieces[1..];
        pieces := rest;
      }
    }

    /** `boost::asio::read_until`: may read past the delimiter. */
    method ReadUntil(buf: Streambuf, delimiter: Str) returns (ok: bool)
      requires Valid()
      modifies this, buf
      ensures Valid()
      ensures buf.data + Pending() == old(buf.data + Pending())
      ensures ok <==> Find(old(buf.data + Pending()), delimiter).Some?
      ensures ok ==> Find(buf.data, delimiter) == Find(old(buf.data + Pending()), delimiter)
      ensures |buf.data| >= |old(buf.data)|
      ensures old(calls) <= calls <= old(calls) + |buf.data| - |old(buf.data)| + if ok then 0 else 1
    {
      while Find(buf.data, delimiter).None?
        invariant Valid() && |buf.data| >= |old(buf.data)|
        invariant old(calls) <= calls <= old(calls) + |buf.data| - |old(buf.data)|
        invariant buf.data + Pending() == old(buf.data + Pending())
        decreases |Pending()|
      {
        var data, ec := ReadSome(65536);
        if ec {
          assert buf.data + "" == buf.data;
          return false;
        }
        assert buf.data + (data + Pending()) == (buf.data + data) + Pending();
        buf.Append(data);
      }
      FindInLonger(buf.data, Pending(), delimiter);
      return true;
    }

    /** `boost::asio::read` of exactly `n` bytes. */
    method ReadExactly(n: nat) returns (data: Str, ok: bool)
      requires Valid()
      modifies this
      ensures Valid() && old(Pending()) == data + Pending()
      ensures ok <==> n <= |old(Pending())|
      ensures ok ==> |data| == n
      ensures !ok ==> Pending() == ""
    {
      data := "";
      while |data| < n
        invariant Valid() && |data| <= n && old(Pending()) == data + Pending()
        decreases n - |data|
      {
        var more, ec := ReadSome(n - |data|);
        if ec {
          return data, false;
        }
        assert data + (more + Pending()) == (data + more) + Pending();
        data := data + more;
      }
      return data, true;
    }
  }

  /** An occurrence found in a prefix is the one found in the whole. */
  lemma FindInLonger(a: Str, b: Str, p: Str)
    requires Find(a, p).Some?
    ensures Find(a + b, p) == Find(a, p)
  {
    var i := Find(a, p).value;
    forall j: nat | j <= i ensures OccursAt(a + b, p, j) <==> OccursAt(a, p, j) {
      OccursInPrefix(a, b, p, i);
      if j + |p| <= |a| { assert (a + b)[j..j + |p|] == a[j..j + |p|]; }
    }
    FindIs(a + b, p, i);
  }

  lemma OccursInPrefix(a: Str, b: Str, p: Str, i: nat)
    requires OccursAt(a, p, i)
    ensures OccursAt(a + b, p, i)
  {
    assert (a + b)[i..i + |p|] == a[i..i + |p|];
  }
}
