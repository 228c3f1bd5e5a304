/** The SOCKS5 side of the agent: `readExactFromClient` and `handleSocks5Handshake`, against
    the message formats of sections 3 to 6 of RFC 1928. */
module Socks5 {
  import opened Bytes
  import opened Streams

  // ----- the messages of RFC 1928 -----------------------------------------------------------

  /** An address by type: four octets, a counted name, sixteen octets. */
  datatype Address = V4(octets: Str) | Domain(name: Str) | V6(octets6: Str) {
    predicate Valid() {
      match this
      case V4(o) => |o| == 4
      case Domain(n) => |n| < 256
      case V6(o) => |o| == 16
    }

    function Bytes(): Str
      requires Valid()
    {
      match this
      case V4(o) => [1 as char] + o
      case Domain(n) => [3 as char, |n| as char] + n
      case V6(o) => [4 as char] + o
    }

    /** The host text the agent derives: dotted decimal, the name itself, or the text of the
        IPv6 address as the address library prints it. */
    function Text(v6: Str -> Str): Str
      requires Valid()
    {
      match this
      case V4(o) => Dotted(o)
      case Domain(n) => n
      case V6(o) => v6(o)
    }
  }

  function Dotted(o: Str): Str
    requires |o| == 4
  {
    Decimal(o[0] as int) + "." + Decimal(o[1] as int) + "." + Decimal(o[2] as int) + "." + Decimal(o[3] as int)
  }

  /** A greeting offering `methods`, and a CONNECT request. */
  datatype Greeting = Greeting(methods: Str) {
    function Bytes(): Str
      requires |methods| < 256
    {
      [5 as char, |methods| as char] + methods
    }
  }

  datatype Command = Command(reserved: Byte, address: Address, port: nat) {
    predicate Valid() {
      address.Valid() && port < 65536
    }

    function Bytes(): Str
      requires Valid()
    {
      [5 as char, 1 as char, reserved] + (address.Bytes() + [(port / 256) as char, (port % 256) as char])
    }
  }

  const AUTH_REPLY: Str := [5 as char, 0 as char]
  const FAIL_REPLY: Str :=
    [ 5 as char, 7 as char, 0 as char, 1 as char, 0 as char,
      0 as char, 0 as char, 0 as char, 0 as char, 0 as char ]

  /** The synthesised request: a bare host is followed by its port, one with a colon is
      bracketed first. */
  function TargetText(host: Str, port: nat): Str {
    if ':' in host then "[" + host + "]:" + Decimal(port) else host + ":" + Decimal(port)
  }

  function ConnectLine(target: Str): Str {
    "CONNECT " + target + " HTTP/1.1"
  }

  function ConnectText(host: Str, port: nat): Str {
    var target := TargetText(host, port);
    ConnectLine(target) + CRLF + ("Host: " + target + CRLF) + CRLF
  }

  // ----- the handshake on a byte stream ----------------------------------------------------------

  /** How the handshake ends on a given stream: the replies written, and on success the
      request put in the read buffer and the bytes not consumed. */
  datatype Outcome = Refused(replies: Str) | Accepted(request: Str, rest: Str)

  /** The address after its type byte, and what follows it. */
  function ReadAddress(kind: Byte, s: Str): (r: Option<(Address, Str)>)
    ensures r.Some? ==> r.value.0.Valid()
  {
    if kind as int == 1 then
      if |s| < 4 then None else Some((V4(s[..4]), s[4..]))
    else if kind as int == 3 then
      if |s| < 1 || |s| < 1 + s[0] as int then None
      else Some((Domain(s[1..1 + s[0] as int]), s[1 + s[0] as int..]))
    else if kind as int == 4 then
      if |s| < 16 then None else Some((V6(s[..16]), s[16..]))
    else None
  }

  /** Address and port, and what follows them. */
  function ReadDestination(kind: Byte, s: Str): (r: Option<(Address, nat, Str)>)
    ensures r.Some? ==> r.value.0.Valid() && r.value.1 < 65536
  {
    match ReadAddress(kind, s)
    case None => None
    case Some((address, rest)) =>
      if |rest| < 2 then None
      else Some((address, rest[0] as int * 256 + rest[1] as int, rest[2..]))
  }

  function ReadCommand(s: Str, v6: Str -> Str): (r: Outcome)
    ensures r.Refused? ==> |r.replies| >= 2
  {
    if |s| < 4 then Refused(AUTH_REPLY)
    else if s[0] as int != 5 || s[1] as int != 1 then Refused(AUTH_REPLY + FAIL_REPLY)
    else
      match ReadDestination(s[3], s[4..])
      case None => Refused(AUTH_REPLY)
      case Some((address, port, rest)) => Accepted(ConnectText(address.Text(v6), port), rest)
  }

  function Handshake(s: Str, v6: Str -> Str): Outcome {
    if |s| < 2 || s[0] as int != 5 || |s| < 2 + s[1] as int then Refused("")
    else ReadCommand(s[2 + s[1] as int..], v6)
  }

  // ----- the connection ------------------------------------------------------------------------------

  /** The agent's side of a client connection: the bytes already buffered, the socket they
      come from, and what has been written back. */
  class ClientConnection {
    const socket: Socket
    const readBuffer: Streambuf
    var sent: Str

    constructor (socket: Socket, readBuffer: Streambuf)
      ensures this.socket == socket && this.readBuffer == readBuffer && sent == ""
    {
      this.socket, this.readBuffer, sent := socket, readBuffer, "";
    }

    ghost predicate Valid()
      reads this, socket
    {
      socket.Valid()
    }

    /** Everything the client has sent and the agent has not consumed. */
    ghost function Incoming(): Str
      reads this, socket, readBuffer
    {
      readBuffer.data + socket.Pending()
    }

    /** The buffer only lost bytes at its front, and the socket was not read while any remain. */
    twostate predicate OnlyConsumed()
      reads this, socket, readBuffer
    {
      && Suffix(readBuffer.data, old(readBuffer.data))
      && (readBuffer.data != "" ==> socket.Pending() == old(socket.Pending()))
    }

    /** `readExactFromClient`: the buffer first, then the socket. */
    method ReadExactFromClient(size: nat) returns (data: Str, ok: bool)
      requires Valid()
      modifies socket, readBuffer
      ensures Valid()
      ensures ok <==> size <= |old(Incoming())|
      ensures ok ==> data == old(Incoming())[..size] && Incoming() == old(Incoming())[size..]
      ensures OnlyConsumed()
    {
      ghost var all := Incoming();
      data := "";
      while |data| < size && |readBuffer.data| > 0
        invariant Valid() && |data| <= size
        invariant data + Incoming() == all && socket.Pending() == old(socket.Pending())
        invariant |data| <= |old(readBuffer.data)| && readBuffer.data == old(readBuffer.data)[|data|..]
        decreases |readBuffer.data|
      {
        var n := Min(size - |data|, |readBuffer.data|);
        ghost var before, pending := readBuffer.data, socket.Pending();
        var now := readBuffer.data[..n];
        readBuffer.Consume(n);
        Regroup(data, now, before, pending, readBuffer.data);
        data := data + now;
      }
      if |data| == size {
        FrontIs(all, data, Incoming());
        return data, true;
      }
      assert readBuffer.data == "" && Incoming() == socket.Pending();
      var more;
      more, ok := socket.ReadExactly(size - |data|);
      assert Incoming() == socket.Pending();
      FrontAndMore(all, data, more, Incoming());
      return data + more, ok;
    }

    /** The address part: which bytes follow depends on the type. */
    method ReadHost(kind: Byte, v6: Str -> Str) returns (host: Str, ghost address: Address, ok: bool)
      requires Valid()
      modifies socket, readBuffer
      ensures Valid()
      ensures ok <==> ReadAddress(kind, old(Incoming())).Some?
      ensures ok ==> address.Valid() && host == address.Text(v6)
                     && ReadAddress(kind, old(Incoming())) == Some((address, Incoming()))
      ensures OnlyConsumed()
    {
      host, address := "", V4("");
      if kind as int == 1 {
        var ip;
        ip, ok := ReadExactFromClient(4);
        if ok {
          host, address := Dotted(ip), V4(ip);
        }
      } else if kind as int == 3 {
        host, ok := ReadName();
        address := Domain(host);
      } else if kind as int == 4 {
        var ip;
        ip, ok := ReadExactFromClient(16);
        if ok {
          host, address := v6(ip), V6(ip);
        }
      } else {
        ok := false;
      }
    }

    method ReadName() returns (name: Str, ok: bool)
      requires Valid()
      modifies socket, readBuffer
      ensures Valid() && (ok ==> |name| < 256)
      ensures ok <==> ReadAddress(3 as char, old(Incoming())).Some?
      ensures ok ==> ReadAddress(3 as char, old(Incoming())) == Some((Domain(name), Incoming()))
      ensures OnlyConsumed()
    {
      ghost var all := Incoming();
      var length;
      length, ok := ReadExactFromClient(1);
      if !ok {
        return "", false;
      }
      assert length[0] == all[0];
      name, ok := ReadExactFromClient(length[0] as int);
      assert ok ==> all[1..][..length[0] as int] == all[1..1 + length[0] as int];
      assert ok ==> all[1..][length[0] as int..] == all[1 + length[0] as int..];
    }

    /** The CONNECT request, once the method reply is out. */
    method ReadRequest(v6: Str -> Str) returns (request: Str, ok: bool)
      requires Valid()
      modifies this`sent, socket, readBuffer
      ensures Valid()
      ensures ok <==> ReadCommand(old(Incoming()), v6).Accepted?
      ensures ok ==> ReadCommand(old(Incoming()), v6) == Accepted(request, Incoming()) && sent == old(sent)
      ensures !ok ==> sent == old(sent) + ReadCommand(old(Incoming()), v6).replies[2..]
      ensures OnlyConsumed()
    {
      hide ReadDestination, ConnectText;
      ghost var all := Incoming();
      request := "";
      var req;
      req, ok := ReadExactFromClient(4);
      if !ok {
        return request, false;
      }
      if req[0] as int != 5 || req[1] as int != 1 {
        sent := sent + FAIL_REPLY;
        return request, false;
      }
      assert req[3] == all[3];
      var host, port;
      ghost var address;
      host, port, address, ok := ReadHostAndPort(req[3], v6);
      if !ok {
        return request, false;
      }
      request := ConnectText(host, port);
    }

    method ReadHostAndPort(kind: Byte, v6: Str -> Str) returns (host: Str, port: nat, ghost address: Address, ok: bool)
      requires Valid()
      modifies socket, readBuffer
      ensures Valid()
      ensures ok <==> ReadDestination(kind, old(Incoming())).Some?
      ensures ok ==> address.Valid() && host == address.Text(v6)
                     && ReadDestination(kind, old(Incoming())) == Some((address, port, Incoming()))
      ensures OnlyConsumed()
    {
      hide ReadAddress;
      port := 0;
      host, address, ok := ReadHost(kind, v6);
      if !ok {
        return host, port, address, false;
      }
      var portBytes;
      portBytes, ok := ReadExactFromClient(2);
      if ok {
        port := portBytes[0] as int * 256 + portBytes[1] as int;
      }
    }

    method ReadGreeting() returns (ok: bool)
      requires Valid()
      modifies socket, readBuffer
      ensures Valid()
      ensures ok <==> |old(Incoming())| >= 2 && old(Incoming())[0] as int == 5
                      && |old(Incoming())| >= 2 + old(Incoming())[1] as int
      ensures ok ==> Incoming() == old(Incoming())[2 + old(Incoming())[1] as int..]
      ensures OnlyConsumed()
    {
      ghost var all := Incoming();
      var header, methods;
      header, ok := ReadExactFromClient(2);
      if !ok {
        return false;
      }
      assert header[0] == all[0] && header[1] == all[1];
      if header[0] as int != 5 {
        return false;
      }
      methods, ok := ReadExactFromClient(header[1] as int);
      assert ok ==> all[2..][header[1] as int..] == all[2 + header[1] as int..];
    }

    /** `handleSocks5Handshake`. Whatever was still buffered behind the handshake is `dropped`
        when the synthesised request replaces the read buffer. */
    method HandleSocks5Handshake(v6: Str -> Str) returns (ok: bool, ghost dropped: Str)
      requires Valid()
      modifies this`sent, socket, readBuffer
      ensures Valid()
      ensures ok <==> Handshake(old(Incoming()), v6).Accepted?
      ensures ok ==> sent == old(sent) + AUTH_REPLY
                     && Handshake(old(Incoming()), v6) == Accepted(readBuffer.data, dropped + socket.Pending())
      ensures !ok ==> sent == old(sent) + Handshake(old(Incoming()), v6).replies
      ensures Suffix(dropped, old(readBuffer.data))
      ensures dropped != "" ==> socket.Pending() == old(socket.Pending())
    {
      hide ReadCommand, ConnectText, ReadAddress, Handshake;
      dropped := "";
      ghost var all := Incoming();
      ok := ReadGreeting();
      GreetingDecides(all, v6);
      if !ok {
        return false, dropped;
      }
      sent := sent + AUTH_REPLY;
      var request;
      request, ok := ReadRequest(v6);
      if !ok {
        RefusedReplies(all[2 + all[1] as int..], v6);
        return false, dropped;
      }
      dropped := readBuffer.data;
      CopyStringToStreambuf(request, readBuffer);
    }
  }

  lemma AddressReadBack(address: Address, rest: Str)
    requires address.Valid()
    ensures ReadAddress(address.Bytes()[0], address.Bytes()[1..] + rest) == Some((address, rest))
  {
    var s := address.Bytes()[1..] + rest;
    match address
    case V4(o) => assert s == o + rest;
    case Domain(n) =>
      assert s == [|n| as char] + n + rest;
      assert s[1..1 + |n|] == n && s[1 + |n|..] == rest;
    case V6(o) => assert s == o + rest;
  }

  lemma DestinationReadBack(address: Address, port: nat, rest: Str)
    requires address.Valid() && port < 65536
    ensures ReadDestination(address.Bytes()[0],
                            address.Bytes()[1..] + ([(port / 256) as char, (port % 256) as char] + rest))
            == Some((address, port, rest))
  {
    AddressReadBack(address, [(port / 256) as char, (port % 256) as char] + rest);
    hide ReadAddress;
  }

  /** A complete greeting and CONNECT request are accepted, yield the requested host and
      port, and consume exactly their own bytes. */
  lemma CommandAccepted(command: Command, rest: Str, v6: Str -> Str)
    requires command.Valid()
    ensures ReadCommand(command.Bytes() + rest, v6)
            == Accepted(ConnectText(command.address.Text(v6), command.port), rest)
  {
    var s := command.Bytes() + rest;
    var ports: Str := [(command.port / 256) as char, (command.port % 256) as char];
    var a := command.address.Bytes();
    assert s[4..] == a[1..] + (ports + rest) && s[3] == a[0];
    DestinationReadBack(command.address, command.port, rest);
    ReadCommandIs(s, v6, command.address, command.port, rest);
  }

  lemma ReadCommandIs(s: Str, v6: Str -> Str, address: Address, port: nat, rest: Str)
    requires |s| >= 4 && s[0] as int == 5 && s[1] as int == 1 && address.Valid()
    requires ReadDestination(s[3], s[4..]) == Some((address, port, rest))
    ensures ReadCommand(s, v6) == Accepted(ConnectText(address.Text(v6), port), rest)
  {
    hide ReadDestination, ConnectText;
  }

  lemma HandshakeAccepted(greeting: Greeting, command: Command, rest: Str, v6: Str -> Str)
    requires |greeting.methods| < 256 && command.Valid()
    ensures Handshake(greeting.Bytes() + (command.Bytes() + rest), v6)
            == Accepted(ConnectText(command.address.Text(v6), command.port), rest)
  {
    var tail := command.Bytes() + rest;
    var s := greeting.Bytes() + tail;
    assert s[2 + |greeting.methods|..] == tail;
    CommandAccepted(command, rest, v6);
    hide ReadCommand, ConnectText;
  }

  lemma AddressComplete(kind: Byte, s: Str) returns (address: Address, rest: Str)
    requires ReadAddress(kind, s).Some?
    ensures ReadAddress(kind, s) == Some((address, rest))
    ensures address.Valid() && [kind] + s == address.Bytes() + rest
  {
    address, rest := ReadAddress(kind, s).value.0, ReadAddress(kind, s).value.1;
    match address
    case V4(o) => assert s == o + rest;
    case Domain(n) => assert s == [s[0]] + n + rest;
    case V6(o) => assert s == o + rest;
  }

  lemma DestinationComplete(kind: Byte, s: Str) returns (address: Address, port: nat, rest: Str)
    requires ReadDestination(kind, s).Some?
    ensures ReadDestination(kind, s) == Some((address, port, rest))
    ensures address.Valid() && port < 65536
    ensures [kind] + s == address.Bytes() + ([(port / 256) as char, (port % 256) as char] + rest)
  {
    var after;
    address, after := AddressComplete(kind, s);
    port, rest := after[0] as int * 256 + after[1] as int, after[2..];
    assert (port / 256) as char == after[0] && (port % 256) as char == after[1];
    assert after == [after[0], after[1]] + rest;
  }

  lemma CommandComplete(s: Str, v6: Str -> Str) returns (command: Command, rest: Str)
    requires ReadCommand(s, v6).Accepted?
    ensures command.Valid() && s == command.Bytes() + rest
    ensures ReadCommand(s, v6) == Accepted(ConnectText(command.address.Text(v6), command.port), rest)
  {
    var address, port;
    address, port, rest := DestinationComplete(s[3], s[4..]);
    command := Command(s[2], address, port);
    SplitCommand(s, command, rest);
    ReadCommandIs(s, v6, address, port, rest);
  }

  lemma SplitCommand(s: Str, command: Command, rest: Str)
    requires |s| >= 4 && command.Valid() && s[0] as int == 5 && s[1] as int == 1 && s[2] == command.reserved
    requires [s[3]] + s[4..]
             == command.address.Bytes() + ([(command.port / 256) as char, (command.port % 256) as char] + rest)
    ensures s == command.Bytes() + rest
  {
    assert s == [s[0], s[1], s[2]] + ([s[3]] + s[4..]);
  }

  /** And nothing else is: a handshake succeeds only on a stream that starts with a complete
      greeting and a complete CONNECT request, and then for that request. */
  lemma AcceptedIsHandshake(s: Str, v6: Str -> Str) returns (greeting: Greeting, command: Command, rest: Str)
    requires Handshake(s, v6).Accepted?
    ensures |greeting.methods| < 256 && command.Valid()
    ensures s == greeting.Bytes() + (command.Bytes() + rest)
    ensures Handshake(s, v6) == Accepted(ConnectText(command.address.Text(v6), command.port), rest)
  {
    hide ReadCommand, ConnectText, Handshake;
    GreetingComplete(s, v6);
    var n := 2 + s[1] as int;
    greeting := Greeting(s[2..n]);
    command, rest := CommandComplete(s[n..], v6);
  }

  lemma GreetingDecides(s: Str, v6: Str -> Str)
    ensures Handshake(s, v6) ==
            if |s| >= 2 && s[0] as int == 5 && |s| >= 2 + s[1] as int then ReadCommand(s[2 + s[1] as int..], v6)
            else Refused("")
  {
    hide ReadCommand;
  }

  lemma GreetingComplete(s: Str, v6: Str -> Str)
    requires Handshake(s, v6).Accepted?
    ensures 2 <= |s| && 2 + s[1] as int <= |s|
    ensures Handshake(s, v6) == ReadCommand(s[2 + s[1] as int..], v6)
    ensures s == Greeting(s[2..2 + s[1] as int]).Bytes() + s[2 + s[1] as int..]
  {
    hide ReadCommand;
  }

  /** The two replies as sections 3 and 6 of RFC 1928 lay them out: version 5 and no
      authentication; version 5, command not supported, and an IPv4 address and port of zeros. */
  lemma RepliesAreStandard()
    ensures |AUTH_REPLY| == 2 && AUTH_REPLY[0] as int == 5 && AUTH_REPLY[1] as int == 0
    ensures |FAIL_REPLY| == 10 && FAIL_REPLY[0] as int == 5 && FAIL_REPLY[1] as int == 7
    ensures FAIL_REPLY[2] as int == 0 && FAIL_REPLY[3] as int == 1
    ensures forall i :: 4 <= i < 10 ==> FAIL_REPLY[i] as int == 0
  {
  }

  /** The numbers between the dots of a text. */
  function DottedNumbers(s: Str): seq<int> {
    match LeadingInt(s)
    case None => []
    case Some(n) => [n] + match Find(s, ".") case None => [] case Some(p) => DottedNumbers(s[p + 1..])
  }

  /** The text of an address reads back as its octets, in order. */
  lemma DottedReadsBack(o: Str)
    requires |o| == 4
    ensures DottedNumbers(Dotted(o)) == [o[0] as int, o[1] as int, o[2] as int, o[3] as int]
  {
    hide Decimal, DottedNumbers;
    var s3 := Decimal(o[3] as int);
    var s2 := Decimal(o[2] as int) + ("." + s3);
    var s1 := Decimal(o[1] as int) + ("." + s2);
    assert Dotted(o) == Decimal(o[0] as int) + ("." + s1);
    NumberBeforeDot(o[0] as int, s1);
    NumberBeforeDot(o[1] as int, s2);
    NumberBeforeDot(o[2] as int, s3);
    NumberAtEnd(o[3] as int);
  }

  lemma NumberBeforeDot(n: nat, rest: Str)
    ensures DottedNumbers(Decimal(n) + ("." + rest)) == [n] + DottedNumbers(rest)
  {
    var s := Decimal(n) + ("." + rest);
    hide Decimal, LeadingInt;
    NumberRead("", "", n, "." + rest);
    assert "" + ("" + s) == s;
    DecimalHasNo(n, '.');
    assert s[..|Decimal(n)|] == Decimal(n) && s[|Decimal(n)| + 1..] == rest;
    FindByteIs(s, '.', |Decimal(n)|);
  }

  lemma NumberAtEnd(n: nat)
    ensures DottedNumbers(Decimal(n)) == [n]
  {
    hide Decimal, LeadingInt;
    LeadingIntOfDecimal(n);
    DecimalHasNo(n, '.');
    FindByteNone(Decimal(n), '.');
  }

  /** A complete greeting of version 5. */
  predicate Greeted(s: Str) {
    |s| >= 2 && s[0] as int == 5 && |s| >= 2 + s[1] as int
  }

  /** What a refused client has been sent: nothing without a greeting, the failure reply exactly
      if its request was of another version or command, and otherwise just the method. */
  lemma RefusedExactly(s: Str, v6: Str -> Str)
    requires Handshake(s, v6).Refused?
    ensures !Greeted(s) ==> Handshake(s, v6).replies == ""
    ensures Greeted(s) ==>
              var request := s[2 + s[1] as int..];
              Handshake(s, v6).replies ==
              if |request| >= 4 && (request[0] as int != 5 || request[1] as int != 1) then AUTH_REPLY + FAIL_REPLY
              else AUTH_REPLY
  {
    hide ReadDestination, ConnectText;
  }

  lemma RefusedReplies(s: Str, v6: Str -> Str)
    requires ReadCommand(s, v6).Refused?
    ensures |ReadCommand(s, v6).replies| >= 2
    ensures AUTH_REPLY + ReadCommand(s, v6).replies[2..] == ReadCommand(s, v6).replies
  {
  }

  lemma FrontIs(all: Str, front: Str, rest: Str)
    requires all == front + rest
    ensures all[..|front|] == front && all[|front|..] == rest
  {
  }

  lemma FrontAndMore(all: Str, front: Str, more: Str, rest: Str)
    requires all == front + (more + rest)
    ensures all == (front + more) + rest
    ensures all[..|front| + |more|] == front + more && all[|front| + |more|..] == rest
  {
    assert all == (front + more) + rest;
  }

  predicate Suffix(a: Str, b: Str) {
    |a| <= |b| && a == b[|b| - |a|..]
  }

  lemma Regroup(data: Str, now: Str, before: Str, pending: Str, after: Str)
    requires before == now + after
    ensures data + (before + pending) == (data + now) + (after + pending)
  {
  }
}
