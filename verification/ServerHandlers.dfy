/** `ServerHandler` as an object: the shared `sessions_` map of target clients, updated in
    place, proved to do what the functions of `Server.dfy` say. */
module ServerHandlers {
  import opened Bytes
  import opened HexCodec
  import opened HostPort
  import opened HttpRequest
  import opened Server
  import opened Wire

  /** The server's `TCPClient` to one destination. */
  class TargetClient {
    ghost const id: nat
    var open: bool
    var unread: Str
    ghost var written: Str
    ghost var emitted: Str

    ghost function View(): Target
      reads this
    {
      Target(open, written, emitted, unread)
    }

    /** A client whose `doConnect` has just succeeded. */
    constructor (ghost id: nat)
      ensures this.id == id && View() == FRESH
    {
      this.id := id;
      open, unread, written, emitted := true, "", "", "";
    }

    /** `doWrite`. */
    method DoWrite(data: Str, env: Env)
      requires open
      modifies this
      ensures View() == WriteTo(old(View()), data, env)
    {
      if data == "" {
        open := false;
        return;
      }
      if !env.writeOk {
        written := written + data[..Min(env.writeCut, |data|)];
        open := false;
        return;
      }
      written := written + data;
    }

    /** `available` and `read_some`, as recv uses them. */
    method ReadAvailable(config: Config, env: Env) returns (data: Str)
      modifies this
      ensures data == old(unread)[..Taken(config, old(View()), env)]
      ensures View() == old(View()).(unread := old(unread)[Taken(config, old(View()), env)..])
    {
      var available := Min(env.available, |unread|);
      if available == 0 {
        return "";
      }
      var n := Min(env.readLength, Min(available, config.bufferSize));
      data := unread[..n];
      unread := unread[n..];
    }
  }

  class ServerHandler {
    const config: Config
    var sessions: map<Str, TargetClient>
    ghost var created: seq<TargetClient>

    ghost predicate Valid()
      reads this
    {
      && (forall i :: 0 <= i < |created| ==> created[i].id == i)
      && (forall s :: s in sessions ==> sessions[s].id < |created| && created[sessions[s].id] == sessions[s])
    }

    ghost function Views(): seq<Target>
      reads this, created
    {
      var all := created;
      seq(|all|, i requires 0 <= i < |all| reads all => all[i].View())
    }

    /** The session table this object stands for. */
    ghost function View(): Table
      reads this, created
    {
      Table(map s | s in sessions :: sessions[s].id, Views())
    }

    constructor (config: Config)
      ensures Valid() && this.config == config && View() == Table(map[], [])
    {
      this.config := config;
      sessions, created := map[], [];
    }

    /** The locked lookup of send and recv. */
    method Lookup(session: Str) returns (target: TargetClient?)
      requires Valid()
      ensures target != null <==> session in sessions
      ensures target != null ==> target == sessions[session] && target in created
    {
      if session in sessions {
        return sessions[session];
      }
      return null;
    }

    method HandleSend(session: Str, message: Str, env: Env) returns (reply: Reply)
      requires Valid()
      modifies created
      ensures Valid()
      ensures View() == Send(config, old(View()), session, message, env).table
      ensures reply == Send(config, old(View()), session, message, env).reply
    {
      var target := Lookup(session);
      if target == null || !target.open {
        return Empty(config);
      }
      var data := HexToAsciiLoop(message);
      if data.None? {
        return NoReply;
      }
      target.DoWrite(data.value, env);
      return Empty(config);
    }

    method HandleRecv(session: Str, env: Env) returns (reply: Reply)
      requires Valid()
      modifies created
      ensures Valid()
      ensures View() == Recv(config, old(View()), session, env).table
      ensures reply == Recv(config, old(View()), session, env).reply
    {
      var target := Lookup(session);
      if target == null || !target.open {
        return Empty(config);
      }
      var data := target.ReadAvailable(config, env);
      if data == "" {
        return Empty(config);
      }
      return Reply(data, OK, KeepOrClose(config.connectionReuse));
    }

    method HandleClose(session: Str) returns (reply: Reply)
      requires Valid()
      modifies this`sessions, created
      ensures Valid()
      ensures View() == Close(config, old(View()), session).table
      ensures reply == Close(config, old(View()), session).reply
    {
      if session in sessions {
        sessions[session].open := false;
        sessions := sessions - {session};
      }
      return Empty(config);
    }

    method HandleOpen(session: Str, to: Endpoint, pending: Str, env: Env)
      returns (reply: Reply, dialed: Option<Endpoint>, connect: bool)
      requires Valid()
      modifies this`sessions, this`created
      ensures Valid()
      ensures (View(), reply, dialed, connect) ==
              Parts(Open(config, old(View()), session, to, pending, env))
    {
      dialed := Some(to);
      if !env.connectOk {
        return Reply(GATEWAY_TEXT, BAD_GATEWAY, "close"), dialed, false;
      }
      if config.tunnelEnable {
        return Reply(ESTABLISHED_TEXT, OK, "keep-alive"), dialed, true;
      }
      var target := new TargetClient(|created|);
      if pending != "" {
        target.DoWrite(pending, env);
      }
      ghost var before := View();
      created := created + [target];
      sessions := sessions[KeyOf(session, env) := target];
      assert Views() == before.targets + [target.View()];
      assert View().sessions == before.sessions[KeyOf(session, env) := |before.targets|];
      return Reply(ESTABLISHED_TEXT, OK, "keep-alive"), dialed, false;
    }

    /** Everything else: the body is a request of its own. */
    method HandleOther(session: Str, message: Str, env: Env)
      returns (reply: Reply, dialed: Option<Endpoint>, connect: bool)
      requires Valid()
      modifies this`sessions, this`created
      ensures Valid()
      ensures (View(), reply, dialed, connect) == Parts(Forward(config, old(View()), session, message, env))
    {
      hide Detect, HexToAscii, Find, Open, Destination;
      var data := HexToAsciiLoop(message);
      if data.None? {
        return NoReply, None, false;
      }
      var inner := data.value;
      var headerEnd := Find(inner, HEADER_END);
      if headerEnd.None? {
        return Reply("", BAD_REQUEST, "close"), None, false;
      }
      var detected := Detect(inner[..headerEnd.value + 4]);
      match detected {
        case Threw => return NoReply, None, false;
        case NotHttp => return Reply("", BAD_REQUEST, "close"), None, false;
        case Tls(_) =>
        case Http(request) =>
          if request.IsConnect() {
            var to := Destination(request.target);
            reply, dialed, connect := HandleOpen(session, to, inner[headerEnd.value + 4..], env);
            return;
          }
      }
      if !env.reused && !env.connectOk {
        return Reply("", BAD_GATEWAY, "close"), None, false;
      }
      return Reply(env.forwarded, OK, KeepOrClose(config.connectionReuse)), None, false;
    }

    /** `handle`: from the bytes in the read buffer to the bytes in the write buffer. */
    method Handle(cipher: Cipher, raw: Str, env: Env)
      returns (response: Str, dialed: Option<Endpoint>, connect: bool)
      requires Valid()
      modifies this`sessions, this`created, created
      ensures Valid()
      ensures Handled(View(), response, dialed, connect) == Server.Handle(config, cipher, old(View()), raw, env)
    {
      hide DecodeRequest, Send, Recv, Close, Forward, Response, PlainResponse;
      dialed, connect := None, false;
      var received := DecodeRequest(cipher, raw);
      match received {
        case Dropped => return "", None, false;
        case Refused => return PlainResponse("", BAD_REQUEST, "close"), None, false;
        case Received(session, action, message) =>
          var reply;
          if action == SEND {
            reply := HandleSend(session, message, env);
          } else if action == RECV {
            reply := HandleRecv(session, env);
          } else if action == CLOSE {
            reply := HandleClose(session);
          } else {
            reply, dialed, connect := HandleOther(session, message, env);
          }
          SessionActionsDialNothing(config, old(View()), session, message, env);
          response := Response(cipher, env, reply);
      }
    }
  }

  function Parts(e: Effect): (Table, Reply, Option<Endpoint>, bool) {
    (e.table, e.reply, e.dialed, e.connect)
  }

  lemma SessionActionsDialNothing(config: Config, table: Table, session: Str, message: Str, env: Env)
    ensures Send(config, table, session, message, env).dialed.None?
    ensures !Send(config, table, session, message, env).connect
    ensures Recv(config, table, session, env).dialed.None? && !Recv(config, table, session, env).connect
    ensures Close(config, table, session).dialed.None? && !Close(config, table, session).connect
  {
  }
}
