/** `ServerHandler::handle` as a function on the session table: what each action does, and
    what is sent back. The class in `ServerHandlers.dfy` is proved against it. */
module Server {
  import opened Bytes
  import opened HexCodec
  import opened HostPort
  import opened HttpRequest
  import opened Wire

  /** A connection to a destination. `emitted` is everything the destination has sent so far,
      `unread` the part of it still waiting at the socket. */
  datatype Target = Target(open: bool, written: Str, emitted: Str, unread: Str)

  /** The shared `sessions_` map. Targets are named by their place in the list of all targets
      ever dialled, as `shared_ptr` identity names them in the original. */
  datatype Table = Table(sessions: map<Str, nat>, targets: seq<Target>) {
    ghost predicate Valid() {
      && (forall s :: s in sessions ==> sessions[s] < |targets|)
      && (forall s, t :: s in sessions && t in sessions && sessions[s] == sessions[t] ==> s == t)
    }

    predicate Live(session: Str) {
      session in sessions && sessions[session] < |targets| && targets[sessions[session]].open
    }

    function With(id: nat, target: Target): Table
      requires id < |targets|
    {
      this.(targets := targets[id := target])
    }
  }

  datatype Config = Config(tunnelEnable: bool, connectionReuse: bool, bufferSize: nat)

  /** What the network answers while one request is handled: whether the dial succeeds,
      whether the write succeeds and how much of it went out otherwise, how many bytes
      `available` reports and how many `read_some` returns. `uuid` names the server-side
      connection, `nonce` is the IV of the reply; `reused` says that the connection's own
      client is already open, and `forwarded` is the answer to a plain request. */
  datatype Env = Env(
    connectOk: bool, writeOk: bool, writeCut: nat, available: nat, readLength: nat,
    uuid: Str, nonce: Str, reused: bool, forwarded: Str)

  datatype Reply = NoReply | Reply(plain: Str, status: Str, connection: Str)

  datatype Effect = Effect(table: Table, reply: Reply, dialed: Option<Endpoint>, connect: bool)

  const OK: Str := "200 OK"
  const BAD_REQUEST: Str := "400 Bad Request"
  const BAD_GATEWAY: Str := "502 Bad Gateway"
  const GATEWAY_TEXT: Str := "HTTP/1.1 502 Bad Gateway\r\n\r\n"
  const ESTABLISHED_TEXT: Str := "HTTP/1.1 200 Connection Established\r\n\r\n"

  /** `TCPClient::doWrite` on an open target: an empty buffer or a failed write shuts the
      target down, the latter after part of the data. */
  function WriteTo(t: Target, data: Str, env: Env): (r: Target)
    ensures r.emitted == t.emitted && r.unread == t.unread
    ensures r.open ==> t.open && data != "" && env.writeOk
  {
    if data == "" then t.(open := false)
    else if env.writeOk then t.(written := t.written + data)
    else t.(open := false, written := t.written + data[..Min(env.writeCut, |data|)])
  }

  /** How much of the unread bytes one recv takes. */
  function Taken(config: Config, t: Target, env: Env): (n: nat)
    ensures n <= |t.unread| && n <= config.bufferSize
  {
    var available := Min(env.available, |t.unread|);
    Min(env.readLength, Min(available, config.bufferSize))
  }

  function Empty(config: Config): Reply {
    Reply("", OK, KeepOrClose(config.connectionReuse))
  }

  function Send(config: Config, table: Table, session: Str, message: Str, env: Env): Effect {
    if !table.Live(session) then Effect(table, Empty(config), None, false)
    else
      match HexToAscii(message)
      case None => Effect(table, NoReply, None, false)
      case Some(data) =>
        var id := table.sessions[session];
        Effect(table.With(id, WriteTo(table.targets[id], data, env)), Empty(config), None, false)
  }

  function Recv(config: Config, table: Table, session: Str, env: Env): Effect {
    if !table.Live(session) then Effect(table, Empty(config), None, false)
    else
      var id := table.sessions[session];
      var t := table.targets[id];
      var n := Taken(config, t, env);
      Effect(table.With(id, t.(unread := t.unread[n..])),
             Reply(t.unread[..n], OK, KeepOrClose(config.connectionReuse)), None, false)
  }

  function Close(config: Config, table: Table, session: Str): Effect {
    if session !in table.sessions || table.sessions[session] >= |table.targets| then
      Effect(table.(sessions := table.sessions - {session}), Empty(config), None, false)
    else
      var id := table.sessions[session];
      var shut := table.With(id, table.targets[id].(open := false));
      Effect(shut.(sessions := table.sessions - {session}), Empty(config), None, false)
  }

  /** The key an open is filed under. */
  function KeyOf(session: Str, env: Env): Str {
    if session == "" then env.uuid else session
  }

  const FRESH: Target := Target(true, "", "", "")

  /** The CONNECT branch, for a destination and the data that came with the request. */
  function Open(config: Config, table: Table, session: Str, to: Endpoint, pending: Str, env: Env): Effect {
    if !env.connectOk then Effect(table, Reply(GATEWAY_TEXT, BAD_GATEWAY, "close"), Some(to), false)
    else if config.tunnelEnable then Effect(table, Reply(ESTABLISHED_TEXT, OK, "keep-alive"), Some(to), true)
    else
      var t := if pending == "" then FRESH else WriteTo(FRESH, pending, env);
      var sessions := table.sessions[KeyOf(session, env) := |table.targets|];
      Effect(Table(sessions, table.targets + [t]), Reply(ESTABLISHED_TEXT, OK, "keep-alive"), Some(to), false)
  }

  /** Everything that is not send, recv or close: the body is a request of its own. */
  function Forward(config: Config, table: Table, session: Str, message: Str, env: Env): Effect {
    match HexToAscii(message)
    case None => Effect(table, NoReply, None, false)
    case Some(inner) =>
      match Find(inner, HEADER_END)
      case None => Effect(table, Reply("", BAD_REQUEST, "close"), None, false)
      case Some(p) =>
        match Detect(inner[..p + 4])
        case Threw => Effect(table, NoReply, None, false)
        case NotHttp => Effect(table, Reply("", BAD_REQUEST, "close"), None, false)
        case Tls(sni) => PlainForward(config, table, env)
        case Http(request) =>
          if request.IsConnect() then
            Open(config, table, session, Destination(request.target), inner[p + 4..], env)
          else PlainForward(config, table, env)
  }

  /** Plain requests touch no session; what they bring back is left to the environment. */
  function PlainForward(config: Config, table: Table, env: Env): Effect {
    if !env.reused && !env.connectOk then Effect(table, Reply("", BAD_GATEWAY, "close"), None, false)
    else Effect(table, Reply(env.forwarded, OK, KeepOrClose(config.connectionReuse)), None, false)
  }

  function Apply(config: Config, table: Table, session: Str, action: Str, message: Str, env: Env): Effect {
    if action == SEND then Send(config, table, session, message, env)
    else if action == RECV then Recv(config, table, session, env)
    else if action == CLOSE then Close(config, table, session)
    else Forward(config, table, session, message, env)
  }

  /** The bytes left in `writeBuffer_`. */
  function Response(cipher: Cipher, env: Env, reply: Reply): Str {
    match reply
    case NoReply => ""
    case Reply(plain, status, connection) => SealedResponse(cipher, env.nonce, plain, status, connection)
  }

  datatype Handled = Handled(table: Table, response: Str, dialed: Option<Endpoint>, connect: bool)

  /** `handle`, from the bytes of the request to the bytes of the response. */
  function Handle(config: Config, cipher: Cipher, table: Table, raw: Str, env: Env): Handled {
    match DecodeRequest(cipher, raw)
    case Dropped => Handled(table, "", None, false)
    case Refused => Handled(table, PlainResponse("", BAD_REQUEST, "close"), None, false)
    case Received(session, action, message) =>
      var e := Apply(config, table, session, action, message, env);
      Handled(e.table, Response(cipher, env, e.reply), e.dialed, e.connect)
  }

  // ----- what every action keeps --------------------------------------------------------------

  lemma SendRecvKeepKeys(config: Config, table: Table, session: Str, message: Str, env: Env)
    ensures Send(config, table, session, message, env).table.sessions == table.sessions
    ensures Recv(config, table, session, env).table.sessions == table.sessions
  {
  }

  /** An action keeps the table valid, and leaves every other session's entry and target as
      they were. */
  lemma ActionIsIsolated(config: Config, table: Table, session: Str, action: Str, message: Str, env: Env, other: Str)
    requires table.Valid()
    requires other != session && other != KeyOf(session, env)
    ensures
      var after := Apply(config, table, session, action, message, env).table;
      && after.Valid()
      && (other in after.sessions <==> other in table.sessions)
      && (other in table.sessions ==>
            after.sessions[other] == table.sessions[other]
            && after.targets[table.sessions[other]] == table.targets[table.sessions[other]])
      && |after.targets| >= |table.targets|
  {
    hide Forward, WriteTo, Taken, HexToAscii, KeyOf;
    if action != SEND && action != RECV && action != CLOSE {
      ForwardShape(config, table, session, message, env);
    }
  }

  /** A forwarded request leaves the table alone or files exactly one new target. */
  lemma ForwardShape(config: Config, table: Table, session: Str, message: Str, env: Env)
    ensures
      var after := Forward(config, table, session, message, env).table;
      || after == table
      || exists t: Target :: after == Table(table.sessions[KeyOf(session, env) := |table.targets|], table.targets + [t])
  {
    hide HexToAscii, Find, Detect, Destination;
  }
}
