/** The polled tunnel on real bytes: every request and response goes through hex, cipher,
    base64 and HTTP over one connection, and every run of it is a run of `PolledTunnel`. */
module WireTunnel {
  import opened AgentLoop
  import opened Bytes
  import opened HexCodec
  import HostPort
  import opened HttpRequest
  import opened HttpUtils
  import opened PolledTunnel
  import opened Readers
  import opened Server
  import opened TunnelDownlink
  import opened TunnelInvariants
  import opened TunnelUplink
  import opened Wire

  /** The connection carries `up` to the server and `down` to the agent; `sent` says the agent
      is waiting for a response. Bytes of a closed connection are gone. */
  datatype Net = Net(core: Core, sent: bool, up: Str, down: Str)

  datatype NetEvent =
    | Local(event: Event)
    | SendBytes(nonce: Str, decoy: Decoy)
    | ServeBytes(env: Env)
    | OtherBytes(raw: Str, otherEnv: Env)
    | ReceiveBytes

  predicate IsLocal(e: Event) {
    !e.Other? && !e.Transmit? && !e.Serve? && !e.Receive?
  }

  /** The bytes of the agent's current action. */
  function Request(p: Params, cipher: Cipher, post: Post, nonce: Str, d: Decoy): Option<Str> {
    EncodeRequest(cipher, nonce, d, p.session, post.action.Name(), p.reuse && post.action != ActClose, post.body)
  }

  predicate EnabledNet(p: Params, cipher: Cipher, n: Net, e: NetEvent) {
    match e
    case Local(l) => IsLocal(l) && LocalEnabled(n, l)
    case SendBytes(nonce, d) =>
      && n.core.agent.phase.Busy? && !n.sent && d.Usable()
      && var m := Request(p, cipher, n.core.agent.phase.post, nonce, d); m.Some? && |m.value| <= MAX_SIZE
    case ServeBytes(env) =>
      && n.core.connOpen && FrameEnd(n.up).Some? && FrameEnd(n.up).value <= |n.up|
      && |Handle(p.config, cipher, n.core.table, n.up[..FrameEnd(n.up).value], env).response| <= MAX_SIZE
    case OtherBytes(raw, env) => ForOthers(p, cipher, raw, env)
    case ReceiveBytes =>
      n.core.agent.phase.Busy? && n.sent && FrameEnd(n.down).Some? && FrameEnd(n.down).value <= |n.down|
  }

  /** Another agent's request: session ids are distinct. */
  predicate ForOthers(p: Params, cipher: Cipher, raw: Str, env: Env) {
    match DecodeRequest(cipher, raw)
    case Received(session, _, _) => session != p.session && KeyOf(session, env) != p.session
    case _ => true
  }

  /** What the agent can tell by itself. */
  predicate LocalEnabled(n: Net, e: Event) {
    var a := n.core.agent;
    match e
    case Delivers(chunk) => a.read == ReadArmed && 1 <= |chunk| <= BUFFER_SIZE
    case Ends => a.read == ReadArmed
    case Expires => a.timer == TimerArmed
    case Progress(k) => a.write.Writing? && k <= |a.write.data| - a.write.sent
    case WriteEnds(ok) => a.write.Writing? && (ok ==> a.write.sent == |a.write.data|)
    case Emits(id, _) => id < |n.core.table.targets|
    case SealFails => a.phase.Busy? && !n.sent
    case Fails => a.phase.Busy?
    case ReadHandler => a.phase == Idle && (a.read.ReadReady? || a.read.ReadFailed?)
    case TimerHandler => a.phase == Idle && a.timer.TimerFired?
    case WriteHandler => a.phase == Idle && a.write.WriteDone?
    case _ => false
  }

  /** The same transitions as `Step`, without the history. */
  function LocalCore(p: Params, n: Net, e: Event): Core
    requires IsLocal(e) && LocalEnabled(n, e)
  {
    var c, a := n.core, n.core.agent;
    match e
    case Delivers(chunk) => c.(agent := a.(read := ReadReady(chunk)))
    case Ends => c.(agent := a.(read := ReadFailed))
    case Expires => c.(agent := a.(timer := TimerFired(false)))
    case Progress(k) => c.(agent := a.(write := Writing(a.write.data, a.write.sent + k)))
    case WriteEnds(ok) => c.(agent := a.(write := WriteDone(ok)))
    case Emits(id, data) =>
      var t := c.table.targets[id];
      c.(table := c.table.With(id, t.(unread := t.unread + data, emitted := t.emitted + data)))
    case SealFails => FailToSeal(c, p.reuse)
    case Fails => Fail(c, p.reuse)
    case ReadHandler => RunRead(c)
    case TimerHandler => RunTimer(c)
    case WriteHandler => RunWrite(c, p.reuse)
  }

  /** A connection that is not open carries nothing. */
  function Settle(n: Net): Net {
    if n.core.connOpen then n else n.(up := "", down := "")
  }

  function StepNet(p: Params, cipher: Cipher, n: Net, e: NetEvent): Net
    requires EnabledNet(p, cipher, n, e)
  {
    match e
    case Local(l) => Settle(n.(core := LocalCore(p, n, l), sent := n.sent && !l.Fails?))
    case SendBytes(nonce, d) =>
      n.(core := n.core.(connOpen := true), sent := true,
         up := n.up + Request(p, cipher, n.core.agent.phase.post, nonce, d).value)
    case ServeBytes(env) =>
      var end := FrameEnd(n.up).value;
      var r := Handle(p.config, cipher, n.core.table, n.up[..end], env);
      n.(core := n.core.(table := r.table), up := n.up[end..], down := n.down + r.response)
    case OtherBytes(raw, env) =>
      n.(core := n.core.(table := Handle(p.config, cipher, n.core.table, raw, env).table))
    case ReceiveBytes =>
      var end := FrameEnd(n.down).value;
      var result := DecodeResponse(cipher, n.down[..end]);
      Settle(Net(Answer(n.core, result, p.reuse), false, n.up, n.down[end..]))
  }

  // ----- the correspondence -------------------------------------------------------------------------

  /** The agent's session id passes through a header unchanged, and the client's CONNECT, with
      the data it came with, was one read. */
  ghost predicate ValidWire(p: Params, cipher: Cipher) {
    && p.Valid() && cipher.Lawful() && cipher.Compact()
    && OneLine(p.session) && Trim(p.session) == p.session
    && |p.Raw()| <= BUFFER_SIZE
  }

  ghost predicate IsRequest(p: Params, cipher: Cipher, post: Post, up: Str) {
    exists nonce: Str, d: Decoy ::
      d.Usable() && |up| <= MAX_SIZE && Request(p, cipher, post, nonce, d) == Some(up)
  }

  ghost predicate IsResponse(cipher: Cipher, down: Str, plain: Str) {
    FrameEnd(down) == Some(|down|) && DecodeResponse(cipher, down) == plain
  }

  /** Lockstep: between actions, and before an action is sent, the connection is empty; while
      the agent waits it carries exactly that action's request, or exactly the response whose
      plain body is the server's answer to that very action. */
  ghost predicate Matches(p: Params, cipher: Cipher, n: Net, t: Tunnel) {
    && n.core == t.core
    && (n.sent <==> t.core.agent.phase.Busy? && t.stage != Prepare)
    && (if !n.sent then n.up == "" && n.down == ""
        else if t.stage == Waiting then IsRequest(p, cipher, t.core.agent.phase.post, n.up) && n.down == ""
        else n.up == "" && IsResponse(cipher, n.down, t.stage.plain))
    && (n.sent ==> n.core.connOpen)
  }

  lemma NamesOnOneLine(a: Action)
    ensures OneLine(a.Name()) && Trim(a.Name()) == a.Name()
  {
    TrimOfField(a.Name());
  }

  /** The server reads our request whole and takes it for what it is. */
  lemma RequestUnderstood(p: Params, cipher: Cipher, post: Post, up: Str)
    requires ValidWire(p, cipher) && IsRequest(p, cipher, post, up) && |post.body| <= BUFFER_SIZE
    ensures FrameEnd(up) == Some(|up|)
    ensures DecodeRequest(cipher, up) == Received(p.session, post.action.Name(), Hex(post.body))
  {
    hide DecodeRequest, FrameEnd, Trim, Hex, Action.Name, Params.Valid, Params.Raw, Message, RequestLines, Fits;
    var nonce: Str, d: Decoy :| d.Usable() && |up| <= MAX_SIZE && Request(p, cipher, post, nonce, d) == Some(up);
    NamesOnOneLine(post.action);
    OneReadFits(cipher, nonce, post.body);
    RequestRoundTrip(cipher, nonce, d, p.session, post.action.Name(), p.reuse && post.action != ActClose, post.body);
  }

  /** No posted body is longer than one read from the client. */
  lemma PostsAreOneRead(p: Params, cipher: Cipher, t: Tunnel)
    requires ValidWire(p, cipher) && AgentInv(t.core.agent) && Ours(p, t) && t.core.agent.phase.Busy?
    ensures |t.core.agent.phase.post.body| <= BUFFER_SIZE
  {
    hide Params.Valid, Params.Raw, OursAt;
  }

  predicate Replied(reply: Reply) {
    reply.Reply? && OneLine(reply.status) && OneLine(reply.connection)
  }

  lemma OpenReplies(config: Config, table: Table, session: Str, to: HostPort.Endpoint, early: Str, env: Env)
    ensures Replied(Server.Open(config, table, session, to, early, env).reply)
  {
    hide WriteTo, OneLine;
    HeadersOnOneLine();
  }

  lemma HeadersOnOneLine()
    ensures OneLine(OK) && OneLine(BAD_GATEWAY) && OneLine("close") && OneLine("keep-alive")
  {
  }

  lemma OthersReply(config: Config, table: Table, session: Str, env: Env)
    ensures Replied(Empty(config)) && Replied(Server.Recv(config, table, session, env).reply)
    ensures Replied(Server.Close(config, table, session).reply)
  {
  }

  /** Every action of ours is replied to. */
  lemma OursIsReplied(p: Params, t: Tunnel, env: Env)
    requires p.Valid() && AgentInv(t.core.agent) && Ours(p, t) && t.core.agent.phase.Busy?
    ensures
      var post := t.core.agent.phase.post;
      Replied(Apply(p.config, t.core.table, p.session, post.action.Name(), Hex(post.body), env).reply)
  {
    hide Apply, AgentInv, Params.Valid, Params.Raw, Replied, Server.Open, Server.Recv, Server.Close, Empty, Destination,
      Hex;
    var post := t.core.agent.phase.post;
    OthersReply(p.config, t.core.table, p.session, env);
    match post.action
    case ActOpen =>
      OpenEffect(p, t.core.table, env);
      OpenReplies(p.config, t.core.table, p.session, Destination(p.target), p.early, env);
    case ActSend => SendEffect(p, t.core.table, post.body, env);
    case ActRecv => RecvEffect(p, t.core.table, Hex(post.body), env);
    case ActClose => CloseEffect(p, t.core.table, Hex(post.body), env);
  }

  /** The message-level event a byte-level one stands for. */
  function Meaning(p: Params, cipher: Cipher, t: Tunnel, e: NetEvent): seq<Event> {
    match e
    case Local(l) => [l]
    case SendBytes(_, _) => [Transmit]
    case ServeBytes(env) =>
      if !t.core.agent.phase.Busy? then []
      else
        var post := t.core.agent.phase.post;
        var reply := Apply(p.config, t.core.table, p.session, post.action.Name(), Hex(post.body), env).reply;
        [Serve(env, reply.Reply? && cipher.seal(env.nonce, reply.plain).Some?)]
    case OtherBytes(raw, env) =>
      (match DecodeRequest(cipher, raw)
       case Received(session, action, message) => [Other(session, action, message, env)]
       case _ => [])
    case ReceiveBytes => [Receive]
  }

  /** Serving the bytes of a request is serving the action, and leaves its answer. */
  lemma ServeSimulates(p: Params, cipher: Cipher, n: Net, t: Tunnel, env: Env)
    requires ValidWire(p, cipher) && AgentInv(t.core.agent) && Ours(p, t) && Matches(p, cipher, n, t)
    requires EnabledNet(p, cipher, n, ServeBytes(env))
    requires n.sent && t.stage == Waiting
    ensures
      var es := Meaning(p, cipher, t, ServeBytes(env));
      && |es| == 1 && Enabled(p, t, es[0])
      && Matches(p, cipher, StepNet(p, cipher, n, ServeBytes(env)), Step(p, t, es[0]))
  {
    hide Apply, FrameEnd, DecodeRequest, DecodeResponse, SealedResponse, AgentInv, Ours, Params.Valid, Hex,
      Action.Name, OneLine, IsRequest;
    var post := t.core.agent.phase.post;
    ValidParts(p, cipher);
    PostsAreOneRead(p, cipher, t);
    RequestUnderstood(p, cipher, post, n.up);
    OursIsReplied(p, t, env);
    var eff := Apply(p.config, t.core.table, p.session, post.action.Name(), Hex(post.body), env);
    var sealed := cipher.seal(env.nonce, eff.reply.plain).Some?;
    WholeIsHandled(p, cipher, t.core.table, n.up, env, post);
    assert n.up[..|n.up|] == n.up && n.up[|n.up|..] == "";
    var response := SealedResponse(cipher, env.nonce, eff.reply.plain, eff.reply.status, eff.reply.connection);
    assert "" + response == response;
    ResponseRoundTrip(cipher, env.nonce, eff.reply.plain, eff.reply.status, eff.reply.connection);
    ServedAnswer(p, t, env, sealed);
  }

  lemma ValidParts(p: Params, cipher: Cipher)
    requires ValidWire(p, cipher)
    ensures p.Valid() && cipher.Lawful()
  {
  }

  lemma WholeIsHandled(p: Params, cipher: Cipher, table: Table, up: Str, env: Env, post: Post)
    requires DecodeRequest(cipher, up) == Received(p.session, post.action.Name(), Hex(post.body))
    requires Apply(p.config, table, p.session, post.action.Name(), Hex(post.body), env).reply.Reply?
    ensures
      var eff := Apply(p.config, table, p.session, post.action.Name(), Hex(post.body), env);
      var r := Handle(p.config, cipher, table, up, env);
      && r.table == eff.table
      && r.response == SealedResponse(cipher, env.nonce, eff.reply.plain, eff.reply.status, eff.reply.connection)
  {
    hide Apply, DecodeRequest, SealedResponse, Hex, Action.Name;
  }

  lemma ServedAnswer(p: Params, t: Tunnel, env: Env, sealed: bool)
    requires t.core.agent.phase.Busy?
    ensures
      var post := t.core.agent.phase.post;
      var eff := Apply(p.config, t.core.table, p.session, post.action.Name(), Hex(post.body), env);
      var n := Served(p, t, env, sealed);
      && n.core == t.core.(table := eff.table)
      && n.stage == Answered(if sealed && eff.reply.Reply? then eff.reply.plain else "")
  {
    hide Apply, Hex, Action.Name;
  }

  lemma EmptyHasNoFrame()
    ensures FrameEnd("").None?
  {
  }

  lemma SendSimulates(p: Params, cipher: Cipher, n: Net, t: Tunnel, nonce: Str, d: Decoy)
    requires Matches(p, cipher, n, t) && EnabledNet(p, cipher, n, SendBytes(nonce, d))
    ensures Enabled(p, t, Transmit)
    ensures Matches(p, cipher, StepNet(p, cipher, n, SendBytes(nonce, d)), Step(p, t, Transmit))
  {
    hide Request, Decoy.Usable, IsResponse, Served, Apply;
    var m := Request(p, cipher, n.core.agent.phase.post, nonce, d).value;
    assert "" + m == m;
    assert IsRequest(p, cipher, t.core.agent.phase.post, m);
  }

  /** What the agent decodes is the server's answer to the very action it posted. */
  lemma ReceiveSimulates(p: Params, cipher: Cipher, n: Net, t: Tunnel)
    requires Matches(p, cipher, n, t) && EnabledNet(p, cipher, n, ReceiveBytes)
    ensures Enabled(p, t, Receive)
    ensures DecodeResponse(cipher, n.down[..FrameEnd(n.down).value]) == t.stage.plain
    ensures Matches(p, cipher, StepNet(p, cipher, n, ReceiveBytes), Step(p, t, Receive))
  {
    hide FrameEnd, DecodeResponse, IsRequest, Answer, Served, Apply;
    EmptyHasNoFrame();
    assert n.down[..|n.down|] == n.down && n.down[|n.down|..] == "";
  }

  lemma OtherSimulates(p: Params, cipher: Cipher, n: Net, t: Tunnel, raw: Str, env: Env)
    requires Matches(p, cipher, n, t) && EnabledNet(p, cipher, n, OtherBytes(raw, env))
    ensures
      var es := Meaning(p, cipher, t, OtherBytes(raw, env));
      var next := StepNet(p, cipher, n, OtherBytes(raw, env));
      || (es == [] && Matches(p, cipher, next, t))
      || (|es| == 1 && Enabled(p, t, es[0]) && Matches(p, cipher, next, Step(p, t, es[0])))
  {
    hide DecodeRequest, Apply, IsRequest, IsResponse, Response, PlainResponse, Served;
  }

  lemma LocalSameCore(p: Params, n: Net, t: Tunnel, l: Event)
    requires n.core == t.core && IsLocal(l) && LocalEnabled(n, l)
    requires l.SealFails? ==> t.stage == Prepare
    ensures Enabled(p, t, l) && Step(p, t, l).core == LocalCore(p, n, l)
  {
    hide Served, Apply, Fail, FailToSeal;
  }

  /** How a local event leaves the stage and the connection. */
  lemma LocalStage(p: Params, t: Tunnel, l: Event)
    requires IsLocal(l) && Enabled(p, t, l)
    ensures
      var n := Step(p, t, l);
      || (n.stage == t.stage && n.core.agent.phase == t.core.agent.phase && n.core.connOpen == t.core.connOpen
          && !l.Fails?)
      || (n.stage == Prepare && (l.Fails? || l.SealFails? || t.core.agent.phase == Idle))
  {
    hide Served, Apply, Fail, FailToSeal;
  }

  lemma LocalSimulates(p: Params, cipher: Cipher, n: Net, t: Tunnel, l: Event)
    requires Matches(p, cipher, n, t) && EnabledNet(p, cipher, n, Local(l))
    ensures Enabled(p, t, l)
    ensures Matches(p, cipher, StepNet(p, cipher, n, Local(l)), Step(p, t, l))
  {
    hide IsRequest, IsResponse, Step, LocalCore, Enabled, LocalEnabled;
    SealFailsUnsent(p, cipher, n, t, l);
    LocalSameCore(p, n, t, l);
    LocalStage(p, t, l);
    FailsDropsConnection(p, t, l);
  }

  lemma SealFailsUnsent(p: Params, cipher: Cipher, n: Net, t: Tunnel, l: Event)
    requires Matches(p, cipher, n, t) && LocalEnabled(n, l)
    ensures l.SealFails? ==> t.stage == Prepare && !n.sent
    ensures t.core.agent.phase == Idle ==> !n.sent
  {
    hide IsRequest, IsResponse;
  }

  lemma FailsDropsConnection(p: Params, t: Tunnel, l: Event)
    requires IsLocal(l) && Enabled(p, t, l)
    ensures l.Fails? ==> !Step(p, t, l).core.connOpen
  {
  }

  /** One step of bytes is at most one step of messages. */
  lemma NetStep(p: Params, cipher: Cipher, n: Net, t: Tunnel, e: NetEvent)
    requires ValidWire(p, cipher) && AgentInv(t.core.agent) && Ours(p, t) && Matches(p, cipher, n, t)
    requires EnabledNet(p, cipher, n, e)
    ensures
      var es, next := Meaning(p, cipher, t, e), StepNet(p, cipher, n, e);
      || (es == [] && Matches(p, cipher, next, t))
      || (|es| == 1 && Enabled(p, t, es[0]) && Matches(p, cipher, next, Step(p, t, es[0])))
  {
    hide Step, StepNet, Enabled, AgentInv, Ours, ValidWire, Apply;
    match e
    case Local(l) => LocalSimulates(p, cipher, n, t, l);
    case SendBytes(nonce, d) => SendSimulates(p, cipher, n, t, nonce, d);
    case ServeBytes(env) => ServeMeansWaiting(p, cipher, n, t, env); ServeSimulates(p, cipher, n, t, env);
    case OtherBytes(raw, env) => OtherSimulates(p, cipher, n, t, raw, env);
    case ReceiveBytes => ReceiveSimulates(p, cipher, n, t);
  }

  lemma ServeMeansWaiting(p: Params, cipher: Cipher, n: Net, t: Tunnel, env: Env)
    requires Matches(p, cipher, n, t) && EnabledNet(p, cipher, n, ServeBytes(env))
    ensures n.sent && t.stage == Waiting
  {
    hide IsRequest, IsResponse, Handle, FrameEnd;
    EmptyHasNoFrame();
  }

  /** The steps that count as faults: a failed attempt, and a seal that fails at either end. */
  predicate Faulty(e: Event) {
    e.Fails? || e.SealFails? || (e.Serve? && !e.sealed)
  }

  predicate FaultyNet(e: NetEvent) {
    e.Local? && Faulty(e.event)
  }

  predicate NoFaults(events: seq<Event>) {
    forall i :: 0 <= i < |events| ==> !Faulty(events[i])
  }

  ghost predicate AlwaysSeals(cipher: Cipher) {
    forall nonce: Str, plain: Str :: cipher.seal(nonce, plain).Some?
  }

  lemma FaultFreeMeaning(p: Params, cipher: Cipher, t: Tunnel, e: NetEvent)
    requires p.Valid() && AgentInv(t.core.agent) && Ours(p, t)
    requires AlwaysSeals(cipher) && !FaultyNet(e)
    ensures NoFaults(Meaning(p, cipher, t, e))
  {
    hide Apply, AgentInv, Ours, Params.Valid, DecodeRequest;
    if e.ServeBytes? && t.core.agent.phase.Busy? {
      OursIsReplied(p, t, e.env);
    }
  }

  lemma FaultFreeStep(p: Params, t: Tunnel, e: Event)
    requires Enabled(p, t, e) && !Faulty(e)
    ensures Step(p, t, e).h.faults == t.h.faults
  {
    hide Apply, Answer;
  }

  lemma {:induction false} FaultFreeRun(p: Params, t: Tunnel, events: seq<Event>)
    requires IsRun(p, t, events) && NoFaults(events)
    ensures Run(p, t, events).h.faults == t.h.faults
    decreases events
  {
    hide Step, Enabled, Faulty;
    if events != [] {
      FaultFreeStep(p, t, events[0]);
      FaultFreeRun(p, Step(p, t, events[0]), events[1..]);
    }
  }

  // ----- what passes the client's socket ------------------------------------------------------------------

  function NetArrival(e: NetEvent): Str {
    if e.Local? then Arrival(e.event) else ""
  }

  /** Everything the client's socket delivered in the course of a run of bytes. */
  function NetClientBytes(events: seq<NetEvent>): Str {
    if events == [] then "" else NetArrival(events[0]) + NetClientBytes(events[1..])
  }

  lemma MeaningCarries(p: Params, cipher: Cipher, t: Tunnel, e: NetEvent)
    ensures ClientBytes(Meaning(p, cipher, t, e)) == NetArrival(e)
  {
    hide Apply, DecodeRequest;
    var es := Meaning(p, cipher, t, e);
    if es != [] {
      assert es[1..] == [] && ClientBytes(es) == Arrival(es[0]) + "";
    }
  }

  /** What the client's socket takes in one step of a started tunnel. */
  function SocketTakes(a: Agent, e: Event): Str {
    if e.Progress? && a.started && a.write.Writing? && a.write.sent + e.k <= |a.write.data| then
      a.write.data[a.write.sent..a.write.sent + e.k]
    else ""
  }

  function NetTakes(n: Net, e: NetEvent): Str {
    if e.Local? then SocketTakes(n.core.agent, e.event) else ""
  }

  lemma StepTakes(p: Params, t: Tunnel, e: Event)
    requires AgentInv(t.core.agent) && Enabled(p, t, e)
    ensures Step(p, t, e).h.toClient == t.h.toClient + SocketTakes(t.core.agent, e)
  {
    hide AgentInv, Apply, Fail, FailToSeal, Answer;
    assert t.h.toClient + "" == t.h.toClient;
    if e.Serve? {
      ServedTakesNothing(p, t, e.env, e.sealed);
    }
  }

  lemma ServedTakesNothing(p: Params, t: Tunnel, env: Env, sealed: bool)
    requires t.core.agent.phase.Busy?
    ensures Served(p, t, env, sealed).h.toClient == t.h.toClient
  {
    hide Apply;
  }

  // ----- runs of bytes ------------------------------------------------------------------------------------

  ghost predicate IsNetRun(p: Params, cipher: Cipher, n: Net, events: seq<NetEvent>)
    decreases events
  {
    events == [] ||
    (EnabledNet(p, cipher, n, events[0]) && IsNetRun(p, cipher, StepNet(p, cipher, n, events[0]), events[1..]))
  }

  ghost function NetRun(p: Params, cipher: Cipher, n: Net, events: seq<NetEvent>): Net
    requires IsNetRun(p, cipher, n, events)
    decreases events
  {
    if events == [] then n else NetRun(p, cipher, StepNet(p, cipher, n, events[0]), events[1..])
  }

  function NetStart(p: Params, table: Table): Net {
    Net(Initial(p.Raw(), table), false, "", "")
  }

  // ----- the one run of messages behind a run of bytes -----------------------------------------------------

  /** The message step a byte step stands for, taken. */
  function Follow(p: Params, cipher: Cipher, t: Tunnel, e: NetEvent): Tunnel {
    var es := Meaning(p, cipher, t, e);
    if es != [] && Enabled(p, t, es[0]) then Step(p, t, es[0]) else t
  }

  /** The messages of a run of bytes, each the meaning of its event. */
  function NetSteps(p: Params, cipher: Cipher, t: Tunnel, events: seq<NetEvent>): seq<Event>
    decreases events
  {
    if events == [] then []
    else Meaning(p, cipher, t, events[0]) + NetSteps(p, cipher, Follow(p, cipher, t, events[0]), events[1..])
  }

  /** Everything the client's socket took in the course of a run of bytes. */
  ghost function NetTook(p: Params, cipher: Cipher, n: Net, events: seq<NetEvent>): Str
    requires IsNetRun(p, cipher, n, events)
    decreases events
  {
    if events == [] then ""
    else NetTakes(n, events[0]) + NetTook(p, cipher, StepNet(p, cipher, n, events[0]), events[1..])
  }

  /** One byte step and its meaning, side by side. */
  lemma NetStepFollows(p: Params, cipher: Cipher, n: Net, t: Tunnel, e: NetEvent)
    requires ValidWire(p, cipher) && AgentInv(t.core.agent) && Ours(p, t) && Matches(p, cipher, n, t)
    requires EnabledNet(p, cipher, n, e)
    ensures
      var es, next, f := Meaning(p, cipher, t, e), StepNet(p, cipher, n, e), Follow(p, cipher, t, e);
      && AgentInv(f.core.agent) && Ours(p, f) && Matches(p, cipher, next, f)
      && ((es == [] && f == t) || (|es| == 1 && Enabled(p, t, es[0]) && f == Step(p, t, es[0])))
      && f.h.toClient == t.h.toClient + NetTakes(n, e)
  {
    hide Step, StepNet, Enabled, EnabledNet, AgentInv, Ours, ValidWire, Matches, Meaning, SocketTakes;
    ValidParts(p, cipher);
    NetStep(p, cipher, n, t, e);
    MatchesCore(p, cipher, n, t);
    var es := Meaning(p, cipher, t, e);
    if es == [] {
      EmptyTakesNothing(p, cipher, t, e);
      assert t.h.toClient + "" == t.h.toClient;
    } else {
      AgentStep(p, t, es[0]);
      OursStep(p, t, es[0]);
      StepTakes(p, t, es[0]);
      MeaningTakes(p, cipher, t, e);
    }
  }

  lemma MatchesCore(p: Params, cipher: Cipher, n: Net, t: Tunnel)
    requires Matches(p, cipher, n, t)
    ensures n.core == t.core
  {
  }

  lemma EmptyTakesNothing(p: Params, cipher: Cipher, t: Tunnel, e: NetEvent)
    requires Meaning(p, cipher, t, e) == []
    ensures !e.Local?
  {
    hide Apply, DecodeRequest;
  }

  lemma MeaningTakes(p: Params, cipher: Cipher, t: Tunnel, e: NetEvent)
    requires |Meaning(p, cipher, t, e)| == 1
    ensures SocketTakes(t.core.agent, Meaning(p, cipher, t, e)[0]) ==
            if e.Local? then SocketTakes(t.core.agent, e.event) else ""
  {
    hide Apply, DecodeRequest;
  }

  lemma ConsRun(p: Params, t: Tunnel, es: seq<Event>, f: Tunnel, rest: seq<Event>)
    requires (es == [] && f == t) || (|es| == 1 && Enabled(p, t, es[0]) && f == Step(p, t, es[0]))
    requires IsRun(p, f, rest)
    ensures IsRun(p, t, es + rest) && Run(p, t, es + rest) == Run(p, f, rest)
  {
    hide Step, Enabled;
    if es == [] {
      assert es + rest == rest;
    } else {
      assert (es + rest)[0] == es[0] && (es + rest)[1..] == rest;
    }
  }

  lemma {:induction false} ClientBytesConcat(a: seq<Event>, b: seq<Event>)
    ensures ClientBytes(a + b) == ClientBytes(a) + ClientBytes(b)
  {
    hide Arrival;
    if a == [] {
      assert a + b == b;
    } else {
      assert (a + b)[1..] == a[1..] + b;
      ClientBytesConcat(a[1..], b);
    }
  }

  /** Every run of bytes is the run of its messages, over the same agent, connection and table,
      with the same bytes read from the client and passed to it. */
  lemma {:induction false} NetRefines(p: Params, cipher: Cipher, n: Net, t: Tunnel, events: seq<NetEvent>)
    requires ValidWire(p, cipher) && AgentInv(t.core.agent) && Ours(p, t) && Matches(p, cipher, n, t)
    requires IsNetRun(p, cipher, n, events)
    ensures
      var steps := NetSteps(p, cipher, t, events);
      && IsRun(p, t, steps)
      && Matches(p, cipher, NetRun(p, cipher, n, events), Run(p, t, steps))
      && ClientBytes(steps) == NetClientBytes(events)
      && Run(p, t, steps).h.toClient == t.h.toClient + NetTook(p, cipher, n, events)
    decreases events
  {
    hide Step, StepNet, Enabled, EnabledNet, AgentInv, Ours, ValidWire, Matches, Meaning, Follow, NetTakes, NetArrival;
    if events == [] {
      assert t.h.toClient + "" == t.h.toClient;
    } else {
      var e := events[0];
      var es, next, f := Meaning(p, cipher, t, e), StepNet(p, cipher, n, e), Follow(p, cipher, t, e);
      NetStepFollows(p, cipher, n, t, e);
      MeaningCarries(p, cipher, t, e);
      NetRefines(p, cipher, next, f, events[1..]);
      var rest := NetSteps(p, cipher, f, events[1..]);
      ConsRun(p, t, es, f, rest);
      ClientBytesConcat(es, rest);
      AssociateTook(t.h.toClient, NetTakes(n, e), NetTook(p, cipher, next, events[1..]));
    }
  }

  lemma AssociateTook(a: Str, b: Str, c: Str)
    ensures (a + b) + c == a + (b + c)
  {
  }

  /** Without failed attempts and with a cipher that always seals, no message of the run is a
      fault. */
  lemma {:induction false} FaultFreeSteps(p: Params, cipher: Cipher, n: Net, t: Tunnel, events: seq<NetEvent>)
    requires ValidWire(p, cipher) && AgentInv(t.core.agent) && Ours(p, t) && Matches(p, cipher, n, t)
    requires IsNetRun(p, cipher, n, events) && FaultFree(cipher, events)
    ensures NoFaults(NetSteps(p, cipher, t, events))
    decreases events
  {
    hide Step, StepNet, Enabled, EnabledNet, AgentInv, Ours, ValidWire, Matches, Meaning, Follow, NoFaults, FaultyNet,
      AlwaysSeals, FaultFree;
    if events == [] {
      NoFaultsInNothing();
    } else {
      ValidParts(p, cipher);
      FaultFreeParts(cipher, events);
      NetStepFollows(p, cipher, n, t, events[0]);
      FaultFreeMeaning(p, cipher, t, events[0]);
      FaultFreeSteps(p, cipher, StepNet(p, cipher, n, events[0]), Follow(p, cipher, t, events[0]), events[1..]);
      var f := Follow(p, cipher, t, events[0]);
      NoFaultsConcat(Meaning(p, cipher, t, events[0]), NetSteps(p, cipher, f, events[1..]));
    }
  }

  lemma FaultFreeParts(cipher: Cipher, events: seq<NetEvent>)
    requires FaultFree(cipher, events) && events != []
    ensures AlwaysSeals(cipher) && !FaultyNet(events[0]) && FaultFree(cipher, events[1..])
  {
  }

  lemma NoFaultsInNothing()
    ensures NoFaults([])
  {
  }

  lemma NoFaultsConcat(a: seq<Event>, b: seq<Event>)
    requires NoFaults(a) && NoFaults(b)
    ensures NoFaults(a + b)
  {
    hide Faulty;
  }

  ghost predicate FaultFree(cipher: Cipher, events: seq<NetEvent>) {
    AlwaysSeals(cipher) && forall i :: 0 <= i < |events| ==> !FaultyNet(events[i])
  }

  lemma NetStartMatches(p: Params, cipher: Cipher, table: Table)
    requires Ready(p, table) && table.Valid()
    ensures Matches(p, cipher, NetStart(p, table), Start(p, table))
    ensures AgentInv(Start(p, table).core.agent) && Ours(p, Start(p, table))
    ensures Start(p, table).h.toClient == "" && Start(p, table).h.faults == 0
  {
  }

  /** The state of messages a run of bytes from the start has reached. */
  ghost function Reached(p: Params, cipher: Cipher, table: Table, events: seq<NetEvent>): Tunnel
    requires IsRun(p, Start(p, table), NetSteps(p, cipher, Start(p, table), events))
  {
    Run(p, Start(p, table), NetSteps(p, cipher, Start(p, table), events))
  }

  /** What the run of bytes and the run of its messages have in common. */
  lemma NetReaches(p: Params, cipher: Cipher, table: Table, events: seq<NetEvent>)
    requires ValidWire(p, cipher) && Ready(p, table) && table.Valid()
    requires IsNetRun(p, cipher, NetStart(p, table), events)
    ensures
      var s, n := NetStart(p, table), NetRun(p, cipher, NetStart(p, table), events);
      var steps := NetSteps(p, cipher, Start(p, table), events);
      && IsRun(p, Start(p, table), steps)
      && Matches(p, cipher, n, Reached(p, cipher, table, events))
      && ClientBytes(steps) == NetClientBytes(events)
      && Reached(p, cipher, table, events).h.toClient == NetTook(p, cipher, s, events)
      && (FaultFree(cipher, events) ==> Reached(p, cipher, table, events).h.faults == 0)
  {
    hide IsRun, Run, IsNetRun, NetRun, NetSteps, NetTook, AgentInv, Ours, ValidWire, Ready, NetStart, Start, Matches,
      FaultFree, ClientBytes, NetClientBytes, NoFaults;
    NetStartMatches(p, cipher, table);
    NetRefines(p, cipher, NetStart(p, table), Start(p, table), events);
    var took := NetTook(p, cipher, NetStart(p, table), events);
    assert "" + took == took;
    if FaultFree(cipher, events) {
      FaultFreeSteps(p, cipher, NetStart(p, table), Start(p, table), events);
      FaultFreeRun(p, Start(p, table), NetSteps(p, cipher, Start(p, table), events));
    }
  }

  /** Lockstep over every run of bytes: whenever no action is being posted, or the current one
      is not on the wire, no request is outstanding and no response byte unread, after any
      failed attempts, reconnects and retries; and a whole response on the wire decodes to the
      server's answer to the action the agent is waiting on. */
  lemma Lockstep(p: Params, cipher: Cipher, table: Table, events: seq<NetEvent>)
    requires ValidWire(p, cipher) && Ready(p, table) && table.Valid()
    requires IsNetRun(p, cipher, NetStart(p, table), events)
    ensures IsRun(p, Start(p, table), NetSteps(p, cipher, Start(p, table), events))
    ensures
      var n, t := NetRun(p, cipher, NetStart(p, table), events), Reached(p, cipher, table, events);
      && n.core == t.core
      && (!n.core.agent.phase.Busy? || !n.sent ==> n.up == "" && n.down == "")
      && (n.sent && n.down != "" ==>
            n.up == "" && t.stage.Answered? && FrameEnd(n.down) == Some(|n.down|)
            && DecodeResponse(cipher, n.down) == t.stage.plain)
  {
    hide IsRun, Run, IsNetRun, NetRun, NetSteps, NetTook, ValidWire, Ready, Start, NetStart, FrameEnd, DecodeResponse,
      IsRequest, FaultFree, ClientBytes, NetClientBytes, Reached;
    NetReaches(p, cipher, table, events);
  }

  /** The conservation theorems hold of the bytes: in a run of bytes in which no attempt and no
      seal fails, the destination has been given a prefix of the client's stream, and what it
      emitted is what the client's socket took, then what is in transit, then what is unread. */
  lemma BytesConserved(p: Params, cipher: Cipher, table: Table, events: seq<NetEvent>)
    requires ValidWire(p, cipher) && Ready(p, table) && table.Valid()
    requires IsNetRun(p, cipher, NetStart(p, table), events) && FaultFree(cipher, events)
    ensures IsRun(p, Start(p, table), NetSteps(p, cipher, Start(p, table), events))
    ensures
      var n, t := NetRun(p, cipher, NetStart(p, table), events), Reached(p, cipher, table, events);
      && n.core == t.core
      && Written(t) <= p.early + NetClientBytes(events)
      && (TargetOpen(t) && !InFlight(t) ==> Written(t) + Held(n.core.agent) == p.early + NetClientBytes(events))
      && (t.h.target.None? ==> NetTook(p, cipher, NetStart(p, table), events) == "")
      && (t.h.target.Some? && t.h.target.value < |n.core.table.targets| ==>
            var d := n.core.table.targets[t.h.target.value];
            d.emitted == NetTook(p, cipher, NetStart(p, table), events) + InTransit(t) + d.unread)
  {
    hide IsRun, Run, IsNetRun, NetRun, NetSteps, NetTook, ValidWire, Ready, Start, NetStart, TargetOpen, InFlight,
      Written, InTransit, FaultFree, ClientBytes, NetClientBytes, Held, Matches;
    NetReaches(p, cipher, table, events);
    MatchesCore(p, cipher, NetRun(p, cipher, NetStart(p, table), events), Reached(p, cipher, table, events));
    UplinkConserved(p, table, NetSteps(p, cipher, Start(p, table), events));
    DownlinkConserved(p, table, NetSteps(p, cipher, Start(p, table), events));
  }

  /** Retry multiplicity on bytes, under every schedule of faults: the client's stream, cut into
      the chunks it was read in, reaches an open destination with each chunk at most twice, or
      at most once without connection reuse. */
  lemma BytesAtMostTwice(p: Params, cipher: Cipher, table: Table, events: seq<NetEvent>)
    requires ValidWire(p, cipher) && Ready(p, table) && table.Valid()
    requires IsNetRun(p, cipher, NetStart(p, table), events)
    ensures IsRun(p, Start(p, table), NetSteps(p, cipher, Start(p, table), events))
    ensures
      var n, t := NetRun(p, cipher, NetStart(p, table), events), Reached(p, cipher, table, events);
      && n.core == t.core
      && |t.h.chunks| == |t.h.copies|
      && Join(t.h.chunks) + Held(n.core.agent) == NetClientBytes(events)
      && (forall i :: 0 <= i < |t.h.copies| ==> t.h.copies[i] <= if p.reuse then 2 else 1)
      && (TargetOpen(t) ==> Written(t) == p.early + Spread(t.h.chunks, t.h.copies))
  {
    hide IsRun, Run, IsNetRun, NetRun, NetSteps, NetTook, ValidWire, Ready, Start, NetStart, TargetOpen, Written,
      FaultFree, ClientBytes, NetClientBytes, Held, Matches, Spread, Join, AgentInv;
    NetReaches(p, cipher, table, events);
    MatchesCore(p, cipher, NetRun(p, cipher, NetStart(p, table), events), Reached(p, cipher, table, events));
    var steps := NetSteps(p, cipher, Start(p, table), events);
    ChunksAtMostTwice(p, table, steps);
    NetStartMatches(p, cipher, table);
    ChunksAreClientBytes(p, Start(p, table), steps);
    NothingCarriedYet(p, table, NetClientBytes(events));
  }

  /** And down, under every schedule of faults: what the client's socket took is an in-order
      subsequence of the payloads the server read, none twice, then at most part of the last;
      and those payloads, with what is unread, are all the destination emitted. */
  lemma BytesNeverTwice(p: Params, cipher: Cipher, table: Table, events: seq<NetEvent>)
    requires ValidWire(p, cipher) && Ready(p, table) && table.Valid()
    requires IsNetRun(p, cipher, NetStart(p, table), events)
    ensures IsRun(p, Start(p, table), NetSteps(p, cipher, Start(p, table), events))
    ensures
      var n, t := NetRun(p, cipher, NetStart(p, table), events), Reached(p, cipher, table, events);
      && n.core == t.core
      && |t.h.payloads| == |t.h.fates|
      && Subsequence(Kept(t.h.payloads, t.h.fates), t.h.payloads)
      && (exists part: Str ::
            && NetTook(p, cipher, NetStart(p, table), events) == Join(Kept(t.h.payloads, t.h.fates)) + part
            && (part != "" ==> t.h.payloads != [] && part <= t.h.payloads[|t.h.payloads| - 1]
                               && t.h.fates[|t.h.fates| - 1] != Delivered))
      && (t.h.target.Some? && t.h.target.value < |n.core.table.targets| ==>
            var d := n.core.table.targets[t.h.target.value]; d.emitted == Join(t.h.payloads) + d.unread)
  {
    hide IsRun, Run, IsNetRun, NetRun, NetSteps, NetTook, ValidWire, Ready, Start, NetStart, FaultFree, ClientBytes,
      NetClientBytes, Matches, Kept, Join, Subsequence;
    NetReaches(p, cipher, table, events);
    MatchesCore(p, cipher, NetRun(p, cipher, NetStart(p, table), events), Reached(p, cipher, table, events));
    NoPayloadTwice(p, table, NetSteps(p, cipher, Start(p, table), events));
  }
}
