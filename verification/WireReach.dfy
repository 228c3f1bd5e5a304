/** The other direction of `WireTunnel.dfy`: what the messages can do, the bytes can do. Every
    run of messages without other sessions' requests or refused seals is the run behind some
    run of bytes, so the theorems over runs of bytes are not about nothing. */
module WireReach {
  import opened AgentLoop
  import opened Bytes
  import opened HexCodec
  import HttpRequest
  import opened HttpUtils
  import opened PolledTunnel
  import opened Readers
  import opened Server
  import opened TunnelInvariants
  import opened TunnelRetry
  import opened TunnelRounds
  import opened TunnelUplink
  import opened Wire
  import opened WireTunnel
  import Base64
  import HostPort

  // ----- nothing on the wire is stuck -----------------------------------------------------------------

  /** A request on the wire can be served, as long as the answer's size can be counted. */
  lemma WaitingIsServable(p: Params, cipher: Cipher, n: Net, t: Tunnel, env: Env)
    requires ValidWire(p, cipher) && AgentInv(t.core.agent) && Ours(p, t) && Matches(p, cipher, n, t)
    requires n.sent && t.stage == Waiting
    ensures EnabledNet(p, cipher, n, ServeBytes(env)) <==>
            |Handle(p.config, cipher, n.core.table, n.up, env).response| <= MAX_SIZE
  {
    hide ValidWire, AgentInv, Ours, Handle, FrameEnd, IsRequest, IsResponse, DecodeRequest;
    PostsAreOneRead(p, cipher, t);
    RequestUnderstood(p, cipher, t.core.agent.phase.post, n.up);
    assert n.up[..|n.up|] == n.up;
  }

  /** A response on the wire can be received. */
  lemma AnsweredIsReceivable(p: Params, cipher: Cipher, n: Net, t: Tunnel)
    requires Matches(p, cipher, n, t) && n.sent && t.stage.Answered?
    ensures EnabledNet(p, cipher, n, ReceiveBytes)
  {
    hide FrameEnd, IsRequest, DecodeResponse;
  }

  /** What the agent can do by itself it can do on the wire. */
  lemma LocalIsEnabled(p: Params, cipher: Cipher, n: Net, t: Tunnel, l: Event)
    requires Matches(p, cipher, n, t) && IsLocal(l) && Enabled(p, t, l)
    ensures EnabledNet(p, cipher, n, Local(l))
  {
    hide IsRequest, IsResponse;
  }

  // ----- room for every message ----------------------------------------------------------------------

  predicate RequestFits(p: Params, cipher: Cipher, post: Post, nonce: Str, d: Decoy) {
    var m := Request(p, cipher, post, nonce, d);
    m.Some? && |m.value| <= MAX_SIZE
  }

  predicate ShortReply(p: Params, plain: Str, status: Str, connection: Str) {
    |plain| <= Max(p.config.bufferSize, 64) && |status| <= 64 && |connection| <= 64
  }

  /** The cipher always seals, and no message of the tunnel outgrows a `size_t`. */
  ghost predicate Room(p: Params, cipher: Cipher, d: Decoy) {
    && d.Usable() && AlwaysSeals(cipher)
    && (forall post: Post, nonce: Str :: |post.body| <= BUFFER_SIZE ==> RequestFits(p, cipher, post, nonce, d))
    && (forall nonce: Str, plain: Str, status: Str, connection: Str :: ShortReply(p, plain, status, connection) ==>
          |SealedResponse(cipher, nonce, plain, status, connection)| <= MAX_SIZE)
  }

  lemma {:induction false} DecimalLinear(n: nat)
    ensures |Decimal(n)| <= n + 1
  {
    if n >= 10 {
      DecimalLinear(n / 10);
    }
  }

  lemma {:induction false} BlockLength(lines: seq<Str>, bound: nat)
    requires forall i :: 0 <= i < |lines| ==> |lines[i]| <= bound
    ensures |HeaderBlock(lines)| <= |lines| * (bound + 2)
  {
    if lines != [] {
      BlockLength(lines[1..], bound);
      assert |lines| * (bound + 2) == (|lines| - 1) * (bound + 2) + (bound + 2);
    }
  }

  lemma ResponseLength(body: Str, status: Str, connection: Str, bound: nat)
    requires 100 + |body| <= bound && |status| <= 64 && |connection| <= 64
    ensures |PlainResponse(body, status, connection)| <= 5 * (bound + 2)
  {
    var lines := ResponseLines(status, connection, |body|);
    DecimalLinear(|body|);
    assert forall i :: 0 <= i < |lines| ==> |lines[i]| <= bound;
    BlockLength(lines, bound);
  }

  lemma RequestLength(d: Decoy, session: Str, action: Str, keepAlive: bool, body: Str, bound: nat)
    requires 100 + |d.verb| + |d.endPoint| + |d.httpVersion| + |d.host| + |d.userAgent|
             + |session| + |action| + |body| <= bound
    ensures |Message(RequestLines(d, session, action, |body|, keepAlive), body)| <= 10 * (bound + 2)
  {
    var lines := RequestLines(d, session, action, |body|, keepAlive);
    DecimalLinear(|body|);
    assert forall i :: 0 <= i < |lines| ==> |lines[i]| <= bound;
    BlockLength(lines, bound);
  }

  /** Sizes any deployment has are room enough. */
  predicate Deployed(p: Params, d: Decoy) {
    && p.config.bufferSize <= 0x1_0000_0000 && |p.session| <= 1000
    && |d.verb| + |d.endPoint| + |d.httpVersion| + |d.host| + |d.userAgent| <= 10000
  }

  lemma DeployedHasRoom(p: Params, cipher: Cipher, d: Decoy)
    requires cipher.Compact() && AlwaysSeals(cipher) && d.Usable() && Deployed(p, d)
    ensures Room(p, cipher, d)
  {
    hide Decoy.Usable;
    forall post: Post, nonce: Str | |post.body| <= BUFFER_SIZE ensures RequestFits(p, cipher, post, nonce, d) {
      DeployedRequestFits(p, cipher, post, nonce, d);
    }
    forall nonce: Str, plain: Str, status: Str, connection: Str | ShortReply(p, plain, status, connection)
      ensures |SealedResponse(cipher, nonce, plain, status, connection)| <= MAX_SIZE
    {
      DeployedResponseFits(p, cipher, nonce, plain, status, connection);
    }
  }

  lemma DeployedRequestFits(p: Params, cipher: Cipher, post: Post, nonce: Str, d: Decoy)
    requires cipher.Compact() && AlwaysSeals(cipher) && Deployed(p, d) && |post.body| <= BUFFER_SIZE
    ensures RequestFits(p, cipher, post, nonce, d)
  {
    hide Hex, Base64.Encode, Message, RequestLines, Action.Name;
    OneReadFits(cipher, nonce, post.body);
    NameLength(post.action);
    var body := EncodeBody(cipher, nonce, post.body).value;
    var keepAlive := p.reuse && post.action != ActClose;
    RequestLength(d, p.session, post.action.Name(), keepAlive, body, HttpRequest.BODY_LIMIT + 20000);
  }

  lemma NameLength(a: Action)
    ensures |a.Name()| <= 10
  {
  }

  lemma DeployedResponseFits(p: Params, cipher: Cipher, nonce: Str, plain: Str, status: Str, connection: Str)
    requires cipher.Compact() && AlwaysSeals(cipher) && p.config.bufferSize <= 0x1_0000_0000
    requires ShortReply(p, plain, status, connection)
    ensures |SealedResponse(cipher, nonce, plain, status, connection)| <= MAX_SIZE
  {
    hide PlainResponse;
    ResponseLength(cipher.seal(nonce, plain).value, status, connection, 0x1_0000_0000 + 200);
  }

  /** Every reply to one of our actions is short. */
  lemma OursReplyIsShort(p: Params, t: Tunnel, env: Env)
    requires p.Valid() && AgentInv(t.core.agent) && Ours(p, t) && t.core.agent.phase.Busy?
    ensures
      var post := t.core.agent.phase.post;
      var reply := Apply(p.config, t.core.table, p.session, post.action.Name(), Hex(post.body), env).reply;
      reply.Reply? && ShortReply(p, reply.plain, reply.status, reply.connection)
  {
    hide Apply, AgentInv, Params.Valid, Params.Raw, ShortReply, Server.Open, Server.Recv, Server.Close, Empty,
      HttpRequest.Destination, Hex;
    var post := t.core.agent.phase.post;
    OthersReplyShort(p, t.core.table, env);
    match post.action
    case ActOpen =>
      OpenEffect(p, t.core.table, env);
      OpenReplyShort(p, t.core.table, HttpRequest.Destination(p.target), env);
    case ActSend => SendEffect(p, t.core.table, post.body, env);
    case ActRecv => RecvEffect(p, t.core.table, Hex(post.body), env);
    case ActClose => CloseEffect(p, t.core.table, Hex(post.body), env);
  }

  lemma OpenReplyShort(p: Params, table: Table, to: HostPort.Endpoint, env: Env)
    ensures
      var reply := Server.Open(p.config, table, p.session, to, p.early, env).reply;
      reply.Reply? && ShortReply(p, reply.plain, reply.status, reply.connection)
  {
    hide WriteTo;
  }

  lemma OthersReplyShort(p: Params, table: Table, env: Env)
    ensures
      var empty, recv, close := Empty(p.config), Server.Recv(p.config, table, p.session, env).reply,
                                Server.Close(p.config, table, p.session).reply;
      && empty.Reply? && ShortReply(p, empty.plain, empty.status, empty.connection)
      && recv.Reply? && ShortReply(p, recv.plain, recv.status, recv.connection)
      && close.Reply? && ShortReply(p, close.plain, close.status, close.connection)
  {
  }

  // ----- from messages to bytes ------------------------------------------------------------------------

  /** Events that need nobody else, and at which the seal does not fail. */
  predicate Plain(e: Event) {
    !e.Other? && (e.Serve? ==> e.sealed)
  }

  /** The bytes of a message step. */
  function EventOf(e: Event, nonce: Str, d: Decoy): NetEvent
    requires Plain(e)
  {
    match e
    case Transmit => SendBytes(nonce, d)
    case Serve(env, _) => ServeBytes(env)
    case Receive => ReceiveBytes
    case _ => Local(e)
  }

  /** An enabled message step is the meaning of an enabled byte step. */
  lemma StepRealized(p: Params, cipher: Cipher, n: Net, t: Tunnel, e: Event, nonce: Str, d: Decoy)
    requires ValidWire(p, cipher) && AgentInv(t.core.agent) && Ours(p, t) && Matches(p, cipher, n, t)
    requires Room(p, cipher, d) && Enabled(p, t, e) && Plain(e)
    ensures EnabledNet(p, cipher, n, EventOf(e, nonce, d))
    ensures Meaning(p, cipher, t, EventOf(e, nonce, d)) == [e]
  {
    hide ValidWire, Room, AgentInv, Ours, Matches, Request, Apply, Decoy.Usable, Handle, Hex;
    match e
    case Transmit => TransmitRealized(p, cipher, n, t, nonce, d);
    case Serve(env, _) => ServeRealized(p, cipher, n, t, env, d);
    case Receive =>
      MatchesSent(p, cipher, n, t);
      AnsweredIsReceivable(p, cipher, n, t);
    case _ => LocalIsEnabled(p, cipher, n, t, e);
  }

  lemma MatchesSent(p: Params, cipher: Cipher, n: Net, t: Tunnel)
    requires Matches(p, cipher, n, t)
    ensures n.core == t.core
    ensures n.sent <==> t.core.agent.phase.Busy? && t.stage != Prepare
  {
  }

  lemma TransmitRealized(p: Params, cipher: Cipher, n: Net, t: Tunnel, nonce: Str, d: Decoy)
    requires ValidWire(p, cipher) && AgentInv(t.core.agent) && Ours(p, t) && Matches(p, cipher, n, t)
    requires Room(p, cipher, d) && Enabled(p, t, Transmit)
    ensures EnabledNet(p, cipher, n, SendBytes(nonce, d))
  {
    hide ValidWire, AgentInv, Ours, Matches, Request, Decoy.Usable;
    MatchesSent(p, cipher, n, t);
    PostsAreOneRead(p, cipher, t);
    assert RequestFits(p, cipher, t.core.agent.phase.post, nonce, d);
  }

  lemma ServeRealized(p: Params, cipher: Cipher, n: Net, t: Tunnel, env: Env, d: Decoy)
    requires ValidWire(p, cipher) && AgentInv(t.core.agent) && Ours(p, t) && Matches(p, cipher, n, t)
    requires Room(p, cipher, d) && Enabled(p, t, Serve(env, true))
    ensures EnabledNet(p, cipher, n, ServeBytes(env))
    ensures Meaning(p, cipher, t, ServeBytes(env)) == [Serve(env, true)]
  {
    hide ValidWire, AgentInv, Ours, Matches, EnabledNet, Meaning, Handle, Room;
    MatchesSent(p, cipher, n, t);
    AnswerFits(p, cipher, n, t, env, d);
    WaitingIsServable(p, cipher, n, t, env);
    RoomSeals(p, cipher, d);
    ValidParts(p, cipher);
    MeaningOfServe(p, cipher, t, env);
  }

  lemma RoomSeals(p: Params, cipher: Cipher, d: Decoy)
    requires Room(p, cipher, d)
    ensures AlwaysSeals(cipher)
  {
  }

  lemma MeaningOfServe(p: Params, cipher: Cipher, t: Tunnel, env: Env)
    requires p.Valid() && AgentInv(t.core.agent) && Ours(p, t) && t.core.agent.phase.Busy? && AlwaysSeals(cipher)
    ensures Meaning(p, cipher, t, ServeBytes(env)) == [Serve(env, true)]
  {
    hide AgentInv, Ours, Params.Valid, Apply, Hex, ShortReply, DecodeRequest;
    OursReplyIsShort(p, t, env);
  }

  lemma AnswerFits(p: Params, cipher: Cipher, n: Net, t: Tunnel, env: Env, d: Decoy)
    requires ValidWire(p, cipher) && AgentInv(t.core.agent) && Ours(p, t) && Matches(p, cipher, n, t)
    requires Room(p, cipher, d) && n.sent && t.stage == Waiting
    ensures |Handle(p.config, cipher, n.core.table, n.up, env).response| <= MAX_SIZE
  {
    hide ValidWire, AgentInv, Ours, Matches, Apply, Hex, Handle, ShortReply, SealedResponse, DecodeRequest;
    hide Decoy.Usable, RequestFits, AlwaysSeals, Action.Name;
    MatchesSent(p, cipher, n, t);
    ValidParts(p, cipher);
    OursReplyIsShort(p, t, env);
    WaitingUnderstood(p, cipher, n, t);
    WholeIsHandled(p, cipher, t.core.table, n.up, env, t.core.agent.phase.post);
  }

  lemma WaitingUnderstood(p: Params, cipher: Cipher, n: Net, t: Tunnel)
    requires ValidWire(p, cipher) && AgentInv(t.core.agent) && Ours(p, t) && Matches(p, cipher, n, t)
    requires n.sent && t.stage == Waiting
    ensures
      var post := t.core.agent.phase.post;
      DecodeRequest(cipher, n.up) == Received(p.session, post.action.Name(), Hex(post.body))
  {
    hide ValidWire, AgentInv, Ours, IsRequest, IsResponse, DecodeRequest, Hex, FrameEnd;
    PostsAreOneRead(p, cipher, t);
    RequestUnderstood(p, cipher, t.core.agent.phase.post, n.up);
  }

  /** Every such run of messages is the run behind a run of bytes. */
  lemma {:induction false} RunRealized(p: Params, cipher: Cipher, n: Net, t: Tunnel, steps: seq<Event>,
                                       nonce: Str, d: Decoy)
    returns (events: seq<NetEvent>)
    requires ValidWire(p, cipher) && AgentInv(t.core.agent) && Ours(p, t) && Matches(p, cipher, n, t)
    requires Room(p, cipher, d) && IsRun(p, t, steps) && forall i :: 0 <= i < |steps| ==> Plain(steps[i])
    ensures IsNetRun(p, cipher, n, events) && NetSteps(p, cipher, t, events) == steps
    decreases steps
  {
    hide Step, StepNet, Enabled, EnabledNet, AgentInv, Ours, ValidWire, Matches, Meaning, Room, Plain, EventOf;
    if steps == [] {
      return [];
    }
    var e := EventOf(steps[0], nonce, d);
    StepRealized(p, cipher, n, t, steps[0], nonce, d);
    NetStepFollows(p, cipher, n, t, e);
    var rest := RunRealized(p, cipher, StepNet(p, cipher, n, e), Step(p, t, steps[0]), steps[1..], nonce, d);
    events := [e] + rest;
    assert events[1..] == rest;
    assert [steps[0]] + steps[1..] == steps;
  }

  /** From every start a run of bytes opens the tunnel, starts it, reads a byte from the client
      and puts its send on the wire, to an open destination. */
  lemma BytesReachSend(p: Params, cipher: Cipher, table: Table, nonce: Str, d: Decoy)
    returns (events: seq<NetEvent>)
    requires ValidWire(p, cipher) && Room(p, cipher, d) && Ready(p, table) && table.Valid()
    ensures IsNetRun(p, cipher, NetStart(p, table), events)
    ensures
      var n := NetRun(p, cipher, NetStart(p, table), events);
      && NetClientBytes(events) == "x"
      && n.sent && n.core.agent.phase == AgentLoop.Phase.Busy(Post(ActSend, "x"), 1)
      && IsRequest(p, cipher, n.core.agent.phase.post, n.up) && n.core.table.Live(p.session)
  {
    hide IsRun, Run, IsNetRun, NetRun, NetSteps, Step, ValidWire, Room, Ready, Start, NetStart, Plain, Reached,
      FaultFree, ClientBytes, NetClientBytes, NetTook, TargetOpen, InFlight, IsRequest, AgentInv, Ours;
    var steps := OPEN_AND_SEND;
    SendReachable(p, table);
    OpenAndSendIsPlain();
    NetStartMatches(p, cipher, table);
    events := RunRealized(p, cipher, NetStart(p, table), Start(p, table), steps, nonce, d);
    NetRefines(p, cipher, NetStart(p, table), Start(p, table), events);
    OpenMeansLive(p, table, steps);
  }

  lemma OpenAndSendIsPlain()
    ensures forall i :: 0 <= i < |OPEN_AND_SEND| ==> Plain(OPEN_AND_SEND[i])
    ensures ClientBytes(OPEN_AND_SEND) == "x"
  {
    var b := [ReadHandler, Transmit];
    assert OPEN_AND_SEND == OPENING + ([Delivers("x")] + b);
    QuietClient(OPENING);
    QuietClient(b);
    ClientBytesConcat(OPENING, [Delivers("x")] + b);
    assert ([Delivers("x")] + b)[1..] == b;
  }

  lemma {:induction false} QuietClient(events: seq<Event>)
    requires forall i :: 0 <= i < |events| ==> !events[i].Delivers?
    ensures ClientBytes(events) == ""
  {
    if events != [] {
      QuietClient(events[1..]);
    }
  }

  lemma OpenMeansLive(p: Params, table: Table, steps: seq<Event>)
    requires Ready(p, table) && table.Valid() && IsRun(p, Start(p, table), steps)
    requires TargetOpen(Run(p, Start(p, table), steps))
    ensures Run(p, Start(p, table), steps).core.table.Live(p.session)
  {
    hide IsRun, Run, Params.Valid, AgentInv, Ready, Start, Uplink, Exact;
    StartUplink(p, table);
    ReadyParts(p, table);
    RunUplink(p, Start(p, table), steps);
  }

  // ----- any exchange, on bytes ---------------------------------------------------------------------------

  predicate AllPlain(events: seq<Event>) {
    forall i :: 0 <= i < |events| ==> Plain(events[i])
  }

  lemma AllPlainConcat(a: seq<Event>, b: seq<Event>)
    requires AllPlain(a) && AllPlain(b)
    ensures AllPlain(a + b)
  {
    hide Plain;
  }

  /** A round is plain, and delivers exactly its chunk. */
  lemma RoundIsPlain(id: nat, job: Job)
    ensures AllPlain(RoundOf(id, job))
    ensures ClientBytes(RoundOf(id, job)) == if job.Up? then job.chunk else ""
  {
    match job
    case Up(chunk) =>
      var rest := [ReadHandler, Transmit, Serve(GOOD, true), Receive];
      assert SendRound(chunk) == [Delivers(chunk)] + rest;
      QuietClient(rest);
      assert ([Delivers(chunk)] + rest)[1..] == rest && chunk + "" == chunk;
    case Down(data) => QuietClient(PollRound(id, data));
  }

  lemma {:induction false} RoundsArePlain(id: nat, jobs: seq<Job>)
    ensures AllPlain(Rounds(id, jobs)) && ClientBytes(Rounds(id, jobs)) == Ups(jobs)
  {
    hide Plain, RoundOf;
    if jobs != [] {
      RoundIsPlain(id, jobs[0]);
      RoundsArePlain(id, jobs[1..]);
      AllPlainConcat(RoundOf(id, jobs[0]), Rounds(id, jobs[1..]));
      ClientBytesConcat(RoundOf(id, jobs[0]), Rounds(id, jobs[1..]));
    }
  }

  lemma ExchangeIsPlain(id: nat, jobs: seq<Job>)
    ensures AllPlain(OPENING + Rounds(id, jobs)) && ClientBytes(OPENING + Rounds(id, jobs)) == Ups(jobs)
  {
    OpeningIsPlain();
    hide Plain, Rounds;
    RoundsArePlain(id, jobs);
    AllPlainConcat(OPENING, Rounds(id, jobs));
    ClientBytesConcat(OPENING, Rounds(id, jobs));
    assert "" + Ups(jobs) == Ups(jobs);
  }

  lemma OpeningIsPlain()
    ensures AllPlain(OPENING) && ClientBytes(OPENING) == ""
  {
    QuietClient(OPENING);
  }

  /** From every start, any exchange of chunks and data is carried through by a run of bytes: the
      client's socket delivers exactly the chunks and takes exactly the data, and the
      destination is given the early data and the chunks. */
  lemma BytesCarry(p: Params, cipher: Cipher, table: Table, nonce: Str, d: Decoy, jobs: seq<Job>)
    returns (events: seq<NetEvent>)
    requires ValidWire(p, cipher) && Room(p, cipher, d) && Ready(p, table) && table.Valid()
    requires forall i :: 0 <= i < |jobs| ==> Carriable(p, jobs[i])
    ensures IsNetRun(p, cipher, NetStart(p, table), events)
    ensures
      var n := NetRun(p, cipher, NetStart(p, table), events);
      && NetClientBytes(events) == Ups(jobs)
      && NetTook(p, cipher, NetStart(p, table), events) == Downs(jobs)
      && n.core.table.Live(p.session)
      && n.core.table.targets[n.core.table.sessions[p.session]].written == p.early + Ups(jobs)
      && n.core.table.targets[n.core.table.sessions[p.session]].unread == ""
  {
    hide IsRun, Run, IsNetRun, NetRun, NetSteps, Step, ValidWire, Room, Ready, Start, NetStart, Plain, FaultFree,
      ClientBytes, NetClientBytes, NetTook, Rounds, AgentInv, Ours, Matches, Carriable;
    var steps := OPENING + Rounds(|table.targets|, jobs);
    ExchangeReachable(p, table, jobs);
    ExchangeIsPlain(|table.targets|, jobs);
    NetStartMatches(p, cipher, table);
    events := RunRealized(p, cipher, NetStart(p, table), Start(p, table), steps, nonce, d);
    NetReaches(p, cipher, table, events);
    MatchesSent(p, cipher, NetRun(p, cipher, NetStart(p, table), events), Run(p, Start(p, table), steps));
  }
}
