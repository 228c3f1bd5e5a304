/** The polled tunnel as a step system: one agent, its connection, the server's table and the
    destination behind the session, among any number of other sessions. Messages are taken
    whole here; `WireTunnel.dfy` puts the bytes back. */
module PolledTunnel {
  import opened AgentLoop
  import opened Bytes
  import opened Dial
  import opened HexCodec
  import opened HttpUtils
  import opened Server

  /** The two configurations, the agent's session id, and the client's CONNECT: its header
      lines, the target they name, and the data it sent along (`early`). */
  datatype Params = Params(config: Config, reuse: bool, session: Str, lines: seq<Str>, target: Str, early: Str) {
    ghost predicate Valid() {
      && !config.tunnelEnable
      && session != "" && ConnectLines(lines, target)
    }

    function Raw(): Str {
      Message(lines, early)
    }
  }

  /** Where the posted action stands: not sent, sent, or handled and answered. */
  datatype Stage = Prepare | Waiting | Answered(plain: Str)

  /** What became of bytes the server read from the destination for the client. */
  datatype Fate = InResponse | InWrite | Delivered | Lost | Cut(n: nat)

  /** What happened so far. `chunks` are the client's reads in order and `copies` how often
      each was written to the destination; `first` and `tail` are the early data and the torn
      chunk a failing destination took. `payloads` are the server's reads in order. */
  datatype History = History(
    posts: seq<Action>, closeAt: Option<nat>,
    target: Option<nat>, first: Str, chunks: seq<Str>, copies: seq<nat>, landed: nat, tail: Str,
    payloads: seq<Str>, fates: seq<Fate>, toClient: Str,
    faults: nat)

  datatype Tunnel = Tunnel(core: Core, stage: Stage, h: History) {
    predicate Busy(action: Action) {
      core.agent.phase.Busy? && core.agent.phase.post.action == action
    }
  }

  datatype Event =
    | Delivers(chunk: Str)
    | Ends
    | Expires
    | Progress(k: nat)
    | WriteEnds(ok: bool)
    | Emits(id: nat, data: Str)
    | Other(session: Str, action: Str, message: Str, otherEnv: Env)
    | Transmit
    | SealFails
    | Fails
    | Serve(env: Env, sealed: bool)
    | Receive
    | ReadHandler
    | TimerHandler
    | WriteHandler

  predicate Enabled(p: Params, t: Tunnel, e: Event) {
    var a := t.core.agent;
    match e
    case Delivers(chunk) => a.read == ReadArmed && 1 <= |chunk| <= BUFFER_SIZE
    case Ends => a.read == ReadArmed
    case Expires => a.timer == TimerArmed
    case Progress(k) => a.write.Writing? && k <= |a.write.data| - a.write.sent
    case WriteEnds(ok) => a.write.Writing? && (ok ==> a.write.sent == |a.write.data|)
    case Emits(id, _) => id < |t.core.table.targets|
    case Other(session, _, _, env) => session != p.session && KeyOf(session, env) != p.session
    case Transmit => a.phase.Busy? && t.stage == Prepare
    case SealFails => a.phase.Busy? && t.stage == Prepare
    case Fails => a.phase.Busy?
    case Serve(_, _) => a.phase.Busy? && t.stage == Waiting
    case Receive => a.phase.Busy? && t.stage.Answered?
    case ReadHandler => a.phase == Idle && (a.read.ReadReady? || a.read.ReadFailed?)
    case TimerHandler => a.phase == Idle && a.timer.TimerFired?
    case WriteHandler => a.phase == Idle && a.write.WriteDone?
  }

  function Last<T>(s: seq<T>, x: T): seq<T>
    requires s != []
  {
    s[|s| - 1 := x]
  }

  /** The effect of a handler or a return on the history: a post begun is recorded, and a
      payload write that a shutdown cancels is cut where it stood. */
  function After(t: Tunnel, c: Core): Tunnel {
    var begun := c.agent.phase.Busy? && !t.core.agent.phase.Busy?;
    var a := t.core.agent;
    var cut := a.started && a.write.Writing? && c.agent.write == WriteDone(false) && t.h.fates != [];
    var posts := if begun then t.h.posts + [c.agent.phase.post.action] else t.h.posts;
    var closeAt := if begun && c.agent.phase.post.action == ActClose then Some(|t.h.posts|) else t.h.closeAt;
    var fates := if cut then Last(t.h.fates, Cut(t.core.agent.write.sent)) else t.h.fates;
    Tunnel(c, Prepare, t.h.(posts := posts, closeAt := closeAt, fates := fates))
  }

  /** The server handles the posted action. */
  function Served(p: Params, t: Tunnel, env: Env, sealed: bool): Tunnel
    requires t.core.agent.phase.Busy?
  {
    var post := t.core.agent.phase.post;
    var eff := Apply(p.config, t.core.table, p.session, post.action.Name(), Hex(post.body), env);
    var answer := if sealed && eff.reply.Reply? then eff.reply.plain else "";
    var h := t.h.(faults := t.h.faults + if sealed then 0 else 1);
    var h' := match post.action
      case ActOpen => OpenRecorded(h, t.core.table, eff.table)
      case ActSend => if t.core.table.Live(p.session) then SendRecorded(h, post.body, env) else h
      case ActRecv => if eff.reply.Reply? && eff.reply.plain != "" then RecvRecorded(h, eff.reply.plain, sealed) else h
      case ActClose => h;
    Tunnel(t.core.(table := eff.table), Answered(answer), h')
  }

  function OpenRecorded(h: History, before: Table, after: Table): History {
    if |after.targets| == |before.targets| + 1 then
      h.(target := Some(|before.targets|), first := after.targets[|before.targets|].written)
    else h
  }

  function SendRecorded(h: History, chunk: Str, env: Env): History {
    if h.copies == [] then h
    else if env.writeOk then
      h.(copies := Last(h.copies, h.copies[|h.copies| - 1] + 1), landed := h.landed + 1)
    else h.(tail := chunk[..Min(env.writeCut, |chunk|)])
  }

  function RecvRecorded(h: History, payload: Str, sealed: bool): History {
    h.(payloads := h.payloads + [payload], fates := h.fates + [if sealed then InResponse else Lost])
  }

  /** The agent has read the response: a payload goes on to the client. */
  function Received(p: Params, t: Tunnel): Tunnel
    requires t.core.agent.phase.Busy? && t.stage.Answered?
  {
    var passed := t.Busy(ActRecv) && t.stage.plain != "" && t.h.fates != [];
    var h := if passed then t.h.(fates := Last(t.h.fates, InWrite)) else t.h;
    After(t.(h := h), Answer(t.core, t.stage.plain, p.reuse))
  }

  /** An attempt failed: whatever the server had answered is gone with the connection. */
  function Failed(t: Tunnel, c: Core): Tunnel {
    var lost := t.h.fates != [] && t.h.fates[|t.h.fates| - 1] == InResponse;
    var h := t.h.(faults := t.h.faults + 1, fates := if lost then Last(t.h.fates, Lost) else t.h.fates);
    After(t.(h := h), c)
  }

  function ReadBegun(t: Tunnel): Tunnel
    requires t.core.agent.read.ReadReady? || t.core.agent.read.ReadFailed?
  {
    var h := if t.core.agent.read.ReadReady? then
               t.h.(chunks := t.h.chunks + [t.core.agent.read.chunk], copies := t.h.copies + [0])
             else t.h;
    After(t.(h := h), RunRead(t.core))
  }

  function WriteEnded(t: Tunnel, ok: bool): Tunnel
    requires t.core.agent.write.Writing?
  {
    var fate := if ok then Delivered else Cut(t.core.agent.write.sent);
    var h := if t.core.agent.started && t.h.fates != [] then t.h.(fates := Last(t.h.fates, fate)) else t.h;
    t.(core := t.core.(agent := t.core.agent.(write := WriteDone(ok))), h := h)
  }

  function Progressed(t: Tunnel, k: nat): Tunnel
    requires t.core.agent.write.Writing? && k <= |t.core.agent.write.data| - t.core.agent.write.sent
  {
    var w := t.core.agent.write;
    var piece := w.data[w.sent..w.sent + k];
    t.(core := t.core.(agent := t.core.agent.(write := Writing(w.data, w.sent + k))),
       h := t.h.(toClient := if t.core.agent.started then t.h.toClient + piece else t.h.toClient))
  }

  function Step(p: Params, t: Tunnel, e: Event): Tunnel
    requires Enabled(p, t, e)
  {
    var a := t.core.agent;
    match e
    case Delivers(chunk) => t.(core := t.core.(agent := a.(read := ReadReady(chunk))))
    case Ends => t.(core := t.core.(agent := a.(read := ReadFailed)))
    case Expires => t.(core := t.core.(agent := a.(timer := TimerFired(false))))
    case Progress(k) => Progressed(t, k)
    case WriteEnds(ok) => WriteEnded(t, ok)
    case Emits(id, data) =>
      var target := t.core.table.targets[id];
      t.(core := t.core.(table :=
        t.core.table.With(id, target.(unread := target.unread + data, emitted := target.emitted + data))))
    case Other(session, action, message, env) =>
      t.(core := t.core.(table := Apply(p.config, t.core.table, session, action, message, env).table))
    case Transmit => t.(core := t.core.(connOpen := true), stage := Waiting)
    case SealFails => Failed(t, FailToSeal(t.core, p.reuse))
    case Fails => Failed(t, Fail(t.core, p.reuse))
    case Serve(env, sealed) => Served(p, t, env, sealed)
    case Receive => Received(p, t)
    case ReadHandler => ReadBegun(t)
    case TimerHandler => After(t, RunTimer(t.core))
    case WriteHandler => After(t, RunWrite(t.core, p.reuse))
  }

  /** A client's CONNECT in the agent's hands; the server may already hold other sessions. */
  function Start(p: Params, table: Table): Tunnel {
    Tunnel(Initial(p.Raw(), table), Prepare,
           History([ActOpen], None, None, "", [], [], 0, "", [], [], "", 0))
  }

  predicate IsRun(p: Params, t: Tunnel, events: seq<Event>)
    decreases events
  {
    events == [] || (Enabled(p, t, events[0]) && IsRun(p, Step(p, t, events[0]), events[1..]))
  }

  function Run(p: Params, t: Tunnel, events: seq<Event>): Tunnel
    requires IsRun(p, t, events)
    decreases events
  {
    if events == [] then t else Run(p, Step(p, t, events[0]), events[1..])
  }
}
