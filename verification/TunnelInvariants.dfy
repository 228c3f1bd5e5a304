/** What every step of the polled tunnel keeps. */
module TunnelInvariants {
  import opened AgentLoop
  import opened Bytes
  import opened Dial
  import opened HexCodec
  import opened HttpRequest
  import opened PolledTunnel
  import opened Server
  import opened Wire

  // ----- the agent's flags -----------------------------------------------------------------------

  lemma AgentStep(p: Params, t: Tunnel, e: Event)
    requires AgentInv(t.core.agent) && Enabled(p, t, e)
    ensures AgentInv(Step(p, t, e).core.agent)
  {
    match e
    case ReadHandler => RunReadKeeps(t.core);
    case TimerHandler => RunTimerKeeps(t.core);
    case WriteHandler => RunWriteKeeps(t.core, p.reuse);
    case Receive => AttemptsKeep(t.core, t.stage.plain, p.reuse);
    case SealFails => AttemptsKeep(t.core, "", p.reuse);
    case Fails => AttemptsKeep(t.core, "", p.reuse);
    case _ =>
  }

  // ----- the session's entry ------------------------------------------------------------------------

  /** The table is sound, and the session's entry is the target its open dialled: nobody
      else's, and shut once the entry is gone. */
  ghost predicate Ours(p: Params, t: Tunnel) {
    var table := t.core.table;
    && table.Valid()
    && (t.h.target.None? ==> p.session !in table.sessions)
    && (t.h.target.Some? ==> OursAt(p, table, t.h.target.value))
    && (t.Busy(ActOpen) && !t.stage.Answered? ==> t.h.target.None?)
    && (t.Busy(ActOpen) ==> t.core.agent.phase.post.body == p.Raw())
  }

  ghost predicate OursAt(p: Params, table: Table, id: nat) {
    && id < |table.targets|
    && (forall s :: s in table.sessions && table.sessions[s] == id ==> s == p.session)
    && (p.session in table.sessions ==> table.sessions[p.session] == id)
    && (p.session !in table.sessions ==> !table.targets[id].open)
  }

  lemma NamesDiffer()
    ensures OPEN != SEND && OPEN != RECV && OPEN != CLOSE && SEND != RECV && SEND != CLOSE && RECV != CLOSE
  {
  }

  /** What the server does with each of the agent's four actions. */
  lemma OpenEffect(p: Params, table: Table, env: Env)
    requires p.Valid()
    ensures Apply(p.config, table, p.session, OPEN, Hex(p.Raw()), env)
            == Open(p.config, table, p.session, Destination(p.target), p.early, env)
  {
    NamesDiffer();
    ForwardOfConnect(p.config, table, p.session, p.lines, p.target, p.early, env);
  }

  lemma SendEffect(p: Params, table: Table, chunk: Str, env: Env)
    requires table.Valid()
    ensures
      var eff := Apply(p.config, table, p.session, SEND, Hex(chunk), env);
      && eff.reply == Empty(p.config)
      && eff.table == if !table.Live(p.session) then table else
           var id := table.sessions[p.session];
           table.With(id, WriteTo(table.targets[id], chunk, env))
  {
    HexToAsciiInvertsHex(chunk);
    hide HexToAscii, Hex;
  }

  lemma RecvEffect(p: Params, table: Table, message: Str, env: Env)
    ensures Apply(p.config, table, p.session, RECV, message, env) == Server.Recv(p.config, table, p.session, env)
  {
    NamesDiffer();
  }

  lemma CloseEffect(p: Params, table: Table, message: Str, env: Env)
    ensures Apply(p.config, table, p.session, CLOSE, message, env) == Server.Close(p.config, table, p.session)
  {
    NamesDiffer();
  }

  lemma OtherKeepsOurs(p: Params, t: Tunnel, session: Str, action: Str, message: Str, env: Env)
    requires Ours(p, t) && session != p.session && KeyOf(session, env) != p.session
    ensures
      var after := Apply(p.config, t.core.table, session, action, message, env).table;
      && after.Valid()
      && (t.h.target.None? ==> p.session !in after.sessions)
      && (t.h.target.Some? ==> OursAt(p, after, t.h.target.value))
      && (t.h.target.Some? ==> after.targets[t.h.target.value] == t.core.table.targets[t.h.target.value])
  {
    ActionIsIsolated(p.config, t.core.table, session, action, message, env, p.session);
    if t.h.target.Some? {
      OtherKeepsTarget(p, t.core.table, session, action, message, env, t.h.target.value);
    }
  }

  /** Another session's action leaves our target as it was, even after our entry is gone. */
  lemma OtherKeepsTarget(p: Params, table: Table, session: Str, action: Str, message: Str, env: Env, id: nat)
    requires table.Valid() && OursAt(p, table, id) && session != p.session && KeyOf(session, env) != p.session
    ensures
      var after := Apply(p.config, table, session, action, message, env).table;
      && OursAt(p, after, id) && after.targets[id] == table.targets[id]
  {
    ActionIsIsolated(p.config, table, session, action, message, env, p.session);
    if action != SEND && action != RECV && action != CLOSE {
      ForwardShape(p.config, table, session, message, env);
    }
    hide Forward;
  }

  function Faulted(h: History, sealed: bool): History {
    h.(faults := h.faults + if sealed then 0 else 1)
  }

  function AnswerTo(reply: Reply, sealed: bool): Stage {
    Answered(if sealed && reply.Reply? then reply.plain else "")
  }

  /** Serving, action by action. */
  lemma ServedOpen(p: Params, t: Tunnel, env: Env, sealed: bool)
    requires p.Valid() && t.Busy(ActOpen) && t.core.agent.phase.post.body == p.Raw()
    ensures
      var eff := Server.Open(p.config, t.core.table, p.session, Destination(p.target), p.early, env);
      Served(p, t, env, sealed) ==
      Tunnel(t.core.(table := eff.table), AnswerTo(eff.reply, sealed),
             OpenRecorded(Faulted(t.h, sealed), t.core.table, eff.table))
  {
    hide Apply, Server.Open, Destination, OpenRecorded, Params.Raw, Params.Valid;
    OpenEffect(p, t.core.table, env);
  }

  lemma ServedSend(p: Params, t: Tunnel, env: Env, sealed: bool)
    requires t.Busy(ActSend) && t.core.table.Valid()
    ensures
      var table, chunk, h := t.core.table, t.core.agent.phase.post.body, Faulted(t.h, sealed);
      Served(p, t, env, sealed) ==
      if !table.Live(p.session) then Tunnel(t.core, AnswerTo(Empty(p.config), sealed), h)
      else
        var id := table.sessions[p.session];
        Tunnel(t.core.(table := table.With(id, WriteTo(table.targets[id], chunk, env))),
               AnswerTo(Empty(p.config), sealed), SendRecorded(h, chunk, env))
  {
    hide Apply, SendRecorded, WriteTo, Hex;
    SendEffect(p, t.core.table, t.core.agent.phase.post.body, env);
  }

  lemma ServedRecv(p: Params, t: Tunnel, env: Env, sealed: bool)
    requires t.Busy(ActRecv)
    ensures
      var eff, h := Server.Recv(p.config, t.core.table, p.session, env), Faulted(t.h, sealed);
      Served(p, t, env, sealed) ==
      Tunnel(t.core.(table := eff.table), AnswerTo(eff.reply, sealed),
             if eff.reply.Reply? && eff.reply.plain != "" then RecvRecorded(h, eff.reply.plain, sealed) else h)
  {
    hide Apply, Server.Recv, RecvRecorded, Hex;
    RecvEffect(p, t.core.table, Hex(t.core.agent.phase.post.body), env);
  }

  lemma ServedClose(p: Params, t: Tunnel, env: Env, sealed: bool)
    requires t.Busy(ActClose)
    ensures
      var eff := Server.Close(p.config, t.core.table, p.session);
      Served(p, t, env, sealed) ==
      Tunnel(t.core.(table := eff.table), AnswerTo(eff.reply, sealed), Faulted(t.h, sealed))
  {
    hide Apply, Server.Close, Hex;
    CloseEffect(p, t.core.table, Hex(t.core.agent.phase.post.body), env);
  }

  /** Serving one of our own actions keeps the entry ours. */
  lemma ServeKeepsOurs(p: Params, t: Tunnel, env: Env, sealed: bool)
    requires p.Valid() && AgentInv(t.core.agent) && Ours(p, t) && Enabled(p, t, Serve(env, sealed))
    ensures Ours(p, Served(p, t, env, sealed))
  {
    hide Served, Server.Open, Server.Close, Server.Recv, WriteTo, OursAt, AgentInv, Params.Valid, Params.Raw;
    match t.core.agent.phase.post.action
    case ActOpen => ServedOpen(p, t, env, sealed); OpenKeepsOurs(p, t, env, sealed);
    case ActSend => ServedSend(p, t, env, sealed); SendKeepsOurs(p, t, t.core.agent.phase.post.body, env);
    case ActRecv => ServedRecv(p, t, env, sealed); RecvKeepsOurs(p, t, env);
    case ActClose => ServedClose(p, t, env, sealed); CloseKeepsOurs(p, t);
  }

  lemma OpenKeepsOurs(p: Params, t: Tunnel, env: Env, sealed: bool)
    requires p.Valid() && Ours(p, t) && t.h.target.None?
    ensures
      var after := Server.Open(p.config, t.core.table, p.session, Destination(p.target), p.early, env).table;
      var h := OpenRecorded(Faulted(t.h, sealed), t.core.table, after);
      && after.Valid()
      && (h.target.None? ==> p.session !in after.sessions)
      && (h.target.Some? ==> OursAt(p, after, h.target.value))
  {
  }

  lemma SendKeepsOurs(p: Params, t: Tunnel, chunk: Str, env: Env)
    requires Ours(p, t)
    ensures
      var table := t.core.table;
      var after := if !table.Live(p.session) then table else
        var id := table.sessions[p.session]; table.With(id, WriteTo(table.targets[id], chunk, env));
      after.Valid() && (t.h.target.Some? ==> OursAt(p, after, t.h.target.value)) && after.sessions == table.sessions
  {
  }

  lemma RecvKeepsOurs(p: Params, t: Tunnel, env: Env)
    requires Ours(p, t)
    ensures
      var after := Server.Recv(p.config, t.core.table, p.session, env).table;
      && after.Valid() && after.sessions == t.core.table.sessions
      && (t.h.target.Some? ==> OursAt(p, after, t.h.target.value))
  {
  }

  lemma CloseKeepsOurs(p: Params, t: Tunnel)
    requires Ours(p, t)
    ensures
      var after := Server.Close(p.config, t.core.table, p.session).table;
      && after.Valid() && p.session !in after.sessions
      && (t.h.target.Some? ==> OursAt(p, after, t.h.target.value))
  {
  }

  lemma OursStep(p: Params, t: Tunnel, e: Event)
    requires p.Valid() && AgentInv(t.core.agent) && Ours(p, t) && Enabled(p, t, e)
    ensures Ours(p, Step(p, t, e))
  {
    match e
    case Serve(env, sealed) => ServeKeepsOurs(p, t, env, sealed);
    case Other(session, action, message, env) => OtherStepKeepsOurs(p, t, e);
    case Emits(_, _) =>
    case _ => QuietStepKeepsOurs(p, t, e);
  }

  lemma OtherStepKeepsOurs(p: Params, t: Tunnel, e: Event)
    requires Ours(p, t) && e.Other? && Enabled(p, t, e)
    ensures Ours(p, Step(p, t, e))
  {
    hide Apply;
    OtherKeepsOurs(p, t, e.session, e.action, e.message, e.otherEnv);
  }

  /** Every other step leaves the table and the target alone. */
  lemma QuietStep(p: Params, t: Tunnel, e: Event)
    requires Enabled(p, t, e) && !e.Serve? && !e.Other? && !e.Emits?
    ensures Step(p, t, e).core.table == t.core.table && Step(p, t, e).h.target == t.h.target
  {
  }

  lemma QuietStepKeepsOurs(p: Params, t: Tunnel, e: Event)
    requires AgentInv(t.core.agent) && Ours(p, t) && Enabled(p, t, e) && !e.Serve? && !e.Other? && !e.Emits?
    ensures Ours(p, Step(p, t, e))
  {
    hide OursAt, Apply, Served;
    QuietStep(p, t, e);
  }

  // ----- the way up --------------------------------------------------------------------------------------

  function Repeat(s: Str, n: nat): Str {
    if n == 0 then "" else Repeat(s, n - 1) + s
  }

  /** Each chunk as often as it was written, in order. */
  function Spread(chunks: seq<Str>, copies: seq<nat>): Str
    requires |chunks| == |copies|
  {
    if chunks == [] then ""
    else Spread(chunks[..|chunks| - 1], copies[..|copies| - 1]) + Repeat(chunks[|chunks| - 1], copies[|copies| - 1])
  }

  function Bound(p: Params): nat {
    if p.reuse then 2 else 1
  }

  predicate AllZero(copies: seq<nat>) {
    forall i :: 0 <= i < |copies| ==> copies[i] == 0
  }

  /** How often the chunk now being sent may have been written. */
  function Tries(t: Tunnel): nat
    requires AgentInv(t.core.agent) && t.Busy(ActSend)
  {
    if t.stage.Answered? then t.core.agent.phase.attempt else t.core.agent.phase.attempt - 1
  }

  /** The destination has been given the early data, then every chunk so often as recorded, at
      most `Bound` times and adjacent, and then at most a torn piece before it was shut. */
  ghost predicate Uplink(p: Params, t: Tunnel)
    requires AgentInv(t.core.agent) && Ours(p, t)
  {
    var h := t.h;
    && |h.chunks| == |h.copies|
    && (forall i :: 0 <= i < |h.copies| ==> h.copies[i] <= Bound(p))
    && (t.core.agent.phase.Busy? && t.core.agent.phase.attempt == 2 ==> p.reuse)
    && (t.Busy(ActSend) ==>
          h.chunks != [] && h.chunks[|h.chunks| - 1] == t.core.agent.phase.post.body
          && h.copies[|h.copies| - 1] <= Tries(t))
    && (h.target.None? ==> AllZero(h.copies) && h.tail == "" && h.first == "")
    && (h.target.Some? ==> Given(p, h, t.core.table.targets[h.target.value]))
  }

  ghost predicate Given(p: Params, h: History, d: Target)
    requires |h.chunks| == |h.copies|
  {
    && d.written == h.first + Spread(h.chunks, h.copies) + h.tail
    && (h.first == p.early || (h.first <= p.early && !d.open && h.tail == "" && AllZero(h.copies)))
    && (h.tail != "" ==> !d.open)
  }

  lemma {:induction false} SpreadNothing(chunks: seq<Str>, copies: seq<nat>)
    requires |chunks| == |copies| && AllZero(copies)
    ensures Spread(chunks, copies) == ""
  {
    if chunks != [] {
      SpreadNothing(chunks[..|chunks| - 1], copies[..|copies| - 1]);
    }
  }

  /** A chunk not yet written adds nothing; writing the last chunk once more appends it. */
  lemma SpreadGrows(chunks: seq<Str>, copies: seq<nat>, chunk: Str)
    requires |chunks| == |copies|
    ensures Spread(chunks + [chunk], copies + [0]) == Spread(chunks, copies)
    ensures chunks != [] ==>
              Spread(chunks, Last(copies, copies[|copies| - 1] + 1)) == Spread(chunks, copies) + chunks[|chunks| - 1]
  {
    hide Repeat;
    SpreadAppend(chunks, copies, chunk);
    if chunks != [] {
      SpreadLast(chunks, copies);
    }
  }

  lemma SpreadAppend(chunks: seq<Str>, copies: seq<nat>, chunk: Str)
    requires |chunks| == |copies|
    ensures Spread(chunks + [chunk], copies + [0]) == Spread(chunks, copies)
  {
    assert (chunks + [chunk])[..|chunks|] == chunks && (copies + [0])[..|copies|] == copies;
  }

  lemma SpreadLast(chunks: seq<Str>, copies: seq<nat>)
    requires |chunks| == |copies| && chunks != []
    ensures Spread(chunks, Last(copies, copies[|copies| - 1] + 1)) == Spread(chunks, copies) + chunks[|chunks| - 1]
  {
    var n := copies[|copies| - 1];
    var more := Last(copies, n + 1);
    assert more[..|more| - 1] == copies[..|copies| - 1];
  }

  lemma ServeSendKeepsUplink(p: Params, t: Tunnel, env: Env, sealed: bool)
    requires p.Valid() && AgentInv(t.core.agent) && Ours(p, t) && Uplink(p, t)
    requires Enabled(p, t, Serve(env, sealed)) && t.Busy(ActSend)
    ensures Ours(p, Served(p, t, env, sealed)) && Uplink(p, Served(p, t, env, sealed))
  {
    hide Served, OursAt, Params.Valid, WriteTo, Given;
    var table, chunk, h := t.core.table, t.core.agent.phase.post.body, Faulted(t.h, sealed);
    ServeKeepsOurs(p, t, env, sealed);
    ServedSend(p, t, env, sealed);
    GivenIgnoresFaults(p, t, sealed);
    if t.h.target.Some? { OursInRange(p, t); }
    if table.Live(p.session) {
      OursIsTarget(p, t);
      WriteKeepsGiven(p, h, table.targets[table.sessions[p.session]], chunk, env);
    }
  }

  lemma OursInRange(p: Params, t: Tunnel)
    requires Ours(p, t) && t.h.target.Some?
    ensures t.h.target.value < |t.core.table.targets|
  {
  }

  lemma OursIsTarget(p: Params, t: Tunnel)
    requires Ours(p, t) && p.session in t.core.table.sessions
    ensures t.h.target == Some(t.core.table.sessions[p.session])
  {
  }

  lemma GivenIgnoresFaults(p: Params, t: Tunnel, sealed: bool)
    requires |t.h.chunks| == |t.h.copies|
    ensures forall d: Target :: Given(p, Faulted(t.h, sealed), d) == Given(p, t.h, d)
  {
  }

  lemma WriteKeepsGiven(p: Params, h: History, d: Target, chunk: Str, env: Env)
    requires |h.chunks| == |h.copies| && Given(p, h, d) && d.open
    requires h.chunks != [] && h.chunks[|h.chunks| - 1] == chunk != ""
    ensures Given(p, SendRecorded(h, chunk, env), WriteTo(d, chunk, env))
    ensures |SendRecorded(h, chunk, env).copies| == |h.copies|
  {
    SpreadGrows(h.chunks, h.copies, chunk);
    hide Spread;
  }

  lemma ServeOpenKeepsUplink(p: Params, t: Tunnel, env: Env, sealed: bool)
    requires p.Valid() && AgentInv(t.core.agent) && Ours(p, t) && Uplink(p, t)
    requires Enabled(p, t, Serve(env, sealed)) && t.Busy(ActOpen)
    ensures Ours(p, Served(p, t, env, sealed)) && Uplink(p, Served(p, t, env, sealed))
  {
    hide Served, Params.Valid, Params.Raw;
    ServeKeepsOurs(p, t, env, sealed);
    ServedOpen(p, t, env, sealed);
    SpreadNothing(t.h.chunks, t.h.copies);
  }

  lemma ServeRecvKeepsUplink(p: Params, t: Tunnel, env: Env, sealed: bool)
    requires p.Valid() && AgentInv(t.core.agent) && Ours(p, t) && Uplink(p, t)
    requires Enabled(p, t, Serve(env, sealed)) && t.Busy(ActRecv)
    ensures Ours(p, Served(p, t, env, sealed)) && Uplink(p, Served(p, t, env, sealed))
  {
    hide Served, Params.Valid, Params.Raw, Spread;
    ServeKeepsOurs(p, t, env, sealed);
    ServedRecv(p, t, env, sealed);
  }

  lemma ServeCloseKeepsUplink(p: Params, t: Tunnel, env: Env, sealed: bool)
    requires p.Valid() && AgentInv(t.core.agent) && Ours(p, t) && Uplink(p, t)
    requires Enabled(p, t, Serve(env, sealed)) && t.Busy(ActClose)
    ensures Ours(p, Served(p, t, env, sealed)) && Uplink(p, Served(p, t, env, sealed))
  {
    hide Served, Params.Valid, Params.Raw, Spread;
    ServeKeepsOurs(p, t, env, sealed);
    ServedClose(p, t, env, sealed);
  }

  lemma UplinkStep(p: Params, t: Tunnel, e: Event)
    requires p.Valid() && AgentInv(t.core.agent) && Ours(p, t) && Uplink(p, t) && Enabled(p, t, e)
    ensures AgentInv(Step(p, t, e).core.agent) && Ours(p, Step(p, t, e)) && Uplink(p, Step(p, t, e))
  {
    hide AgentInv, Ours, Uplink, Enabled;
    AgentStep(p, t, e);
    OursStep(p, t, e);
    match e
    case Serve(env, sealed) => ServeKeepsUplink(p, t, env, sealed);
    case Other(session, action, message, env) => TableStepKeepsUplink(p, t, e);
    case Emits(_, _) => TableStepKeepsUplink(p, t, e);
    case _ => QuietStepKeepsUplink(p, t, e);
  }

  lemma ServeKeepsUplink(p: Params, t: Tunnel, env: Env, sealed: bool)
    requires p.Valid() && AgentInv(t.core.agent) && Ours(p, t) && Uplink(p, t) && Enabled(p, t, Serve(env, sealed))
    ensures Ours(p, Served(p, t, env, sealed)) && Served(p, t, env, sealed).core.agent == t.core.agent
    ensures Uplink(p, Served(p, t, env, sealed))
  {
    hide Params.Valid, Params.Raw, Ours, Uplink, AgentInv, Apply;
    match t.core.agent.phase.post.action {
      case ActOpen => ServeOpenKeepsUplink(p, t, env, sealed);
      case ActSend => ServeSendKeepsUplink(p, t, env, sealed);
      case ActRecv => ServeRecvKeepsUplink(p, t, env, sealed);
      case ActClose => ServeCloseKeepsUplink(p, t, env, sealed);
    }
  }

  lemma TableStepKeepsUplink(p: Params, t: Tunnel, e: Event)
    requires AgentInv(t.core.agent) && Ours(p, t) && Uplink(p, t) && Enabled(p, t, e) && (e.Other? || e.Emits?)
    requires AgentInv(Step(p, t, e).core.agent) && Ours(p, Step(p, t, e))
    ensures Uplink(p, Step(p, t, e))
  {
    hide Apply, Spread, AgentInv;
    if e.Other? {
      OtherKeepsOurs(p, t, e.session, e.action, e.message, e.otherEnv);
    }
  }

  predicate Outside(e: Event) {
    e.Delivers? || e.Ends? || e.Expires? || e.Progress? || e.WriteEnds? || e.Transmit?
  }

  predicate Attempt(e: Event) {
    e.SealFails? || e.Fails? || e.Receive?
  }

  predicate Handler(e: Event) {
    e.ReadHandler? || e.TimerHandler? || e.WriteHandler?
  }

  lemma QuietStepKeepsUplink(p: Params, t: Tunnel, e: Event)
    requires AgentInv(t.core.agent) && Ours(p, t) && Uplink(p, t) && Enabled(p, t, e)
    requires !e.Serve? && !e.Other? && !e.Emits?
    requires AgentInv(Step(p, t, e).core.agent) && Ours(p, Step(p, t, e))
    ensures Uplink(p, Step(p, t, e))
  {
    hide AgentInv, Ours, Uplink, Step, Enabled;
    if Outside(e) {
      OutsideKeepsUplink(p, t, e);
    } else if Attempt(e) {
      AttemptKeepsUplink(p, t, e);
    } else {
      HandlerKeepsUplink(p, t, e);
    }
  }

  /** The uplink only depends on these parts of the state. */
  predicate SameUplink(t: Tunnel, n: Tunnel) {
    && n.core.table == t.core.table && n.h.target == t.h.target && n.h.first == t.h.first
    && n.h.chunks == t.h.chunks && n.h.copies == t.h.copies && n.h.tail == t.h.tail
  }

  lemma OutsideSameUplink(p: Params, t: Tunnel, e: Event)
    requires Enabled(p, t, e) && Outside(e)
    ensures SameUplink(t, Step(p, t, e))
    ensures Step(p, t, e).core.agent.phase == t.core.agent.phase
    ensures Step(p, t, e).stage == t.stage || (t.stage == Prepare && Step(p, t, e).stage == Waiting)
  {
  }

  lemma OutsideKeepsUplink(p: Params, t: Tunnel, e: Event)
    requires AgentInv(t.core.agent) && Ours(p, t) && Uplink(p, t) && Enabled(p, t, e) && Outside(e)
    requires AgentInv(Step(p, t, e).core.agent) && Ours(p, Step(p, t, e))
    ensures Uplink(p, Step(p, t, e))
  {
    hide AgentInv, OursAt, Step, Spread, Enabled, Outside;
    OutsideSameUplink(p, t, e);
  }

  lemma AttemptSameUplink(p: Params, t: Tunnel, e: Event)
    requires Enabled(p, t, e) && Attempt(e)
    ensures SameUplink(t, Step(p, t, e))
    ensures Step(p, t, e).core.agent.phase == Idle ||
            (p.reuse && t.core.agent.phase.attempt == 1 && Step(p, t, e).stage == Prepare
             && Step(p, t, e).core.agent.phase == AgentLoop.Phase.Busy(t.core.agent.phase.post, 2))
  {
    hide Return, Fail, FailToSeal, Answer, Served, Apply;
  }

  lemma AttemptKeepsUplink(p: Params, t: Tunnel, e: Event)
    requires AgentInv(t.core.agent) && Ours(p, t) && Uplink(p, t) && Enabled(p, t, e) && Attempt(e)
    requires AgentInv(Step(p, t, e).core.agent) && Ours(p, Step(p, t, e))
    ensures Uplink(p, Step(p, t, e))
  {
    hide AgentInv, OursAt, Step, Spread;
    AttemptSameUplink(p, t, e);
  }

  lemma HandlerSameUplink(p: Params, t: Tunnel, e: Event)
    requires Enabled(p, t, e) && Handler(e) && !(e.ReadHandler? && t.core.agent.read.ReadReady?)
    ensures SameUplink(t, Step(p, t, e))
    ensures Step(p, t, e).core.agent.phase == Idle ||
            (Step(p, t, e).stage == Prepare && Step(p, t, e).core.agent.phase.attempt == 1
             && Step(p, t, e).core.agent.phase.post.action != ActSend)
  {
  }

  lemma ReadHandlerUplink(p: Params, t: Tunnel)
    requires Enabled(p, t, ReadHandler) && t.core.agent.read.ReadReady?
    ensures
      var n := Step(p, t, ReadHandler);
      var chunk := t.core.agent.read.chunk;
      && n.core.table == t.core.table && n.h.target == t.h.target && n.h.first == t.h.first && n.h.tail == t.h.tail
      && n.h.chunks == t.h.chunks + [chunk] && n.h.copies == t.h.copies + [0]
      && n.stage == Prepare && n.core.agent.phase == AgentLoop.Phase.Busy(Post(ActSend, chunk), 1)
  {
  }

  lemma HandlerKeepsUplink(p: Params, t: Tunnel, e: Event)
    requires AgentInv(t.core.agent) && Ours(p, t) && Uplink(p, t) && Enabled(p, t, e) && Handler(e)
    requires AgentInv(Step(p, t, e).core.agent) && Ours(p, Step(p, t, e))
    ensures Uplink(p, Step(p, t, e))
  {
    hide AgentInv, OursAt, Step, Spread;
    if e.ReadHandler? && t.core.agent.read.ReadReady? {
      ReadHandlerUplink(p, t);
      SpreadGrows(t.h.chunks, t.h.copies, t.core.agent.read.chunk);
    } else {
      HandlerSameUplink(p, t, e);
    }
  }
}
