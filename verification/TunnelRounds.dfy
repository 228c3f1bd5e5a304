/** What the polled tunnel does when nothing goes wrong: every exchange of bytes can be carried
    through, chunk by chunk and poll by poll, from every start, and then be closed. */
module TunnelRounds {
  import opened AgentLoop
  import opened Bytes
  import opened PolledTunnel
  import opened Server
  import opened TunnelInvariants
  import opened TunnelRetry
  import opened TunnelUplink

  /** The session's destination. */
  function TargetId(p: Params, t: Tunnel): nat
    requires Attended(p, t)
  {
    t.core.table.sessions[p.session]
  }

  // ----- a poll -----------------------------------------------------------------------------------------

  /** The network hands over `n` bytes on one read. */
  function Reading(n: nat): Env {
    Env(true, true, 0, n, n, "", "", false, "")
  }

  function PollRound(id: nat, data: Str): seq<Event> {
    [ Emits(id, data), Expires, TimerHandler, Transmit, Serve(Reading(|data|), true),
      Receive, Progress(|data|), WriteEnds(true), WriteHandler ]
  }

  /** A poll is on the wire, and the destination's data waits at the server. */
  predicate PollSent(p: Params, t: Tunnel, data: Str) {
    && t.core.table.Live(p.session) && t.h.target == Some(t.core.table.sessions[p.session])
    && t.core.table.targets[t.core.table.sessions[p.session]].unread == data
    && t.stage == Waiting
    && t.core.agent == Agent(AgentLoop.Phase.Busy(Post(ActRecv, ""), 1), ReadArmed, TimerOff, NoWrite,
                             true, false, false, true, false)
  }

  /** The agent writes nothing to either side on its way there. */
  predicate SameBytes(t: Tunnel, n: Tunnel) {
    Written(n) == Written(t) && n.h.toClient == t.h.toClient && n.h.faults == t.h.faults
  }

  lemma PollIsPosted(p: Params, t: Tunnel, data: Str)
    requires AtRest(p, t)
    ensures
      && Enabled(p, t, Emits(TargetId(p, t), data))
      && var t1 := Step(p, t, Emits(TargetId(p, t), data));
      && Enabled(p, t1, Expires)
      && var t2 := Step(p, t1, Expires);
      && Enabled(p, t2, TimerHandler)
      && var t3 := Step(p, t2, TimerHandler);
      && Enabled(p, t3, Transmit)
      && var t4 := Step(p, t3, Transmit);
      PollSent(p, t4, data) && SameBytes(t, t4)
  {
    hide Apply, Served;
    var id := TargetId(p, t);
    assert t.core.table.targets[id].unread + data == data;
  }

  /** The poll is answered with all of it. */
  lemma PollIsServed(p: Params, t: Tunnel, data: Str)
    requires PollSent(p, t, data) && 1 <= |data| <= p.config.bufferSize
    ensures Enabled(p, t, Serve(Reading(|data|), true))
    ensures
      var n := Step(p, t, Serve(Reading(|data|), true));
      && Attended(p, n) && n.stage == Answered(data) && n.core.agent == t.core.agent && n.h.fates != []
      && SameBytes(t, n)
  {
    hide Served;
    ServedRecv(p, t, Reading(|data|), true);
    assert data[..|data|] == data && data[|data|..] == "";
  }

  /** The payload is passed on to the client. */
  predicate Passing(p: Params, t: Tunnel, data: Str) {
    && Attended(p, t) && t.stage == Prepare && t.h.fates != []
    && t.core.agent == Agent(Idle, ReadArmed, TimerOff, Writing(data, 0), true, false, false, true, false)
  }

  lemma PayloadIsPassedOn(p: Params, t: Tunnel, data: Str)
    requires Attended(p, t) && t.stage == Answered(data) && data != "" && t.h.fates != []
    requires t.core.agent == Agent(AgentLoop.Phase.Busy(Post(ActRecv, ""), 1), ReadArmed, TimerOff, NoWrite,
                                   true, false, false, true, false)
    ensures Enabled(p, t, Receive) && Passing(p, Step(p, t, Receive), data) && SameBytes(t, Step(p, t, Receive))
  {
    hide Apply, Served;
  }

  /** The client takes it, and the next poll is armed. */
  lemma PayloadReachesClient(p: Params, t: Tunnel, data: Str)
    requires Passing(p, t, data)
    ensures
      && Enabled(p, t, Progress(|data|))
      && var t1 := Step(p, t, Progress(|data|));
      && Enabled(p, t1, WriteEnds(true))
      && var t2 := Step(p, t1, WriteEnds(true));
      && Enabled(p, t2, WriteHandler)
      && var n := Step(p, t2, WriteHandler);
      && AtRest(p, n) && Written(n) == Written(t) && n.h.toClient == t.h.toClient + data && n.h.faults == t.h.faults
  {
    hide Apply, Served;
    assert data[0..|data|] == data;
  }

  /** A poll carries whatever the destination sent, up to the buffer size, to the client. */
  lemma PollCarries(p: Params, t: Tunnel, data: Str)
    requires AtRest(p, t) && 1 <= |data| <= p.config.bufferSize
    ensures IsRun(p, t, PollRound(TargetId(p, t), data))
    ensures
      var n := Run(p, t, PollRound(TargetId(p, t), data));
      && AtRest(p, n) && Written(n) == Written(t) && n.h.toClient == t.h.toClient + data && n.h.faults == t.h.faults
  {
    hide Step, Enabled, IsRun, Run, AtRest, PollSent, Passing, Written;
    AtRestTarget(p, t);
    var id := TargetId(p, t);
    EmptyRun(p, t);
    PollIsPosted(p, t, data);
    var es := Extended(p, t, [], Emits(id, data));
    es := Extended(p, t, es, Expires);
    es := Extended(p, t, es, TimerHandler);
    es := Extended(p, t, es, Transmit);
    PollSentIs(p, Run(p, t, es), data);
    PollIsServed(p, Run(p, t, es), data);
    es := Extended(p, t, es, Serve(Reading(|data|), true));
    PayloadIsPassedOn(p, Run(p, t, es), data);
    es := Extended(p, t, es, Receive);
    PayloadReachesClient(p, Run(p, t, es), data);
    es := Extended(p, t, es, Progress(|data|));
    es := Extended(p, t, es, WriteEnds(true));
    es := Extended(p, t, es, WriteHandler);
    assert es == PollRound(id, data);
  }

  lemma EmptyRun(p: Params, t: Tunnel)
    ensures IsRun(p, t, []) && Run(p, t, []) == t
  {
  }

  lemma PollSentIs(p: Params, t: Tunnel, data: Str)
    requires PollSent(p, t, data)
    ensures t.core.agent == Agent(AgentLoop.Phase.Busy(Post(ActRecv, ""), 1), ReadArmed, TimerOff, NoWrite,
                                  true, false, false, true, false)
  {
  }

  // ----- a send -------------------------------------------------------------------------------------------

  function SendRound(chunk: Str): seq<Event> {
    [Delivers(chunk), ReadHandler, Transmit, Serve(GOOD, true), Receive]
  }

  predicate SendSent(p: Params, t: Tunnel, chunk: Str) {
    && Attended(p, t) && t.stage == Waiting && t.h.copies != []
    && t.core.agent == Agent(AgentLoop.Phase.Busy(Post(ActSend, chunk), 1), NoRead, TimerArmed, NoWrite,
                             true, false, true, true, false)
  }

  lemma SendIsPosted(p: Params, t: Tunnel, chunk: Str)
    requires AtRest(p, t) && 1 <= |chunk| <= BUFFER_SIZE
    ensures
      && Enabled(p, t, Delivers(chunk))
      && var t1 := Step(p, t, Delivers(chunk));
      && Enabled(p, t1, ReadHandler)
      && var t2 := Step(p, t1, ReadHandler);
      && Enabled(p, t2, Transmit)
      && var t3 := Step(p, t2, Transmit);
      SendSent(p, t3, chunk) && SameBytes(t, t3) && t3.core.table == t.core.table
  {
    hide Apply, Served;
  }

  lemma SendIsServed(p: Params, t: Tunnel, chunk: Str)
    requires SendSent(p, t, chunk) && chunk != "" && t.core.table.Valid()
    ensures Enabled(p, t, Serve(GOOD, true))
    ensures
      var t1 := Step(p, t, Serve(GOOD, true));
      && Enabled(p, t1, Receive)
      && var n := Step(p, t1, Receive);
      && AtRest(p, n) && Written(n) == Written(t) + chunk && n.h.toClient == t.h.toClient && n.h.faults == t.h.faults
  {
    hide Served;
    ServedSend(p, t, GOOD, true);
  }

  /** A send carries whatever the client sent in one read to the destination. */
  lemma SendCarries(p: Params, t: Tunnel, chunk: Str)
    requires AtRest(p, t) && t.core.table.Valid() && 1 <= |chunk| <= 65536
    ensures IsRun(p, t, SendRound(chunk))
    ensures
      var n := Run(p, t, SendRound(chunk));
      && AtRest(p, n) && Written(n) == Written(t) + chunk && n.h.toClient == t.h.toClient && n.h.faults == t.h.faults
  {
    hide Step, Enabled, IsRun, Run, AtRest, SendSent, Written, Table.Valid;
    EmptyRun(p, t);
    SendIsPosted(p, t, chunk);
    var es := Extended(p, t, [], Delivers(chunk));
    es := Extended(p, t, es, ReadHandler);
    es := Extended(p, t, es, Transmit);
    SendIsServed(p, Run(p, t, es), chunk);
    es := Extended(p, t, es, Serve(GOOD, true));
    es := Extended(p, t, es, Receive);
    assert es == SendRound(chunk);
  }

  // ----- any exchange -----------------------------------------------------------------------------------------

  /** A chunk from the client upwards, or data from the destination downwards. */
  datatype Job = Up(chunk: Str) | Down(data: Str)

  predicate Carriable(p: Params, job: Job) {
    match job
    case Up(chunk) => 1 <= |chunk| <= BUFFER_SIZE
    case Down(data) => 1 <= |data| <= p.config.bufferSize
  }

  function RoundOf(id: nat, job: Job): seq<Event> {
    match job case Up(chunk) => SendRound(chunk) case Down(data) => PollRound(id, data)
  }

  function Rounds(id: nat, jobs: seq<Job>): seq<Event> {
    if jobs == [] then [] else RoundOf(id, jobs[0]) + Rounds(id, jobs[1..])
  }

  function Ups(jobs: seq<Job>): Str {
    if jobs == [] then "" else (if jobs[0].Up? then jobs[0].chunk else "") + Ups(jobs[1..])
  }

  function Downs(jobs: seq<Job>): Str {
    if jobs == [] then "" else (if jobs[0].Down? then jobs[0].data else "") + Downs(jobs[1..])
  }

  lemma JobDone(p: Params, t: Tunnel, job: Job)
    requires p.Valid() && DownInv(p, t) && AtRest(p, t) && Carriable(p, job)
    ensures IsRun(p, t, RoundOf(TargetId(p, t), job))
    ensures
      var n := Run(p, t, RoundOf(TargetId(p, t), job));
      && DownInv(p, n) && AtRest(p, n) && TargetId(p, n) == TargetId(p, t) && n.h.faults == t.h.faults
      && Written(n) == Written(t) + (if job.Up? then job.chunk else "")
      && n.h.toClient == t.h.toClient + (if job.Down? then job.data else "")
  {
    hide Step, IsRun, Run, AtRest, Written, Params.Valid, AgentInv, SendRound, PollRound;
    assert Written(t) + "" == Written(t) && t.h.toClient + "" == t.h.toClient;
    AtRestTarget(p, t);
    match job {
      case Up(chunk) => SendCarries(p, t, chunk);
      case Down(data) => PollCarries(p, t, data);
    }
    DownInvRuns(p, t, RoundOf(TargetId(p, t), job));
    AtRestTarget(p, Run(p, t, RoundOf(TargetId(p, t), job)));
    TargetStays(p, t, RoundOf(TargetId(p, t), job));
  }

  /** The invariants a round needs. */
  ghost predicate DownInv(p: Params, t: Tunnel) {
    AgentInv(t.core.agent) && Ours(p, t)
  }

  lemma {:induction false} DownInvRuns(p: Params, t: Tunnel, events: seq<Event>)
    requires p.Valid() && DownInv(p, t) && IsRun(p, t, events)
    ensures DownInv(p, Run(p, t, events))
    decreases events
  {
    hide AgentInv, Ours, Step, Enabled, Params.Valid;
    if events != [] {
      AgentStep(p, t, events[0]);
      OursStep(p, t, events[0]);
      DownInvRuns(p, Step(p, t, events[0]), events[1..]);
    }
  }

  lemma AtRestTarget(p: Params, t: Tunnel)
    requires AtRest(p, t)
    ensures Attended(p, t) && t.h.target == Some(TargetId(p, t)) && t.core.agent.started
  {
  }

  /** The destination of a session is its destination for good. */
  lemma {:induction false} TargetStays(p: Params, t: Tunnel, events: seq<Event>)
    requires p.Valid() && DownInv(p, t) && IsRun(p, t, events) && t.h.target.Some?
    ensures Run(p, t, events).h.target == t.h.target
    decreases events
  {
    hide AgentInv, Step, Enabled, Params.Valid, OursAt;
    if events != [] {
      AgentStep(p, t, events[0]);
      OursStep(p, t, events[0]);
      StepKeepsTarget(p, t, events[0]);
      TargetStays(p, Step(p, t, events[0]), events[1..]);
    }
  }

  lemma StepKeepsTarget(p: Params, t: Tunnel, e: Event)
    requires Ours(p, t) && Enabled(p, t, e) && t.h.target.Some?
    ensures Step(p, t, e).h.target == t.h.target
  {
    hide Apply;
    if !e.Serve? && !e.Other? && !e.Emits? {
      QuietStep(p, t, e);
    }
  }

  /** Any exchange of chunks and data, in any interleaving, can be carried through: the
      destination gets exactly the client's bytes in order, the client exactly the
      destination's. */
  lemma {:induction false} TunnelCarries(p: Params, t: Tunnel, jobs: seq<Job>)
    requires p.Valid() && DownInv(p, t) && AtRest(p, t)
    requires forall i :: 0 <= i < |jobs| ==> Carriable(p, jobs[i])
    ensures IsRun(p, t, Rounds(TargetId(p, t), jobs))
    ensures
      var n := Run(p, t, Rounds(TargetId(p, t), jobs));
      && DownInv(p, n) && AtRest(p, n) && TargetId(p, n) == TargetId(p, t) && n.h.faults == t.h.faults
      && Written(n) == Written(t) + Ups(jobs) && n.h.toClient == t.h.toClient + Downs(jobs)
    decreases jobs
  {
    hide Step, Enabled, AtRest, Attended, Written, Params.Valid, DownInv, RoundOf, Carriable;
    if jobs == [] {
      assert Written(t) + "" == Written(t) && t.h.toClient + "" == t.h.toClient;
    } else {
      AtRestTarget(p, t);
      var id := TargetId(p, t);
      JobDone(p, t, jobs[0]);
      var m := Run(p, t, RoundOf(id, jobs[0]));
      TunnelCarries(p, m, jobs[1..]);
      RunConcat(p, t, RoundOf(id, jobs[0]), Rounds(id, jobs[1..]));
      Regroup(Written(t), if jobs[0].Up? then jobs[0].chunk else "", Ups(jobs[1..]));
      Regroup(t.h.toClient, if jobs[0].Down? then jobs[0].data else "", Downs(jobs[1..]));
    }
  }

  lemma Regroup(a: Str, b: Str, c: Str)
    ensures (a + b) + c == a + (b + c)
  {
  }

  // ----- from every start -----------------------------------------------------------------------------------------

  /** The whole life of a session: open, exchange, and nothing but that. */
  lemma ExchangeReachable(p: Params, table: Table, jobs: seq<Job>)
    requires Ready(p, table) && table.Valid()
    requires forall i :: 0 <= i < |jobs| ==> Carriable(p, jobs[i])
    ensures
      var events := OPENING + Rounds(|table.targets|, jobs);
      && IsRun(p, Start(p, table), events)
      && var t := Run(p, Start(p, table), events);
      && AtRest(p, t) && t.h.faults == 0
      && Written(t) == p.early + Ups(jobs) && t.h.toClient == Downs(jobs)
  {
    hide Step, Enabled, IsRun, Run, AtRest, Params.Valid, Ready, Start, DownInv, Written, Carriable;
    var s := Start(p, table);
    ReadyToOpen(p, table);
    StartReachable(p, table);
    StartDownInv(p, table);
    DownInvRuns(p, s, OPENING);
    var t := Run(p, s, OPENING);
    AtRestTarget(p, t);
    TunnelCarries(p, t, jobs);
    RunConcat(p, s, OPENING, Rounds(|table.targets|, jobs));
    assert "" + Downs(jobs) == Downs(jobs);
  }

  lemma StartDownInv(p: Params, table: Table)
    requires Ready(p, table) && table.Valid()
    ensures DownInv(p, Start(p, table))
  {
  }

  // ----- and the end ------------------------------------------------------------------------------------------------

  const CLOSING: seq<Event> := [Ends, ReadHandler, Transmit, Serve(GOOD, true), Receive]

  /** The client ends its stream: the close is posted and handled, the session is gone, its
      destination shut without another byte, and both sockets are shut. */
  lemma ClientEndsTunnel(p: Params, t: Tunnel)
    requires AtRest(p, t) && DownInv(p, t)
    ensures IsRun(p, t, CLOSING)
    ensures
      var n := Run(p, t, CLOSING);
      && n.core.agent.tunnelClosed && !n.core.agent.socketOpen && n.core.agent.phase == Idle && !n.core.connOpen
      && p.session !in n.core.table.sessions && !TargetOpen(n)
      && Written(n) == Written(t) && n.h.toClient == t.h.toClient && n.h.faults == t.h.faults
  {
    hide Step, Enabled, IsRun, Run, AtRest, DownInv, Written, TargetOpen;
    EmptyRun(p, t);
    CloseIsPosted(p, t);
    var es := Extended(p, t, [], Ends);
    es := Extended(p, t, es, ReadHandler);
    es := Extended(p, t, es, Transmit);
    CloseIsServed(p, Run(p, t, es));
    es := Extended(p, t, es, Serve(GOOD, true));
    es := Extended(p, t, es, Receive);
    assert es == CLOSING;
  }

  predicate CloseSent(p: Params, t: Tunnel) {
    && Attended(p, t) && t.stage == Waiting
    && t.core.agent == Agent(AgentLoop.Phase.Busy(Post(ActClose, ""), 1), NoRead, TimerFired(true), NoWrite,
                             true, true, true, true, false)
  }

  lemma CloseIsPosted(p: Params, t: Tunnel)
    requires AtRest(p, t)
    ensures
      && Enabled(p, t, Ends)
      && var t1 := Step(p, t, Ends);
      && Enabled(p, t1, ReadHandler)
      && var t2 := Step(p, t1, ReadHandler);
      && Enabled(p, t2, Transmit)
      && var t3 := Step(p, t2, Transmit);
      CloseSent(p, t3) && SameBytes(t, t3)
  {
    hide Apply, Served;
  }

  lemma CloseIsServed(p: Params, t: Tunnel)
    requires CloseSent(p, t)
    ensures Enabled(p, t, Serve(GOOD, true))
    ensures
      var t1 := Step(p, t, Serve(GOOD, true));
      && Enabled(p, t1, Receive)
      && var n := Step(p, t1, Receive);
      && n.core.agent.tunnelClosed && !n.core.agent.socketOpen && n.core.agent.phase == Idle && !n.core.connOpen
      && p.session !in n.core.table.sessions && !TargetOpen(n) && SameBytes(t, n)
  {
    hide Served;
    ServedClose(p, t, GOOD, true);
  }
}
