/** The retry of `postTunnelAction`: with connection reuse it can hand a chunk to the
    destination twice, without it never. */
module TunnelRetry {
  import opened AgentLoop
  import opened Bytes
  import opened HttpRequest
  import opened PolledTunnel
  import opened Server
  import opened TunnelInvariants
  import opened TunnelUplink

  // ----- building runs ----------------------------------------------------------------------------

  lemma {:induction false} RunConcat(p: Params, t: Tunnel, a: seq<Event>, b: seq<Event>)
    requires IsRun(p, t, a) && IsRun(p, Run(p, t, a), b)
    ensures IsRun(p, t, a + b) && Run(p, t, a + b) == Run(p, Run(p, t, a), b)
    decreases a
  {
    hide Step, Enabled;
    if a == [] {
      assert a + b == b;
    } else {
      assert (a + b)[1..] == a[1..] + b;
      RunConcat(p, Step(p, t, a[0]), a[1..], b);
    }
  }

  lemma Extend(p: Params, t: Tunnel, events: seq<Event>, e: Event)
    requires IsRun(p, t, events) && Enabled(p, Run(p, t, events), e)
    ensures IsRun(p, t, events + [e]) && Run(p, t, events + [e]) == Step(p, Run(p, t, events), e)
  {
    hide Step, Enabled;
    var last := Run(p, t, events);
    assert [e][1..] == [];
    assert IsRun(p, last, [e]) && Run(p, last, [e]) == Step(p, last, e);
    RunConcat(p, t, events, [e]);
  }

  // ----- a chunk handled, its answer lost, sent again -----------------------------------------------

  /** A send whose first attempt is handled by the server but whose answer is lost is sent
      again with connection reuse, and the destination gets the chunk twice. */
  lemma RetryCanDuplicate(p: Params, t: Tunnel, env: Env)
    requires p.Valid() && UplinkInv(p, t) && p.reuse && InFlight(t) && t.stage == Waiting
    requires t.core.agent.phase.attempt == 1 && TargetOpen(t) && env.writeOk
    ensures
      var events := [Serve(env, true), Fails, Transmit, Serve(env, true)];
      var chunk := t.core.agent.phase.post.body;
      && IsRun(p, t, events)
      && Written(Run(p, t, events)) == Written(t) + chunk + chunk
      && t.h.copies != [] && Run(p, t, events).h.copies == Last(t.h.copies, t.h.copies[|t.h.copies| - 1] + 2)
  {
    hide Step, UplinkInv, TargetOpen, Written, Run, IsRun, Params.Valid, InFlight;
    InFlightMeansBusy(t);
    SendHasChunk(p, t);
    var t1 := Step(p, t, Serve(env, true));
    SendAppends(p, t, env);
    var t2 := Step(p, t1, Fails);
    RetryState(p, t1);
    var t3 := Step(p, t2, Transmit);
    ExactStep(p, t, Serve(env, true));
    ExactStep(p, t1, Fails);
    ExactStep(p, t2, Transmit);
    SendAppends(p, t3, env);
    FourSteps(p, t, Serve(env, true), Fails, Transmit, Serve(env, true));
    LastTwice(t.h.copies);
  }

  lemma InFlightMeansBusy(t: Tunnel)
    requires InFlight(t)
    ensures t.Busy(ActSend)
  {
  }

  lemma LastTwice(copies: seq<nat>)
    requires copies != []
    ensures
      var once := Last(copies, copies[|copies| - 1] + 1);
      Last(once, once[|once| - 1] + 1) == Last(copies, copies[|copies| - 1] + 2)
  {
  }

  lemma SendHasChunk(p: Params, t: Tunnel)
    requires UplinkInv(p, t) && t.Busy(ActSend)
    ensures t.h.copies != []
  {
  }

  lemma SendAppends(p: Params, t: Tunnel, env: Env)
    requires UplinkInv(p, t) && t.Busy(ActSend) && t.stage == Waiting && TargetOpen(t) && env.writeOk
    requires t.h.copies != []
    ensures
      var n := Step(p, t, Serve(env, true));
      && n.core.agent == t.core.agent && TargetOpen(n) && n.stage.Answered?
      && Written(n) == Written(t) + t.core.agent.phase.post.body
      && n.h.copies == Last(t.h.copies, t.h.copies[|t.h.copies| - 1] + 1)
  {
    hide Served, Uplink, Exact;
    ServedSend(p, t, env, true);
    OursIsTarget(p, t);
  }

  lemma RetryState(p: Params, t: Tunnel)
    requires p.reuse && t.Busy(ActSend) && t.core.agent.phase.attempt == 1 && TargetOpen(t)
    ensures
      var n := Step(p, t, Fails);
      && n.core.agent.phase == AgentLoop.Phase.Busy(t.core.agent.phase.post, 2) && n.stage == Prepare
      && TargetOpen(n) && Written(n) == Written(t) && n.h.copies == t.h.copies
      && Step(p, n, Transmit).core.agent.phase == n.core.agent.phase && Step(p, n, Transmit).stage == Waiting
      && TargetOpen(Step(p, n, Transmit)) && Written(Step(p, n, Transmit)) == Written(t)
      && Step(p, n, Transmit).h.copies == t.h.copies
  {
  }

  lemma FourSteps(p: Params, t: Tunnel, a: Event, b: Event, c: Event, d: Event)
    requires Enabled(p, t, a) && Enabled(p, Step(p, t, a), b) && Enabled(p, Step(p, Step(p, t, a), b), c)
    requires Enabled(p, Step(p, Step(p, Step(p, t, a), b), c), d)
    ensures IsRun(p, t, [a, b, c, d])
    ensures Run(p, t, [a, b, c, d]) == Step(p, Step(p, Step(p, Step(p, t, a), b), c), d)
  {
    hide Step, Enabled;
    Extend(p, t, [], a);
    Extend(p, t, [a], b);
    Extend(p, t, [a, b], c);
    Extend(p, t, [a, b, c], d);
    assert [] + [a] == [a] && [a] + [b] == [a, b] && [a, b] + [c] == [a, b, c] && [a, b, c] + [d] == [a, b, c, d];
  }

  // ----- such a send is reachable -------------------------------------------------------------------

  const GOOD: Env := Env(true, true, 0, 0, 0, "", "", false, "")

  /** The session's destination is open, and nothing it sent is left unread. */
  predicate Attended(p: Params, t: Tunnel) {
    && t.core.table.Live(p.session) && t.h.target == Some(t.core.table.sessions[p.session])
    && t.core.table.targets[t.core.table.sessions[p.session]].unread == ""
  }

  /** Before the tunnel starts, its destination dialled and open, no chunk read. */
  predicate Dialled(p: Params, t: Tunnel) {
    && Attended(p, t) && t.h.chunks == [] && t.h.copies == [] && t.h.toClient == "" && t.h.faults == 0
    && t.core.agent.(phase := Idle) == Agent(Idle, NoRead, TimerOff, NoWrite, false, false, false, true, false)
  }

  /** The tunnel is started, with a read and a poll armed and nothing else going on. */
  predicate AtRest(p: Params, t: Tunnel) {
    && Attended(p, t) && t.stage == Prepare
    && t.core.agent == Agent(Idle, ReadArmed, TimerArmed, NoWrite, true, false, true, true, false)
  }

  lemma ReadyToOpen(p: Params, table: Table)
    requires Ready(p, table)
    ensures p.Valid() && p.session !in table.sessions && p.session != "" && !p.config.tunnelEnable
  {
  }

  lemma OpenDials(p: Params, table: Table)
    requires Ready(p, table) && table.Valid() && IsRun(p, Start(p, table), [Transmit])
    requires Run(p, Start(p, table), [Transmit]) == Step(p, Start(p, table), Transmit)
    ensures
      var t := Step(p, Start(p, table), Transmit);
      && Enabled(p, t, Serve(GOOD, true))
      && var n := Step(p, t, Serve(GOOD, true));
         && Dialled(p, n) && n.h.target == Some(|table.targets|) && Written(n) == p.early
         && n.core.agent == Start(p, table).core.agent && n.stage == Answered(ESTABLISHED_TEXT)
  {
    hide Served, Params.Raw, Params.Valid, Ready, Destination, IsRun, Run;
    ReadyToOpen(p, table);
    var t := Step(p, Start(p, table), Transmit);
    ServedOpen(p, t, GOOD, true);
    assert "" + p.early == p.early;
  }

  /** The open reply is read and written to the client, and the tunnel starts. */
  lemma ReplyStarts(p: Params, t: Tunnel)
    requires Dialled(p, t) && t.stage == Answered(ESTABLISHED_TEXT)
    requires t.core.agent.phase.Busy? && t.core.agent.phase.post.action == ActOpen
    ensures
      var t1 := Step(p, t, Receive);
      var k := |ESTABLISHED_TEXT|;
      && Enabled(p, t1, Progress(k))
      && var t2 := Step(p, t1, Progress(k));
      && Enabled(p, t2, WriteEnds(true))
      && var t3 := Step(p, t2, WriteEnds(true));
      && Enabled(p, t3, WriteHandler)
      && var t4 := Step(p, t3, WriteHandler);
      && t4.h.target == t.h.target && Written(t4) == Written(t)
      && AtRest(p, t4) && t4.h.chunks == [] && t4.h.copies == [] && t4.h.toClient == "" && t4.h.faults == 0
  {
    hide Apply, Served;
  }

  /** A byte arrives and its send is on the wire. */
  lemma ChunkSent(p: Params, t: Tunnel)
    requires TargetOpen(t) && t.h.chunks == [] && t.h.copies == []
    requires t.core.agent.phase == Idle && t.core.agent.read == ReadArmed
    ensures
      && Enabled(p, t, Delivers("x"))
      && var t1 := Step(p, t, Delivers("x"));
      && Enabled(p, t1, ReadHandler)
      && var t2 := Step(p, t1, ReadHandler);
      && Enabled(p, t2, Transmit)
      && var t3 := Step(p, t2, Transmit);
      && TargetOpen(t3) && t3.h.chunks == ["x"] && t3.h.copies == [0]
      && InFlight(t3) && t3.stage == Waiting && t3.core.agent.phase == AgentLoop.Phase.Busy(Post(ActSend, "x"), 1)
  {
    hide Apply, Served;
  }

  const OPENING: seq<Event> :=
    [Transmit, Serve(GOOD, true), Receive, Progress(|ESTABLISHED_TEXT|), WriteEnds(true), WriteHandler]

  const OPEN_AND_SEND: seq<Event> := OPENING + [Delivers("x"), ReadHandler, Transmit]

  /** From every start there is a run to a started tunnel with its destination open. */
  lemma StartReachable(p: Params, table: Table)
    requires Ready(p, table) && table.Valid()
    ensures IsRun(p, Start(p, table), OPENING)
    ensures
      var t := Run(p, Start(p, table), OPENING);
      && AtRest(p, t) && t.h.chunks == [] && t.h.copies == [] && t.h.toClient == "" && t.h.faults == 0
      && t.h.target == Some(|table.targets|) && Written(t) == p.early
      && t.core.agent.phase == Idle && t.core.agent.read == ReadArmed && TargetOpen(t)
  {
    hide Step, IsRun, Run, Ready, Dialled, Written;
    var s := Start(p, table);
    StartsReady(p, table);
    Extend(p, s, [], Transmit);
    assert [] + [Transmit] == [Transmit];
    OpenDials(p, table);
    var events := [Transmit];
    events := Extended(p, s, events, Serve(GOOD, true));
    ReplyStarts(p, Run(p, s, events));
    events := Extended(p, s, events, Receive);
    events := Extended(p, s, events, Progress(|ESTABLISHED_TEXT|));
    events := Extended(p, s, events, WriteEnds(true));
    events := Extended(p, s, events, WriteHandler);
    assert events == OPENING;
    AttendedIsOpen(p, Run(p, s, OPENING));
  }

  lemma AttendedIsOpen(p: Params, t: Tunnel)
    requires Attended(p, t)
    ensures TargetOpen(t)
  {
  }

  /** And on to a first attempt at a send, on the wire. */
  lemma SendReachable(p: Params, table: Table)
    requires Ready(p, table) && table.Valid()
    ensures IsRun(p, Start(p, table), OPEN_AND_SEND)
    ensures
      var t := Run(p, Start(p, table), OPEN_AND_SEND);
      && TargetOpen(t) && t.h.chunks == ["x"] && t.h.copies == [0]
      && InFlight(t) && t.stage == Waiting && t.core.agent.phase == AgentLoop.Phase.Busy(Post(ActSend, "x"), 1)
  {
    hide Step, IsRun, Run, Ready, Start, TargetOpen, InFlight, AtRest;
    var s := Start(p, table);
    StartReachable(p, table);
    ChunkSent(p, Run(p, s, OPENING));
    var events := Extended(p, s, OPENING, Delivers("x"));
    events := Extended(p, s, events, ReadHandler);
    events := Extended(p, s, events, Transmit);
    assert events == OPEN_AND_SEND;
  }

  lemma StartsReady(p: Params, table: Table)
    ensures IsRun(p, Start(p, table), []) && Run(p, Start(p, table), []) == Start(p, table)
    ensures Enabled(p, Start(p, table), Transmit)
  {
  }

  lemma Extended(p: Params, t: Tunnel, events: seq<Event>, e: Event) returns (longer: seq<Event>)
    requires IsRun(p, t, events) && Enabled(p, Run(p, t, events), e)
    ensures longer == events + [e]
    ensures IsRun(p, t, longer) && Run(p, t, longer) == Step(p, Run(p, t, events), e)
  {
    Extend(p, t, events, e);
    return events + [e];
  }

  // ----- exactly when ---------------------------------------------------------------------------------

  /** No client chunk has been written to the destination more than once. */
  predicate NoneTwice(t: Tunnel) {
    forall i :: 0 <= i < |t.h.copies| ==> t.h.copies[i] <= 1
  }

  /** Under every schedule of faults no chunk is written twice, if and only if connection
      reuse is off. */
  lemma NeverTwiceExactlyWithoutReuse(p: Params, table: Table)
    requires Ready(p, table) && table.Valid()
    ensures (forall events: seq<Event> ::
               IsRun(p, Start(p, table), events) ==> NoneTwice(Run(p, Start(p, table), events)))
            <==> !p.reuse
  {
    hide Step, IsRun, Run, Ready, TargetOpen, Start;
    if p.reuse {
      var events := TwiceReachable(p, table);
      assert !NoneTwice(Run(p, Start(p, table), events));
    } else {
      forall events: seq<Event> | IsRun(p, Start(p, table), events) ensures NoneTwice(Run(p, Start(p, table), events)) {
        ChunksAtMostTwice(p, table, events);
      }
    }
  }

  lemma TwiceReachable(p: Params, table: Table) returns (events: seq<Event>)
    requires Ready(p, table) && table.Valid() && p.reuse
    ensures IsRun(p, Start(p, table), events) && !NoneTwice(Run(p, Start(p, table), events))
  {
    hide Step, IsRun, Run, Ready, Start, UplinkInv, Params.Valid;
    var s := Start(p, table);
    ReadyParts(p, table);
    StartUplink(p, table);
    var sent := OPEN_AND_SEND;
    SendReachable(p, table);
    var t := Run(p, s, sent);
    RunUplink(p, s, sent);
    RetryCanDuplicate(p, t, GOOD);
    var again := [Serve(GOOD, true), Fails, Transmit, Serve(GOOD, true)];
    RunConcat(p, s, sent, again);
    events := sent + again;
    assert Run(p, s, events).h.copies == [2];
    assert Run(p, s, events).h.copies[0] > 1;
  }
}
