/** The tunnel does not fall asleep: what each handler posts or arms, and that in every reachable
    state of an open tunnel the next read and the next poll are on their way. */
module TunnelAlive {
  import opened AgentLoop
  import opened Bytes
  import opened PolledTunnel
  import opened Server
  import opened TunnelInvariants
  import opened TunnelUplink

  // ----- what each handler does ---------------------------------------------------------------------

  /** A poll that falls due is posted. */
  lemma TimerPolls(p: Params, t: Tunnel)
    requires Enabled(p, t, TimerHandler) && t.core.agent.timer == TimerFired(false)
    requires t.core.agent.socketOpen && !t.core.agent.tunnelClosed
    ensures
      var n := Step(p, t, TimerHandler);
      && n.h.posts == t.h.posts + [ActRecv]
      && n.core.agent.phase == AgentLoop.Phase.Busy(Post(ActRecv, ""), 1) && n.stage == Prepare
      && n.core.agent.timer == TimerOff && !n.core.agent.pollInProgress
      && n.core.table == t.core.table && n.core.connOpen == t.core.connOpen
  {
  }

  /** One that was cancelled, or comes after the end, is not. */
  lemma LateTimerPostsNothing(p: Params, t: Tunnel)
    requires Enabled(p, t, TimerHandler)
    requires t.core.agent.timer == TimerFired(true) || !t.core.agent.socketOpen || t.core.agent.tunnelClosed
    ensures Step(p, t, TimerHandler).h.posts == t.h.posts && Step(p, t, TimerHandler).core.agent.phase == Idle
  {
  }

  /** A chunk read from the client is posted, whole. */
  lemma ChunkPosted(p: Params, t: Tunnel, chunk: Str)
    requires Enabled(p, t, ReadHandler) && t.core.agent.read == ReadReady(chunk)
    ensures
      var n := Step(p, t, ReadHandler);
      && n.h.posts == t.h.posts + [ActSend] && n.core.agent.read == NoRead
      && n.core.agent.phase == AgentLoop.Phase.Busy(Post(ActSend, chunk), 1) && n.stage == Prepare
  {
  }

  /** When the open reply is written the tunnel starts: the first read and the first poll are
      armed, and the connection is kept exactly with connection reuse. When it cannot be
      written, everything is shut. */
  lemma ReplyWritten(p: Params, t: Tunnel, ok: bool)
    requires Enabled(p, t, WriteHandler) && t.core.agent.write == WriteDone(ok)
    requires AgentInv(t.core.agent) && !t.core.agent.started && t.core.agent.socketOpen
    ensures
      var n := Step(p, t, WriteHandler);
      && n.core.agent.started == ok && n.core.agent.socketOpen == ok && n.core.agent.phase == Idle
      && (ok ==> n.core.agent.read == ReadArmed && n.core.agent.timer == TimerArmed && n.core.agent.pollInProgress)
      && n.core.connOpen == (ok && t.core.connOpen && p.reuse)
  {
  }

  /** A payload written: the next poll is armed. */
  lemma PayloadWritten(p: Params, t: Tunnel)
    requires AgentInv(t.core.agent) && Enabled(p, t, WriteHandler) && t.core.agent.write == WriteDone(true)
    requires t.core.agent.started && !t.core.agent.tunnelClosed
    ensures
      var n := Step(p, t, WriteHandler);
      && n.core.agent.timer == TimerArmed && n.core.agent.write == NoWrite && n.core.agent.phase == Idle
      && n.core.agent.read == t.core.agent.read && n.core.connOpen == t.core.connOpen
  {
  }

  /** An action answered: an open's reply and a poll's payload are written to the client, an empty
      poll is followed by the next one, a send by the next read; and the connection is kept
      exactly as announced. An open answered with nothing, and a close, end in a shutdown of both
      sockets. */
  lemma AnswerFollowed(p: Params, t: Tunnel)
    requires AgentInv(t.core.agent) && Enabled(p, t, Receive) && t.core.agent.socketOpen
    ensures
      var a, n := t.core.agent, Step(p, t, Receive);
      var b, plain := n.core.agent, t.stage.plain;
      && b.phase == Idle && n.stage == Prepare
      && (match a.phase.post.action
          case ActOpen =>
            (plain != "" ==> b.write == Writing(plain, 0) && b.socketOpen && n.core.connOpen == t.core.connOpen)
            && (plain == "" ==> !b.socketOpen && !n.core.connOpen)
          case ActSend =>
            (!a.tunnelClosed ==> b.read == ReadArmed) && n.core.connOpen == (t.core.connOpen && p.reuse)
          case ActRecv =>
            (plain != "" ==> b.write == Writing(plain, 0) && b.timer == TimerOff)
            && (plain == "" && !a.tunnelClosed ==> b.timer == TimerArmed && b.pollInProgress && b.write == NoWrite)
            && n.core.connOpen == (t.core.connOpen && p.reuse)
          case ActClose => !b.socketOpen && !n.core.connOpen)
  {
  }

  /** A failed attempt: a send or poll is tried a second time with connection reuse, once, over a
      new connection; otherwise the tunnel goes on with the next read or poll. */
  lemma FailureFollowed(p: Params, t: Tunnel)
    requires AgentInv(t.core.agent) && Enabled(p, t, Fails) && t.core.agent.socketOpen
    ensures
      var a, n := t.core.agent, Step(p, t, Fails);
      var b, post := n.core.agent, a.phase.post;
      && n.stage == Prepare && !n.core.connOpen
      && (if (post.action == ActSend || post.action == ActRecv) && p.reuse && a.phase.attempt == 1 then
            b == a.(phase := AgentLoop.Phase.Busy(post, 2))
          else
            && b.phase == Idle
            && (post.action == ActSend && !a.tunnelClosed ==> b.read == ReadArmed)
            && (post.action == ActRecv && !a.tunnelClosed ==> b.timer == TimerArmed && b.pollInProgress)
            && (post.action == ActOpen || post.action == ActClose ==> !b.socketOpen))
  {
  }

  /** A seal that fails is a failure too, but for the connection, which is made and kept where
      nothing shuts it. */
  lemma SealFailureFollowed(p: Params, t: Tunnel)
    requires AgentInv(t.core.agent) && Enabled(p, t, SealFails) && t.core.agent.socketOpen
    ensures
      var post := t.core.agent.phase.post;
      var n := Step(p, t, SealFails);
      && n.core.agent == Step(p, t, Fails).core.agent && n.stage == Prepare
      && (n.core.connOpen <==> n.core.agent.phase == Idle && (post.action == ActSend || post.action == ActRecv))
  {
  }

  // ----- never asleep ------------------------------------------------------------------------------------

  /** While the tunnel is open a read is pending, arrived or being posted, and a poll is waiting,
      due, being posted or followed by a client write; before the start the open is being posted
      or its reply written. A timer is only ever cancelled by the end. */
  predicate Alive(a: Agent) {
    && (a.started && !a.tunnelClosed ==>
          && a.socketOpen
          && (a.read != NoRead || Sending(a))
          && (a.timer != TimerOff || Polling(a) || a.write != NoWrite))
    && (!a.started && a.socketOpen ==> (a.phase.Busy? && a.phase.post.action == ActOpen) || a.write != NoWrite)
    && (a.timer == TimerFired(true) ==> a.tunnelClosed || !a.socketOpen)
  }

  lemma ReturnKeepsAlive(c: Core, result: Str)
    requires AgentInv(c.agent) && Alive(c.agent) && c.agent.phase.Busy?
    ensures Alive(Return(c, result).agent)
  {
  }

  lemma AttemptKeepsAlive(c: Core, result: Str, reuse: bool)
    requires AgentInv(c.agent) && Alive(c.agent) && c.agent.phase.Busy?
    ensures Alive(Answer(c, result, reuse).agent)
    ensures Alive(Fail(c, reuse).agent) && Alive(FailToSeal(c, reuse).agent)
  {
    hide AgentInv, Return, Alive;
    ReturnKeepsAlive(c, result);
    ReturnKeepsAlive(c.(connOpen := false), result);
    ReturnKeepsAlive(c.(connOpen := true), "");
    ReturnKeepsAlive(c.(connOpen := false), "");
    if Retries(c.agent.phase, reuse) { RetryKeepsAlive(c.agent); }
  }

  lemma RetryKeepsAlive(a: Agent)
    requires Alive(a) && a.phase.Busy?
    ensures Alive(a.(phase := AgentLoop.Phase.Busy(a.phase.post, 2)))
  {
  }

  lemma AliveStep(p: Params, t: Tunnel, e: Event)
    requires AgentInv(t.core.agent) && Alive(t.core.agent) && Enabled(p, t, e)
    ensures Alive(Step(p, t, e).core.agent)
  {
    hide Served, Answer, Fail, FailToSeal, Apply;
    if Attempt(e) {
      AttemptKeepsAlive(t.core, if e.Receive? then t.stage.plain else "", p.reuse);
    } else if e.Serve? {
      ServeKeepsHeld(p, t, e.env, e.sealed);
    }
  }

  lemma {:induction false} RunAlive(p: Params, t: Tunnel, events: seq<Event>)
    requires AgentInv(t.core.agent) && Alive(t.core.agent) && IsRun(p, t, events)
    ensures AgentInv(Run(p, t, events).core.agent) && Alive(Run(p, t, events).core.agent)
    decreases events
  {
    hide AgentInv, Alive, Step, Enabled;
    if events != [] {
      AgentStep(p, t, events[0]);
      AliveStep(p, t, events[0]);
      RunAlive(p, Step(p, t, events[0]), events[1..]);
    }
  }

  /** In every state of every run. */
  lemma NeverAsleep(p: Params, table: Table, events: seq<Event>)
    requires IsRun(p, Start(p, table), events)
    ensures
      var a := Run(p, Start(p, table), events).core.agent;
      && (a.started && !a.tunnelClosed ==>
            && a.socketOpen
            && (a.read == ReadArmed || a.read.ReadReady? || a.read == ReadFailed || Sending(a))
            && (a.timer == TimerArmed || a.timer == TimerFired(false) || Polling(a) || a.write != NoWrite))
      && (a.tunnelClosed && a.socketOpen ==> Closing(a))
  {
    hide IsRun, Run;
    RunAlive(p, Start(p, table), events);
  }
}
