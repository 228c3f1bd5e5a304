/** The tunnel's end: one close, no poll after it, at most one late send, and no overlapping
    operations before it. */
module TunnelLifecycle {
  import opened AgentLoop
  import opened Bytes
  import opened PolledTunnel
  import opened Server
  import opened TunnelInvariants
  import opened TunnelUplink

  /** What follows a close in the list of posted actions: nothing, or the one send whose bytes
      had already been read, after which no read is pending. */
  predicate AfterClose(posts: seq<Action>, k: nat, a: Agent) {
    && k < |posts| && posts[k] == ActClose
    && (|posts| == k + 1 || (|posts| == k + 2 && posts[k + 1] == ActSend && a.read == NoRead))
  }

  predicate Lifecycle(t: Tunnel) {
    var h, a := t.h, t.core.agent;
    && h.posts != [] && h.posts[0] == ActOpen
    && (forall i :: 0 < i < |h.posts| ==> h.posts[i] != ActOpen)
    && (h.closeAt.Some? <==> a.tunnelClosed)
    && (h.closeAt.None? ==> ActClose !in h.posts)
    && (h.closeAt.Some? ==> AfterClose(h.posts, h.closeAt.value, a) && ActClose !in h.posts[..h.closeAt.value])
  }

  predicate LifecycleInv(t: Tunnel) {
    AgentInv(t.core.agent) && Lifecycle(t)
  }

  lemma StartLifecycle(p: Params, table: Table)
    ensures LifecycleInv(Start(p, table))
  {
  }

  /** Nothing outside the strand posts an action or touches a pending read it did not arm. */
  lemma OutsideKeepsLifecycle(p: Params, t: Tunnel, e: Event)
    requires LifecycleInv(t) && Enabled(p, t, e) && (Outside(e) || e.Other? || e.Emits?)
    ensures Lifecycle(Step(p, t, e))
  {
    hide Apply, AgentInv;
    if e.Delivers? || e.Ends? {
      ArmedMeansNoLateSend(t);
    }
  }

  lemma ArmedMeansNoLateSend(t: Tunnel)
    requires LifecycleInv(t) && t.core.agent.read == ReadArmed
    ensures t.h.closeAt.Some? ==> |t.h.posts| == t.h.closeAt.value + 1
  {
  }

  lemma ServeKeepsLifecycle(p: Params, t: Tunnel, env: Env, sealed: bool)
    requires LifecycleInv(t) && Enabled(p, t, Serve(env, sealed))
    ensures Lifecycle(Step(p, t, Serve(env, sealed)))
  {
    hide Apply, AgentInv;
    ServedPostsNothing(p, t, env, sealed);
    hide Served;
  }

  lemma ServedPostsNothing(p: Params, t: Tunnel, env: Env, sealed: bool)
    requires t.core.agent.phase.Busy?
    ensures
      var n := Served(p, t, env, sealed);
      n.h.posts == t.h.posts && n.h.closeAt == t.h.closeAt && n.core.agent == t.core.agent
  {
    hide Apply;
  }

  /** How a return leaves the read and the close flag: a read is only re-armed while the
      tunnel is open. */
  predicate ReadKept(a: Agent, b: Agent) {
    && b.tunnelClosed == a.tunnelClosed
    && (a.tunnelClosed && a.read == NoRead ==> b.read == NoRead)
  }

  lemma ReturnKeepsRead(c: Core, result: Str)
    requires AgentInv(c.agent) && c.agent.phase.Busy?
    ensures ReadKept(c.agent, Return(c, result).agent)
  {
  }

  lemma AttemptKeepsRead(c: Core, result: Str, reuse: bool)
    requires AgentInv(c.agent) && c.agent.phase.Busy?
    ensures ReadKept(c.agent, Answer(c, result, reuse).agent)
    ensures ReadKept(c.agent, Fail(c, reuse).agent) && ReadKept(c.agent, FailToSeal(c, reuse).agent)
  {
    hide AgentInv, Return;
    ReturnKeepsRead(c.(connOpen := true), "");
    ReturnKeepsRead(c.(connOpen := false), "");
    ReturnKeepsRead(c, result);
    ReturnKeepsRead(c.(connOpen := false), result);
  }

  lemma AttemptPostsNothing(p: Params, t: Tunnel, e: Event)
    requires Enabled(p, t, e) && Attempt(e)
    ensures Step(p, t, e).h.posts == t.h.posts && Step(p, t, e).h.closeAt == t.h.closeAt
  {
    hide Answer, Fail, FailToSeal, Served, Apply;
  }

  lemma AttemptKeepsLifecycle(p: Params, t: Tunnel, e: Event)
    requires LifecycleInv(t) && Enabled(p, t, e) && Attempt(e)
    ensures Lifecycle(Step(p, t, e))
  {
    hide AgentInv, Answer, Fail, FailToSeal, Served, Apply;
    AttemptPostsNothing(p, t, e);
    AttemptKeepsRead(t.core, if e.Receive? then t.stage.plain else "", p.reuse);
  }

  /** What a handler posts, and when: a close only while the tunnel is open, a poll only while
      it is open, a send for the chunk it consumes. */
  lemma HandlerPosts(p: Params, t: Tunnel, e: Event)
    requires AgentInv(t.core.agent) && Enabled(p, t, e) && Handler(e)
    ensures
      var n, a, b := Step(p, t, e), t.core.agent, Step(p, t, e).core.agent;
      || (n.h.posts == t.h.posts && n.h.closeAt == t.h.closeAt && ReadKept(a, b))
      || (n.h.posts == t.h.posts + [ActClose] && n.h.closeAt == Some(|t.h.posts|) && !a.tunnelClosed && b.tunnelClosed)
      || (n.h.posts == t.h.posts + [ActRecv] && n.h.closeAt == t.h.closeAt && !a.tunnelClosed && !b.tunnelClosed)
      || (n.h.posts == t.h.posts + [ActSend] && n.h.closeAt == t.h.closeAt && b.tunnelClosed == a.tunnelClosed
          && a.read.ReadReady? && b.read == NoRead)
  {
  }

  lemma HandlerKeepsLifecycle(p: Params, t: Tunnel, e: Event)
    requires LifecycleInv(t) && Enabled(p, t, e) && Handler(e)
    ensures Lifecycle(Step(p, t, e))
  {
    hide AgentInv, Enabled, Apply;
    HandlerPosts(p, t, e);
    HandlerLists(t, Step(p, t, e));
  }

  lemma HandlerLists(t: Tunnel, n: Tunnel)
    requires Lifecycle(t)
    requires
      var a, b := t.core.agent, n.core.agent;
      || (n.h.posts == t.h.posts && n.h.closeAt == t.h.closeAt && ReadKept(a, b))
      || (n.h.posts == t.h.posts + [ActClose] && n.h.closeAt == Some(|t.h.posts|) && !a.tunnelClosed && b.tunnelClosed)
      || (n.h.posts == t.h.posts + [ActRecv] && n.h.closeAt == t.h.closeAt && !a.tunnelClosed && !b.tunnelClosed)
      || (n.h.posts == t.h.posts + [ActSend] && n.h.closeAt == t.h.closeAt && b.tunnelClosed == a.tunnelClosed
          && a.read.ReadReady? && b.read == NoRead)
    ensures Lifecycle(n)
  {
    if n.h.closeAt.Some? {
      var k := n.h.closeAt.value;
      assert n.h.posts[..k] == t.h.posts[..k];
    }
  }

  lemma LifecycleStep(p: Params, t: Tunnel, e: Event)
    requires LifecycleInv(t) && Enabled(p, t, e)
    ensures LifecycleInv(Step(p, t, e))
  {
    hide AgentInv, Lifecycle, Apply;
    AgentStep(p, t, e);
    match e
    case Serve(env, sealed) => ServeKeepsLifecycle(p, t, env, sealed);
    case Other(_, _, _, _) => OutsideKeepsLifecycle(p, t, e);
    case Emits(_, _) => OutsideKeepsLifecycle(p, t, e);
    case _ =>
      if Outside(e) {
        OutsideKeepsLifecycle(p, t, e);
      } else if Attempt(e) {
        AttemptKeepsLifecycle(p, t, e);
      } else {
        HandlerKeepsLifecycle(p, t, e);
      }
  }

  lemma {:induction false} RunLifecycle(p: Params, t: Tunnel, events: seq<Event>)
    requires LifecycleInv(t) && IsRun(p, t, events)
    ensures LifecycleInv(Run(p, t, events))
    decreases events
  {
    hide LifecycleInv, Step, Enabled;
    if events != [] {
      LifecycleStep(p, t, events[0]);
      RunLifecycle(p, Step(p, t, events[0]), events[1..]);
    }
  }

  /** In every run no read, wait or write is begun while one of its kind is pending, and of
      poll timer, recv in progress and client write at most one is pending. The tunnel posts a
      close at most once, exactly one if it was closed, and it was closed if its socket is shut;
      after the close come no recv and at most one send, for bytes already read. */
  lemma OneCloseThenAtMostOneSend(p: Params, table: Table, events: seq<Event>)
    requires IsRun(p, Start(p, table), events)
    ensures
      var t := Run(p, Start(p, table), events);
      var a, posts := t.core.agent, t.h.posts;
      && !a.overlapped
      && (a.timer != TimerOff ==> a.write == NoWrite && !Polling(a))
      && (Polling(a) ==> a.write == NoWrite)
      && (a.started && !a.socketOpen ==> a.tunnelClosed)
      && (!a.tunnelClosed ==> ActClose !in posts)
      && (a.tunnelClosed ==>
            exists k :: 0 < k < |posts| && posts[k] == ActClose && ActClose !in posts[..k]
                        && (posts[k + 1..] == [] || posts[k + 1..] == [ActSend]))
  {
    hide IsRun, Run, Start;
    StartLifecycle(p, table);
    RunLifecycle(p, Start(p, table), events);
    var t := Run(p, Start(p, table), events);
    if t.core.agent.tunnelClosed {
      var k := t.h.closeAt.value;
      assert k != 0 && t.h.posts[k] == ActClose;
    }
  }

  /** The ways a tunnel ends: the client's end of stream or a read error, and a write error.
      Each posts the close, unless it has been posted, and then shuts the socket. */
  predicate Ending(t: Tunnel, e: Event) {
    || (e.ReadHandler? && t.core.agent.read == ReadFailed)
    || (e.WriteHandler? && t.core.agent.started && t.core.agent.write == WriteDone(false))
  }

  lemma EndingPostsClose(p: Params, t: Tunnel, e: Event)
    requires AgentInv(t.core.agent) && Enabled(p, t, e) && Ending(t, e)
    ensures
      var n := Step(p, t, e);
      && n.core.agent.tunnelClosed
      && (!t.core.agent.tunnelClosed ==> n.h.posts == t.h.posts + [ActClose] && Closing(n.core.agent))
      && (t.core.agent.tunnelClosed ==> n.h.posts == t.h.posts && !n.core.agent.socketOpen)
  {
  }

  /** The end of every attempt at the close shuts the socket. */
  lemma CloseThenShut(p: Params, t: Tunnel, e: Event)
    requires AgentInv(t.core.agent) && Enabled(p, t, e) && Closing(t.core.agent) && Attempt(e)
    ensures !Step(p, t, e).core.agent.socketOpen && Step(p, t, e).core.agent.phase == Idle
  {
    hide Served, Apply;
  }

  /** Once the server has handled the close, the destination is shut and the session gone. */
  lemma CloseShutsTarget(p: Params, t: Tunnel, env: Env, sealed: bool)
    requires p.Valid() && UplinkInv(p, t) && Enabled(p, t, Serve(env, sealed)) && t.Busy(ActClose)
    ensures !TargetOpen(Step(p, t, Serve(env, sealed)))
    ensures p.session !in Step(p, t, Serve(env, sealed)).core.table.sessions
    ensures Written(Step(p, t, Serve(env, sealed))) == Written(t)
  {
    hide Served, AgentInv, Uplink, Exact, Params.Valid, Params.Raw;
    ServedClose(p, t, env, sealed);
  }

  // ----- after the close --------------------------------------------------------------------------------

  /** The open is still to be handled. */
  predicate OpenPending(t: Tunnel) {
    t.Busy(ActOpen) && !t.stage.Answered?
  }

  /** The open has been handled, whatever became of it, and the session is not in the table. */
  predicate Gone(p: Params, t: Tunnel) {
    p.session !in t.core.table.sessions && !OpenPending(t)
  }

  lemma GoneMeansShut(p: Params, t: Tunnel)
    requires Ours(p, t) && Gone(p, t)
    ensures !TargetOpen(t)
  {
  }

  lemma OpenIsNotPostedAgain(p: Params, t: Tunnel, e: Event)
    requires AgentInv(t.core.agent) && Enabled(p, t, e) && !OpenPending(t)
    ensures !OpenPending(Step(p, t, e))
  {
    hide Served, Apply;
    if e.Serve? {
      ServedPostsNothing(p, t, e.env, e.sealed);
    }
  }

  lemma GoneStays(p: Params, t: Tunnel, e: Event)
    requires p.Valid() && UplinkInv(p, t) && Enabled(p, t, e) && Gone(p, t)
    ensures Gone(p, Step(p, t, e)) && Step(p, t, e).h.target == t.h.target
    ensures Written(Step(p, t, e)) == Written(t)
  {
    hide AgentInv, Uplink, Exact, Params.Valid, Params.Raw, Step;
    OpenIsNotPostedAgain(p, t, e);
    match e
    case Serve(env, sealed) => ServeKeepsGone(p, t, env, sealed);
    case Other(_, _, _, _) => OtherKeepsGone(p, t, e);
    case Emits(_, _) => EmitsKeepsGone(p, t, e);
    case _ => QuietStep(p, t, e);
  }

  lemma ServeKeepsGone(p: Params, t: Tunnel, env: Env, sealed: bool)
    requires p.Valid() && UplinkInv(p, t) && Enabled(p, t, Serve(env, sealed)) && Gone(p, t)
    ensures
      var n := Step(p, t, Serve(env, sealed));
      p.session !in n.core.table.sessions && n.h.target == t.h.target && Written(n) == Written(t)
  {
    hide Served, AgentInv, Uplink, Exact, Params.Valid, Params.Raw;
    match t.core.agent.phase.post.action
    case ActOpen =>
    case ActSend => ServedSend(p, t, env, sealed);
    case ActRecv => ServedRecv(p, t, env, sealed);
    case ActClose => ServedClose(p, t, env, sealed);
  }

  lemma OtherKeepsGone(p: Params, t: Tunnel, e: Event)
    requires UplinkInv(p, t) && Enabled(p, t, e) && Gone(p, t) && e.Other?
    ensures
      var n := Step(p, t, e);
      p.session !in n.core.table.sessions && n.h.target == t.h.target && Written(n) == Written(t)
  {
    hide Apply, AgentInv, Uplink, Exact;
    ActionIsIsolated(p.config, t.core.table, e.session, e.action, e.message, e.otherEnv, p.session);
    OtherKeepsOurs(p, t, e.session, e.action, e.message, e.otherEnv);
  }

  lemma EmitsKeepsGone(p: Params, t: Tunnel, e: Event)
    requires Enabled(p, t, e) && Gone(p, t) && e.Emits?
    ensures
      var n := Step(p, t, e);
      p.session !in n.core.table.sessions && n.h.target == t.h.target && Written(n) == Written(t)
  {
  }

  lemma {:induction false} RunKeepsGone(p: Params, t: Tunnel, events: seq<Event>)
    requires p.Valid() && UplinkInv(p, t) && IsRun(p, t, events) && Gone(p, t)
    ensures Gone(p, Run(p, t, events)) && Written(Run(p, t, events)) == Written(t)
    ensures !TargetOpen(Run(p, t, events))
    decreases events
  {
    hide UplinkInv, Step, Enabled, Params.Valid, Gone, TargetOpen;
    if events == [] {
      UplinkIsOurs(p, t);
      GoneMeansShut(p, t);
    } else {
      ExactStep(p, t, events[0]);
      GoneStays(p, t, events[0]);
      RunKeepsGone(p, Step(p, t, events[0]), events[1..]);
    }
  }

  lemma UplinkIsOurs(p: Params, t: Tunnel)
    requires UplinkInv(p, t)
    ensures Ours(p, t)
  {
  }

  /** Close safety over whole runs: whatever came before the server handled the close and
      whatever comes after, a late send included, and whether the open had succeeded or been
      refused, no destination of the session is open and none is given another byte. */
  lemma NothingAfterClose(p: Params, table: Table, before: seq<Event>, env: Env, sealed: bool, after: seq<Event>)
    requires Ready(p, table) && table.Valid() && IsRun(p, Start(p, table), before)
    requires Run(p, Start(p, table), before).Busy(ActClose)
    requires Enabled(p, Run(p, Start(p, table), before), Serve(env, sealed))
    requires IsRun(p, Step(p, Run(p, Start(p, table), before), Serve(env, sealed)), after)
    ensures
      var t := Run(p, Start(p, table), before);
      var n := Run(p, Step(p, t, Serve(env, sealed)), after);
      !TargetOpen(n) && Written(n) == Written(t) && p.session !in n.core.table.sessions
  {
    hide UplinkInv, Step, Params.Valid, TargetOpen, Ready, Start, IsRun, Run;
    ReadyParts(p, table);
    StartUplink(p, table);
    RunUplink(p, Start(p, table), before);
    var t := Run(p, Start(p, table), before);
    CloseShutsTarget(p, t, env, sealed);
    ExactStep(p, t, Serve(env, sealed));
    ClosingIsGone(p, t, env, sealed);
    RunKeepsGone(p, Step(p, t, Serve(env, sealed)), after);
  }

  lemma ClosingIsGone(p: Params, t: Tunnel, env: Env, sealed: bool)
    requires Enabled(p, t, Serve(env, sealed)) && t.Busy(ActClose)
    requires p.session !in Step(p, t, Serve(env, sealed)).core.table.sessions
    ensures Gone(p, Step(p, t, Serve(env, sealed)))
  {
    hide Served;
    ServedPostsNothing(p, t, env, sealed);
  }

  /** And whenever no destination is open once the open was handled, because it was refused,
      or a write failed, or the close came, none ever is again or is given another byte. */
  lemma NothingAfterShut(p: Params, table: Table, before: seq<Event>, after: seq<Event>)
    requires Ready(p, table) && table.Valid() && IsRun(p, Start(p, table), before)
    requires !TargetOpen(Run(p, Start(p, table), before)) && !OpenPending(Run(p, Start(p, table), before))
    requires IsRun(p, Run(p, Start(p, table), before), after)
    ensures
      var t := Run(p, Start(p, table), before);
      var n := Run(p, t, after);
      !TargetOpen(n) && Written(n) == Written(t)
  {
    hide UplinkInv, Step, Params.Valid, TargetOpen, OpenPending, Ready, Start, IsRun, Run;
    ReadyParts(p, table);
    StartUplink(p, table);
    RunUplink(p, Start(p, table), before);
    var t := Run(p, Start(p, table), before);
    if t.h.target.Some? {
      DialledStaysShut(p, t, after);
    } else {
      RefusedIsGone(p, t);
      RunKeepsGone(p, t, after);
    }
  }

  lemma RefusedIsGone(p: Params, t: Tunnel)
    requires UplinkInv(p, t) && t.h.target.None? && !OpenPending(t)
    ensures Gone(p, t)
  {
  }
}
