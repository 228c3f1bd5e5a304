/** The way up over whole runs: retry multiplicity in general, conservation without faults,
    and nothing after the target is shut. */
module TunnelUplink {
  import opened AgentLoop
  import opened Bytes
  import opened PolledTunnel
  import opened Server
  import opened TunnelInvariants

  /** The client's bytes as the agent read them. */
  function Join(chunks: seq<Str>): Str {
    if chunks == [] then "" else Join(chunks[..|chunks| - 1]) + chunks[|chunks| - 1]
  }

  predicate InFlight(t: Tunnel) {
    t.Busy(ActSend) && !t.stage.Answered?
  }

  /** Without faults each chunk is written once, in order, until the destination fails; while
      it is open, every chunk but the one in flight has been. */
  ghost predicate Exact(p: Params, t: Tunnel)
    requires |t.h.chunks| == |t.h.copies|
  {
    var h := t.h;
    && (!t.core.agent.started ==> h.chunks == [])
    && (h.faults == 0 ==>
      && h.landed <= |h.chunks|
      && (forall i :: 0 <= i < |h.copies| ==> h.copies[i] == if i < h.landed then 1 else 0)
      && h.tail <= (if h.landed < |h.chunks| then h.chunks[h.landed] else "")
      && (t.core.agent.phase.Busy? ==> t.core.agent.phase.attempt == 1)
      && (h.target.Some? && h.target.value < |t.core.table.targets| && t.core.table.targets[h.target.value].open ==>
            h.landed + (if InFlight(t) then 1 else 0) >= |h.chunks|))
  }

  ghost predicate UplinkInv(p: Params, t: Tunnel) {
    AgentInv(t.core.agent) && Ours(p, t) && Uplink(p, t) && Exact(p, t)
  }

  lemma ServeSendKeepsExact(p: Params, t: Tunnel, env: Env, sealed: bool)
    requires p.Valid() && UplinkInv(p, t) && Enabled(p, t, Serve(env, sealed)) && t.Busy(ActSend)
    ensures |Served(p, t, env, sealed).h.chunks| == |Served(p, t, env, sealed).h.copies|
    ensures Exact(p, Served(p, t, env, sealed))
  {
    hide Served, Params.Valid, WriteTo, Spread;
    ServedSend(p, t, env, sealed);
    var table := t.core.table;
    if table.Live(p.session) {
      OursIsTarget(p, t);
      assert t.h.faults == 0 ==> t.h.copies[|t.h.copies| - 1] == 0;
    }
  }

  lemma ServeKeepsExact(p: Params, t: Tunnel, env: Env, sealed: bool)
    requires p.Valid() && UplinkInv(p, t) && Enabled(p, t, Serve(env, sealed))
    ensures |Served(p, t, env, sealed).h.chunks| == |Served(p, t, env, sealed).h.copies|
    ensures Exact(p, Served(p, t, env, sealed))
  {
    hide Served, Params.Valid, Params.Raw, Given, Spread, WriteTo;
    match t.core.agent.phase.post.action
    case ActOpen => ServedOpen(p, t, env, sealed); OpenKeepsExact(p, t, env, sealed);
    case ActSend => ServeSendKeepsExact(p, t, env, sealed);
    case ActRecv => ServedRecv(p, t, env, sealed);
    case ActClose => ServedClose(p, t, env, sealed);
  }

  lemma OpenKeepsExact(p: Params, t: Tunnel, env: Env, sealed: bool)
    requires p.Valid() && UplinkInv(p, t) && Enabled(p, t, Serve(env, sealed)) && t.Busy(ActOpen)
    ensures |Served(p, t, env, sealed).h.chunks| == |Served(p, t, env, sealed).h.copies|
    ensures Exact(p, Served(p, t, env, sealed))
  {
    hide Served, Params.Valid, Params.Raw, Uplink, Ours, Server.Open, Apply;
    OpenNotStarted(p, t);
    ServedOpen(p, t, env, sealed);
  }

  lemma OpenNotStarted(p: Params, t: Tunnel)
    requires UplinkInv(p, t) && t.Busy(ActOpen)
    ensures !t.core.agent.started && t.h.chunks == [] && t.h.copies == []
    ensures t.core.agent.phase.post.body == p.Raw()
  {
  }

  lemma TableStepKeepsExact(p: Params, t: Tunnel, e: Event)
    requires UplinkInv(p, t) && Enabled(p, t, e) && (e.Other? || e.Emits?)
    ensures Step(p, t, e).h == t.h && Exact(p, Step(p, t, e))
  {
    hide Apply, Uplink, AgentInv;
    if e.Other? {
      OtherKeepsOurs(p, t, e.session, e.action, e.message, e.otherEnv);
    }
  }

  lemma OutsideKeepsExact(p: Params, t: Tunnel, e: Event)
    requires UplinkInv(p, t) && Enabled(p, t, e) && Outside(e)
    ensures SameUplink(t, Step(p, t, e)) && Exact(p, Step(p, t, e))
  {
    hide Uplink, AgentInv, Ours, Apply;
  }

  lemma AttemptKeepsExact(p: Params, t: Tunnel, e: Event)
    requires UplinkInv(p, t) && Enabled(p, t, e) && Attempt(e)
    ensures SameUplink(t, Step(p, t, e)) && Exact(p, Step(p, t, e))
  {
    hide Uplink, AgentInv, Ours, Apply;
    AttemptSameUplink(p, t, e);
    AttemptCounts(p, t, e);
  }

  /** Only an answered attempt ends without counting a fault, and it ends idle. */
  lemma AttemptCounts(p: Params, t: Tunnel, e: Event)
    requires Enabled(p, t, e) && Attempt(e)
    ensures Step(p, t, e).h.faults == t.h.faults + (if e.Receive? then 0 else 1)
    ensures Step(p, t, e).h.landed == t.h.landed && Step(p, t, e).core.agent.started == t.core.agent.started
  {
    hide Return, Fail, FailToSeal, Answer, Served, Apply;
  }

  lemma HandlerKeepsExact(p: Params, t: Tunnel, e: Event)
    requires UplinkInv(p, t) && Enabled(p, t, e) && Handler(e)
    ensures |Step(p, t, e).h.chunks| == |Step(p, t, e).h.copies| && Exact(p, Step(p, t, e))
  {
    hide Uplink, Ours, Apply, Served, AgentInv;
    UplinkParts(p, t);
    HandlerCounts(p, t, e);
    if e.ReadHandler? && t.core.agent.read.ReadReady? {
      ReadHandlerUplink(p, t);
      ReadMeansStarted(p, t);
    } else {
      HandlerSameUplink(p, t, e);
    }
  }

  lemma HandlerCounts(p: Params, t: Tunnel, e: Event)
    requires Enabled(p, t, e) && Handler(e)
    ensures Step(p, t, e).h.faults == t.h.faults && Step(p, t, e).h.landed == t.h.landed
    ensures t.core.agent.started ==> Step(p, t, e).core.agent.started
    ensures e.ReadHandler? ==> Step(p, t, e).core.agent.started == t.core.agent.started
  {
  }

  lemma ReadMeansStarted(p: Params, t: Tunnel)
    requires UplinkInv(p, t) && t.core.agent.read.ReadReady?
    ensures t.core.agent.started && |t.h.chunks| == |t.h.copies|
  {
  }

  lemma ExactStep(p: Params, t: Tunnel, e: Event)
    requires p.Valid() && UplinkInv(p, t) && Enabled(p, t, e)
    ensures UplinkInv(p, Step(p, t, e))
  {
    hide AgentInv, Ours, Uplink, Exact, Params.Valid, Apply;
    UplinkStep(p, t, e);
    UplinkParts(p, t);
    match e
    case Serve(env, sealed) => ServeKeepsExact(p, t, env, sealed);
    case Other(_, _, _, _) => TableStepKeepsExact(p, t, e);
    case Emits(_, _) => TableStepKeepsExact(p, t, e);
    case _ =>
      if Outside(e) {
        OutsideKeepsExact(p, t, e);
      } else if Attempt(e) {
        AttemptKeepsExact(p, t, e);
      } else {
        HandlerKeepsExact(p, t, e);
      }
  }

  lemma UplinkParts(p: Params, t: Tunnel)
    requires AgentInv(t.core.agent) && Ours(p, t) && Uplink(p, t)
    ensures |t.h.chunks| == |t.h.copies|
  {
  }

  // ----- over runs --------------------------------------------------------------------------------

  /** A server whose table is sound and does not hold the new session yet. */
  ghost predicate Ready(p: Params, table: Table) {
    p.Valid() && p.session !in table.sessions
  }

  lemma StartUplink(p: Params, table: Table)
    requires Ready(p, table) && table.Valid()
    ensures UplinkInv(p, Start(p, table))
  {
  }

  lemma {:induction false} RunUplink(p: Params, t: Tunnel, events: seq<Event>)
    requires p.Valid() && UplinkInv(p, t) && IsRun(p, t, events)
    ensures UplinkInv(p, Run(p, t, events))
    decreases events
  {
    hide UplinkInv, Step, Enabled, Params.Valid;
    if events != [] {
      ExactStep(p, t, events[0]);
      RunUplink(p, Step(p, t, events[0]), events[1..]);
    }
  }

  // ----- the client's stream ----------------------------------------------------------------------

  function Arrival(e: Event): Str {
    if e.Delivers? then e.chunk else ""
  }

  /** Everything the client's socket delivered in the course of a run. */
  function ClientBytes(events: seq<Event>): Str {
    if events == [] then "" else Arrival(events[0]) + ClientBytes(events[1..])
  }

  /** A chunk that has arrived and is still to be posted. */
  function Held(a: Agent): Str {
    if a.read.ReadReady? then a.read.chunk else ""
  }

  function Carried(t: Tunnel): Str {
    Join(t.h.chunks) + Held(t.core.agent)
  }

  lemma AttemptKeepsHeld(p: Params, t: Tunnel, e: Event)
    requires AgentInv(t.core.agent) && Enabled(p, t, e) && Attempt(e)
    ensures Held(Step(p, t, e).core.agent) == Held(t.core.agent)
  {
    hide Served, Apply;
  }

  lemma ServeKeepsHeld(p: Params, t: Tunnel, env: Env, sealed: bool)
    requires t.core.agent.phase.Busy?
    ensures Served(p, t, env, sealed).core.agent == t.core.agent && Served(p, t, env, sealed).h.chunks == t.h.chunks
  {
    hide Apply;
  }

  lemma HandlerKeepsHeld(p: Params, t: Tunnel, e: Event)
    requires AgentInv(t.core.agent) && Enabled(p, t, e) && Handler(e)
    requires !(e.ReadHandler? && t.core.agent.read.ReadReady?)
    ensures Held(Step(p, t, e).core.agent) == Held(t.core.agent)
  {
    hide Served, Apply;
  }

  lemma OutsideCarries(p: Params, t: Tunnel, e: Event)
    requires Enabled(p, t, e) && (Outside(e) || e.Other? || e.Emits?)
    ensures Step(p, t, e).h.chunks == t.h.chunks
    ensures Held(Step(p, t, e).core.agent) == Held(t.core.agent) + Arrival(e)
  {
    hide Served, Apply;
    assert Held(t.core.agent) + "" == Held(t.core.agent);
  }

  /** No step drops, repeats or reorders what the client sent on its way into the chunks. */
  lemma StepCarries(p: Params, t: Tunnel, e: Event)
    requires AgentInv(t.core.agent) && Enabled(p, t, e)
    ensures Carried(Step(p, t, e)) == Carried(t) + Arrival(e)
  {
    hide AgentInv, Step, Served, Join, Held, Enabled;
    assert Carried(t) + "" == Carried(t);
    if e.Serve? {
      ServedIsStep(p, t, e.env, e.sealed);
    } else if Attempt(e) {
      AttemptSameUplink(p, t, e);
      AttemptKeepsHeld(p, t, e);
    } else if e.ReadHandler? && t.core.agent.read.ReadReady? {
      ChunkTaken(p, t);
    } else if Handler(e) {
      HandlerSameUplink(p, t, e);
      HandlerKeepsHeld(p, t, e);
    } else {
      OutsideCarries(p, t, e);
      assert Join(t.h.chunks) + (Held(t.core.agent) + Arrival(e)) == Carried(t) + Arrival(e);
    }
  }

  lemma ServedIsStep(p: Params, t: Tunnel, env: Env, sealed: bool)
    requires Enabled(p, t, Serve(env, sealed))
    ensures Step(p, t, Serve(env, sealed)).h.chunks == t.h.chunks
    ensures Held(Step(p, t, Serve(env, sealed)).core.agent) == Held(t.core.agent)
  {
    hide Served;
    ServeKeepsHeld(p, t, env, sealed);
  }

  lemma ChunkTaken(p: Params, t: Tunnel)
    requires Enabled(p, t, ReadHandler) && t.core.agent.read.ReadReady?
    ensures Carried(Step(p, t, ReadHandler)) == Carried(t)
  {
    var chunks, chunk := t.h.chunks, t.core.agent.read.chunk;
    ReadHandlerUplink(p, t);
    assert (chunks + [chunk])[..|chunks|] == chunks;
    assert Held(Step(p, t, ReadHandler).core.agent) == "";
  }

  /** The recorded chunks, with the one still held, are the client's stream. */
  lemma {:induction false} ChunksAreClientBytes(p: Params, t: Tunnel, events: seq<Event>)
    requires AgentInv(t.core.agent) && IsRun(p, t, events)
    ensures Carried(Run(p, t, events)) == Carried(t) + ClientBytes(events)
    decreases events
  {
    hide AgentInv, Step, Enabled, Carried, Arrival;
    if events != [] {
      AgentStep(p, t, events[0]);
      StepCarries(p, t, events[0]);
      ChunksAreClientBytes(p, Step(p, t, events[0]), events[1..]);
      var first, rest := Arrival(events[0]), ClientBytes(events[1..]);
      assert (Carried(t) + first) + rest == Carried(t) + (first + rest);
    }
  }

  /** The bytes the session's destination has been given. */
  function Written(t: Tunnel): Str {
    if t.h.target.Some? && t.h.target.value < |t.core.table.targets| then
      t.core.table.targets[t.h.target.value].written
    else ""
  }

  predicate TargetOpen(t: Tunnel) {
    t.h.target.Some? && t.h.target.value < |t.core.table.targets| && t.core.table.targets[t.h.target.value].open
  }

  /** Retry multiplicity, in every reachable state and under every schedule of faults: while
      the destination is open it has been given the early data and then each client chunk as
      adjacent copies in chunk order, at most two with connection reuse and at most one
      without. */
  lemma ChunksAtMostTwice(p: Params, table: Table, events: seq<Event>)
    requires Ready(p, table) && table.Valid() && IsRun(p, Start(p, table), events)
    ensures
      var t := Run(p, Start(p, table), events);
      && |t.h.chunks| == |t.h.copies|
      && (forall i :: 0 <= i < |t.h.copies| ==> t.h.copies[i] <= if p.reuse then 2 else 1)
      && (TargetOpen(t) ==> Written(t) == p.early + Spread(t.h.chunks, t.h.copies))
  {
    hide IsRun, Run, Params.Valid, AgentInv, Ready, Start;
    StartUplink(p, table);
    assert p.Valid() by { ReadyParts(p, table); }
    RunUplink(p, Start(p, table), events);
    TornNothing(p, Run(p, Start(p, table), events));
  }

  lemma ReadyParts(p: Params, table: Table)
    requires Ready(p, table)
    ensures p.Valid()
  {
  }

  lemma TornNothing(p: Params, t: Tunnel)
    requires UplinkInv(p, t)
    ensures |t.h.chunks| == |t.h.copies| && (forall i :: 0 <= i < |t.h.copies| ==> t.h.copies[i] <= Bound(p))
    ensures TargetOpen(t) ==> Written(t) == p.early + Spread(t.h.chunks, t.h.copies)
  {
    if TargetOpen(t) {
      var s: Str := Spread(t.h.chunks, t.h.copies);
      assert p.early + s + "" == p.early + s;
    }
  }

  /** Conservation: without faults the destination's bytes are a prefix of what the client
      sent, early data first, nothing lost, repeated or reordered; and all of it once no chunk
      is held or in flight, as long as the destination itself stays open. */
  lemma UplinkConserved(p: Params, table: Table, events: seq<Event>)
    requires Ready(p, table) && table.Valid() && IsRun(p, Start(p, table), events)
    requires Run(p, Start(p, table), events).h.faults == 0
    ensures
      var t := Run(p, Start(p, table), events);
      && Written(t) <= p.early + ClientBytes(events)
      && (TargetOpen(t) && !InFlight(t) ==> Written(t) + Held(t.core.agent) == p.early + ClientBytes(events))
  {
    hide IsRun, Run, Params.Valid, AgentInv, Ready, Start, ClientBytes, Join, Held, Written, TargetOpen, InFlight;
    StartUplink(p, table);
    assert p.Valid() by { ReadyParts(p, table); }
    RunUplink(p, Start(p, table), events);
    var t := Run(p, Start(p, table), events);
    ExactMeansPrefix(p, t);
    ChunksAreClientBytes(p, Start(p, table), events);
    NothingCarriedYet(p, table, ClientBytes(events));
    CarriedSplits(p.early, Join(t.h.chunks), Held(t.core.agent), ClientBytes(events));
  }

  lemma NothingCarriedYet(p: Params, table: Table, sent: Str)
    ensures Carried(Start(p, table)) + sent == sent
  {
    assert Join([]) + "" + sent == sent;
  }

  lemma CarriedSplits(early: Str, posted: Str, held: Str, sent: Str)
    requires posted + held == sent
    ensures (early + posted) + held == early + sent && early + posted <= early + sent
  {
    assert early + (posted + held) == (early + posted) + held;
  }

  lemma ExactMeansPrefix(p: Params, t: Tunnel)
    requires UplinkInv(p, t) && t.h.faults == 0
    ensures Written(t) <= p.early + Join(t.h.chunks)
    ensures TargetOpen(t) && !InFlight(t) ==> Written(t) == p.early + Join(t.h.chunks)
  {
    hide AgentInv;
    var h := t.h;
    SpreadOnce(h.chunks, h.copies, h.landed);
    JoinPrefix(h.chunks, h.landed, h.tail);
    if AllZero(h.copies) {
      SpreadNothing(h.chunks, h.copies);
    }
    if h.target.Some? && h.first == p.early {
      PrefixUnder(p.early, Join(h.chunks[..h.landed]), h.tail, Join(h.chunks));
      if TargetOpen(t) && !InFlight(t) {
        assert h.chunks[..h.landed] == h.chunks;
        assert p.early + Join(h.chunks) + "" == p.early + Join(h.chunks);
      }
    } else if h.target.Some? {
      EmptyTail(h.first, p.early, Join(h.chunks));
    }
  }

  lemma PrefixUnder(a: Str, b: Str, c: Str, whole: Str)
    requires b + c <= whole
    ensures a + b + c <= a + whole
  {
    assert a + b + c == a + (b + c);
  }

  lemma EmptyTail(first: Str, early: Str, more: Str)
    requires first <= early
    ensures first + "" + "" <= early + more
  {
    assert first + "" + "" == first;
  }

  lemma {:induction false} SpreadOnce(chunks: seq<Str>, copies: seq<nat>, k: nat)
    requires |chunks| == |copies| && k <= |chunks|
    requires forall i :: 0 <= i < |copies| ==> copies[i] == if i < k then 1 else 0
    ensures Spread(chunks, copies) == Join(chunks[..k])
  {
    if chunks != [] {
      var n := |chunks| - 1;
      if k == |chunks| {
        SpreadOnce(chunks[..n], copies[..n], n);
        assert chunks[..k] == chunks && chunks[..n][..n] == chunks[..n];
        assert Repeat(chunks[n], 1) == "" + chunks[n] == chunks[n] by { assert Repeat(chunks[n], 0) == ""; }
      } else {
        SpreadOnce(chunks[..n], copies[..n], k);
        assert chunks[..n][..k] == chunks[..k];
      }
    }
  }

  lemma {:induction false} JoinPrefix(chunks: seq<Str>, k: nat, tail: Str)
    requires k <= |chunks|
    requires tail <= if k < |chunks| then chunks[k] else ""
    ensures Join(chunks[..k]) + tail <= Join(chunks)
  {
    if k == |chunks| {
      assert chunks[..k] == chunks;
    } else {
      var n := |chunks| - 1;
      if k == n {
        assert Join(chunks[..n]) + tail <= Join(chunks[..n]) + chunks[n];
      } else {
        JoinPrefix(chunks[..n], k, tail);
        assert chunks[..n][..k] == chunks[..k];
      }
    }
  }

  /** Once a dialled destination is shut, no later step of any run gives it a byte. */
  lemma {:induction false} DialledStaysShut(p: Params, t: Tunnel, events: seq<Event>)
    requires p.Valid() && UplinkInv(p, t) && IsRun(p, t, events)
    requires t.h.target.Some? && !TargetOpen(t)
    ensures !TargetOpen(Run(p, t, events)) && Written(Run(p, t, events)) == Written(t)
    decreases events
  {
    hide UplinkInv, Step, Enabled, Params.Valid;
    if events != [] {
      ExactStep(p, t, events[0]);
      ShutStaysShut(p, t, events[0]);
      DialledStaysShut(p, Step(p, t, events[0]), events[1..]);
    }
  }

  lemma ShutStaysShut(p: Params, t: Tunnel, e: Event)
    requires p.Valid() && UplinkInv(p, t) && Enabled(p, t, e)
    requires t.h.target.Some? && !TargetOpen(t)
    ensures Step(p, t, e).h.target == t.h.target
    ensures !TargetOpen(Step(p, t, e)) && Written(Step(p, t, e)) == Written(t)
  {
    hide AgentInv, Uplink, Exact, Params.Valid, Params.Raw;
    match e
    case Serve(env, sealed) => ServeLeavesShut(p, t, env, sealed);
    case Other(session, action, message, env) => OtherLeavesShut(p, t, e);
    case Emits(_, _) =>
    case _ => QuietStep(p, t, e);
  }

  lemma OtherLeavesShut(p: Params, t: Tunnel, e: Event)
    requires UplinkInv(p, t) && Enabled(p, t, e) && e.Other?
    requires t.h.target.Some? && !TargetOpen(t)
    ensures Step(p, t, e).h.target == t.h.target
    ensures !TargetOpen(Step(p, t, e)) && Written(Step(p, t, e)) == Written(t)
  {
    hide Apply, AgentInv, Uplink, Exact;
    OtherKeepsOurs(p, t, e.session, e.action, e.message, e.otherEnv);
  }

  lemma ServeLeavesShut(p: Params, t: Tunnel, env: Env, sealed: bool)
    requires p.Valid() && UplinkInv(p, t) && Enabled(p, t, Serve(env, sealed))
    requires t.h.target.Some? && !TargetOpen(t)
    ensures Served(p, t, env, sealed).h.target == t.h.target
    ensures !TargetOpen(Served(p, t, env, sealed)) && Written(Served(p, t, env, sealed)) == Written(t)
  {
    hide Served, AgentInv, Uplink, Exact, Params.Valid, Params.Raw;
    match t.core.agent.phase.post.action
    case ActOpen =>
    case ActSend => ServedSend(p, t, env, sealed);
    case ActRecv => ServedRecv(p, t, env, sealed);
    case ActClose => ServedClose(p, t, env, sealed);
  }
}
