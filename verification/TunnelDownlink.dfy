/** The way down over whole runs: what the destination emits reaches the client once, in
    order, and is accounted for at every step. */
module TunnelDownlink {
  import opened AgentLoop
  import opened Bytes
  import opened PolledTunnel
  import opened Server
  import opened TunnelInvariants
  import opened TunnelUplink

  predicate Settled(f: Fate) {
    f == Delivered || f == Lost
  }

  /** What of a payload the client's socket has taken, the write in progress aside. */
  function Share(payload: Str, f: Fate): Str {
    match f
    case Delivered => payload
    case Cut(n) => payload[..Min(n, |payload|)]
    case _ => ""
  }

  function Got(payloads: seq<Str>, fates: seq<Fate>): Str
    requires |payloads| == |fates|
  {
    if payloads == [] then ""
    else Got(payloads[..|payloads| - 1], fates[..|fates| - 1]) + Share(payloads[|payloads| - 1], fates[|fates| - 1])
  }

  /** The part of the last payload the write in progress has passed on. */
  function Passed(t: Tunnel): Str {
    var a := t.core.agent;
    if a.started && a.write.Writing? then a.write.data[..Min(a.write.sent, |a.write.data|)] else ""
  }

  /** The last payload's fate says where it is. */
  predicate LastFate(t: Tunnel, payload: Str, f: Fate) {
    var a := t.core.agent;
    match f
    case InResponse => t.Busy(ActRecv) && t.stage == Answered(payload)
    case InWrite => a.started && a.write.Writing? && a.write.data == payload
    case Cut(n) => n <= |payload| && a.started && (a.tunnelClosed || a.write == WriteDone(false))
    case _ => true
  }

  ghost predicate Downlink(p: Params, t: Tunnel) {
    var h, a := t.h, t.core.agent;
    var n := |h.payloads|;
    && |h.fates| == n
    && (forall i :: 0 <= i < n ==> 1 <= |h.payloads[i]| <= p.config.bufferSize)
    && (forall i :: 0 <= i < n - 1 ==> Settled(h.fates[i]))
    && (n > 0 ==> LastFate(t, h.payloads[n - 1], h.fates[n - 1]))
    && (t.Busy(ActRecv) && t.stage.Answered? && t.stage.plain != "" ==> n > 0 && h.fates[n - 1] == InResponse)
    && (a.started && a.write.Writing? ==> n > 0 && h.fates[n - 1] == InWrite)
    && (!a.started ==> n == 0)
    && (h.faults == 0 ==> forall i :: 0 <= i < n ==> h.fates[i] != Lost)
    && h.toClient == Got(h.payloads, h.fates) + Passed(t)
    && (h.target.None? ==> n == 0)
    && (h.target.Some? && h.target.value < |t.core.table.targets| ==>
          var d := t.core.table.targets[h.target.value];
          d.emitted == Join(h.payloads) + d.unread)
  }

  ghost predicate DownlinkInv(p: Params, t: Tunnel) {
    AgentInv(t.core.agent) && Ours(p, t) && Downlink(p, t)
  }

  lemma GotAppend(payloads: seq<Str>, fates: seq<Fate>, payload: Str, f: Fate)
    requires |payloads| == |fates|
    ensures Got(payloads + [payload], fates + [f]) == Got(payloads, fates) + Share(payload, f)
    ensures Join(payloads + [payload]) == Join(payloads) + payload
  {
    assert (payloads + [payload])[..|payloads|] == payloads && (fates + [f])[..|fates|] == fates;
  }

  lemma GotLast(payloads: seq<Str>, fates: seq<Fate>, f: Fate)
    requires |payloads| == |fates| && fates != []
    ensures
      var n := |fates| - 1;
      && Got(payloads, fates) == Got(payloads[..n], fates[..n]) + Share(payloads[n], fates[n])
      && Got(payloads, Last(fates, f)) == Got(payloads[..n], fates[..n]) + Share(payloads[n], f)
  {
    assert Last(fates, f)[..|fates| - 1] == fates[..|fates| - 1];
  }

  // ----- the server's read ---------------------------------------------------------------------------

  lemma RecvTakes(p: Params, t: Tunnel, env: Env)
    requires Ours(p, t)
    ensures
      var eff := Server.Recv(p.config, t.core.table, p.session, env);
      && eff.reply.Reply? && |eff.reply.plain| <= p.config.bufferSize
      && (t.h.target.None? ==> eff.reply.plain == "")
      && |eff.table.targets| == |t.core.table.targets|
      && (t.h.target.Some? ==>
            var before, after := t.core.table.targets[t.h.target.value], eff.table.targets[t.h.target.value];
            after.emitted == before.emitted && before.unread == eff.reply.plain + after.unread)
  {
  }

  lemma ServeRecvKeepsDownlink(p: Params, t: Tunnel, env: Env, sealed: bool)
    requires DownlinkInv(p, t) && Enabled(p, t, Serve(env, sealed)) && t.Busy(ActRecv)
    ensures Downlink(p, Served(p, t, env, sealed))
  {
    hide Served, Server.Recv, Share, Got, Join;
    ServedRecv(p, t, env, sealed);
    RecvTakes(p, t, env);
    var eff := Server.Recv(p.config, t.core.table, p.session, env);
    var payload := eff.reply.plain;
    GotAppend(t.h.payloads, t.h.fates, payload, if sealed then InResponse else Lost);
    NothingShared(payload);
    if t.h.target.Some? {
      OursInRange(p, t);
      JoinRegroup(t.h.payloads, payload, eff.table.targets[t.h.target.value].unread);
    }
  }

  lemma NothingShared(payload: Str)
    ensures Share(payload, InResponse) == "" && Share(payload, Lost) == "" && Share(payload, InWrite) == ""
    ensures Share(payload, Delivered) == payload
  {
  }

  lemma JoinRegroup(payloads: seq<Str>, payload: Str, rest: Str)
    ensures Join(payloads) + (payload + rest) == (Join(payloads) + payload) + rest
  {
  }

  lemma OtherServesKeepDownlink(p: Params, t: Tunnel, env: Env, sealed: bool)
    requires p.Valid() && DownlinkInv(p, t) && Enabled(p, t, Serve(env, sealed)) && !t.Busy(ActRecv)
    ensures Downlink(p, Served(p, t, env, sealed))
  {
    hide Served, DownlinkInv, Downlink, Params.Valid, Params.Raw, Apply;
    match t.core.agent.phase.post.action
    case ActOpen => OpenKeepsDownlink(p, t, env, sealed);
    case ActSend => SendKeepsDownlink(p, t, env, sealed);
    case ActClose => CloseKeepsDownlink(p, t, env, sealed);
  }

  lemma SendKeepsPayloads(h: History, chunk: Str, env: Env)
    ensures
      var n := SendRecorded(h, chunk, env);
      && n.payloads == h.payloads && n.fates == h.fates && n.toClient == h.toClient
      && n.target == h.target && n.faults == h.faults
  {
  }

  lemma SendKeepsDownlink(p: Params, t: Tunnel, env: Env, sealed: bool)
    requires DownlinkInv(p, t) && Enabled(p, t, Serve(env, sealed)) && t.Busy(ActSend)
    ensures Downlink(p, Served(p, t, env, sealed))
  {
    hide Served, Got, Join, WriteTo, Share, AgentInv, SendRecorded;
    ServedSend(p, t, env, sealed);
    SendKeepsPayloads(Faulted(t.h, sealed), t.core.agent.phase.post.body, env);
  }

  lemma CloseKeepsDownlink(p: Params, t: Tunnel, env: Env, sealed: bool)
    requires DownlinkInv(p, t) && Enabled(p, t, Serve(env, sealed)) && t.Busy(ActClose)
    ensures Downlink(p, Served(p, t, env, sealed))
  {
    hide Served, Got, Join;
    ServedClose(p, t, env, sealed);
  }

  lemma OpenKeepsDownlink(p: Params, t: Tunnel, env: Env, sealed: bool)
    requires p.Valid() && DownlinkInv(p, t) && Enabled(p, t, Serve(env, sealed)) && t.Busy(ActOpen)
    ensures Downlink(p, Served(p, t, env, sealed))
  {
    hide Served, Got, Params.Valid, Params.Raw;
    ServedOpen(p, t, env, sealed);
  }

  // ----- everything else ---------------------------------------------------------------------------------

  lemma TableStepKeepsDownlink(p: Params, t: Tunnel, e: Event)
    requires DownlinkInv(p, t) && Enabled(p, t, e) && (e.Other? || e.Emits?)
    ensures Downlink(p, Step(p, t, e))
  {
    hide Apply, Got, Join, AgentInv;
    if e.Other? {
      OtherKeepsOurs(p, t, e.session, e.action, e.message, e.otherEnv);
    } else if t.h.target == Some(e.id) {
      var d := t.core.table.targets[e.id];
      JoinRegroupEnd(t.h.payloads, d.unread, e.data);
    }
  }

  lemma JoinRegroupEnd(payloads: seq<Str>, unread: Str, data: Str)
    ensures (Join(payloads) + unread) + data == Join(payloads) + (unread + data)
  {
  }

  /** The client and the clock move; writes do not. */
  lemma ArrivalsKeepDownlink(p: Params, t: Tunnel, e: Event)
    requires DownlinkInv(p, t) && Enabled(p, t, e) && (e.Delivers? || e.Ends? || e.Expires? || e.Transmit?)
    ensures Downlink(p, Step(p, t, e))
  {
    hide Apply, Got, Join, Served, Ours;
  }

  lemma ProgressKeepsDownlink(p: Params, t: Tunnel, k: nat)
    requires DownlinkInv(p, t) && Enabled(p, t, Progress(k))
    ensures Downlink(p, Step(p, t, Progress(k)))
  {
    hide Apply, Got, Join, Served, Ours;
    var w := t.core.agent.write;
    assert w.data[..w.sent] + w.data[w.sent..w.sent + k] == w.data[..w.sent + k];
    var got := Got(t.h.payloads, t.h.fates);
    assert (got + w.data[..w.sent]) + w.data[w.sent..w.sent + k] ==
           got + (w.data[..w.sent] + w.data[w.sent..w.sent + k]);
  }

  lemma SentInRange(a: Agent)
    requires AgentInv(a) && a.write.Writing?
    ensures a.write.sent <= |a.write.data|
  {
  }

  lemma WriteEndsKeepsDownlink(p: Params, t: Tunnel, ok: bool)
    requires DownlinkInv(p, t) && Enabled(p, t, WriteEnds(ok))
    ensures Downlink(p, Step(p, t, WriteEnds(ok)))
  {
    hide Apply, Join, Served, Ours, Got, Share, AgentInv;
    if t.core.agent.started {
      SentInRange(t.core.agent);
      StartedWriteEnds(p, t, ok);
    }
  }

  lemma StartedWriteEnds(p: Params, t: Tunnel, ok: bool)
    requires Downlink(p, t) && Enabled(p, t, WriteEnds(ok))
    requires t.core.agent.started && t.core.agent.write.sent <= |t.core.agent.write.data|
    ensures Downlink(p, WriteEnded(t, ok))
  {
    hide Apply, Join, Served, Got, Share;
    var a, n := t.core.agent, WriteEnded(t, ok);
    WriteSettles(t.h.payloads, t.h.fates, a.write.sent, ok);
    assert Passed(t) == a.write.data[..a.write.sent] && Passed(n) == "";
    assert n.h.toClient == Got(n.h.payloads, n.h.fates) + Passed(n) by { NothingAdded(Got(n.h.payloads, n.h.fates)); }
  }

  lemma NothingAdded(s: Str)
    ensures s + "" == s
  {
  }

  /** Ending a write turns what was passed on so far into the payload's share. */
  lemma WriteSettles(payloads: seq<Str>, fates: seq<Fate>, sent: nat, ok: bool)
    requires |payloads| == |fates| && fates != [] && fates[|fates| - 1] == InWrite
    requires sent <= |payloads[|payloads| - 1]| && (ok ==> sent == |payloads[|payloads| - 1]|)
    ensures Got(payloads, Last(fates, if ok then Delivered else Cut(sent))) ==
            Got(payloads, fates) + payloads[|payloads| - 1][..sent]
  {
    hide Got;
    GotLast(payloads, fates, if ok then Delivered else Cut(sent));
    var payload, before := payloads[|payloads| - 1], Got(payloads[..|payloads| - 1], fates[..|payloads| - 1]);
    assert ok ==> payload[..sent] == payload;
    assert before + "" == before;
  }

  // ----- handlers and returns --------------------------------------------------------------------------

  /** How the strand may leave a client write alone: as it was, cut by a shutdown once the
      tunnel is closed, or taken up by its own handler. Before the start there are no payloads
      to mind. */
  predicate Undisturbed(a: Agent, b: Agent) {
    || (!a.started && !b.started)
    || (!a.started && a.write.WriteDone? && b.write == NoWrite)
    || (a.started && b.started && (a.tunnelClosed ==> b.tunnelClosed)
        && (|| b.write == a.write
            || (a.write.Writing? && b.write == WriteDone(false) && b.tunnelClosed)
            || (a.write.WriteDone? && b.write == NoWrite && (a.write.ok || b.tunnelClosed))))
  }

  predicate NothingInResponse(h: History) {
    h.fates == [] || h.fates[|h.fates| - 1] != InResponse
  }

  lemma AfterKeepsDownlink(p: Params, t: Tunnel, c: Core)
    requires AgentInv(t.core.agent) && Downlink(p, t) && NothingInResponse(t.h)
    requires c.table == t.core.table && Undisturbed(t.core.agent, c.agent)
    ensures Downlink(p, After(t, c))
  {
    hide Join, Got;
    var a := t.core.agent;
    if a.started && a.write.Writing? && c.agent.write == WriteDone(false) {
      WriteSettles(t.h.payloads, t.h.fates, a.write.sent, false);
    }
  }

  lemma ReturnUndisturbed(c: Core, result: Str)
    requires AgentInv(c.agent) && c.agent.phase.Busy?
    requires c.agent.phase.post.action == ActRecv ==> result == ""
    ensures Undisturbed(c.agent, Return(c, result).agent)
  {
  }

  lemma AttemptUndisturbed(c: Core, result: Str, reuse: bool)
    requires AgentInv(c.agent) && c.agent.phase.Busy?
    ensures Undisturbed(c.agent, Fail(c, reuse).agent) && Undisturbed(c.agent, FailToSeal(c, reuse).agent)
    ensures (c.agent.phase.post.action == ActRecv ==> result == "") ==>
              Undisturbed(c.agent, Answer(c, result, reuse).agent)
  {
    hide AgentInv, Return, Undisturbed;
    ReturnUndisturbed(c.(connOpen := true), "");
    ReturnUndisturbed(c.(connOpen := false), "");
    if c.agent.phase.post.action != ActRecv || result == "" {
      ReturnUndisturbed(c, result);
      ReturnUndisturbed(c.(connOpen := false), result);
    }
    RetryUndisturbed(c.agent);
  }

  lemma RetryUndisturbed(a: Agent)
    requires a.phase.Busy?
    ensures Undisturbed(a, a.(phase := AgentLoop.Phase.Busy(a.phase.post, 2)))
  {
  }

  lemma HandlerUndisturbed(p: Params, t: Tunnel, e: Event)
    requires AgentInv(t.core.agent) && Enabled(p, t, e) && Handler(e)
    ensures Undisturbed(t.core.agent, Step(p, t, e).core.agent)
  {
  }

  /** A response that carried a payload and never arrived: the payload is lost, for good. */
  lemma LostKeepsDownlink(p: Params, t: Tunnel)
    requires DownlinkInv(p, t) && t.core.agent.phase.Busy?
    ensures
      var lost := t.h.fates != [] && t.h.fates[|t.h.fates| - 1] == InResponse;
      var h := t.h.(faults := t.h.faults + 1, fates := if lost then Last(t.h.fates, Lost) else t.h.fates);
      Downlink(p, t.(h := h, stage := Prepare)) && NothingInResponse(h)
  {
    hide Join, Got, Share, AgentInv, Ours;
    if t.h.fates != [] {
      GotLast(t.h.payloads, t.h.fates, Lost);
      NothingShared(t.h.payloads[|t.h.payloads| - 1]);
    }
  }

  lemma FailKeepsDownlink(p: Params, t: Tunnel, e: Event)
    requires DownlinkInv(p, t) && Enabled(p, t, e) && (e.Fails? || e.SealFails?)
    ensures Downlink(p, Step(p, t, e))
  {
    hide Downlink, Ours, AgentInv, Fail, FailToSeal, Undisturbed;
    var lost := t.h.fates != [] && t.h.fates[|t.h.fates| - 1] == InResponse;
    var h := t.h.(faults := t.h.faults + 1, fates := if lost then Last(t.h.fates, Lost) else t.h.fates);
    var c := if e.Fails? then Fail(t.core, p.reuse) else FailToSeal(t.core, p.reuse);
    LostKeepsDownlink(p, t);
    AttemptUndisturbed(t.core, "", p.reuse);
    AfterKeepsDownlink(p, t.(h := h, stage := Prepare), c);
  }

  lemma HandlerKeepsDownlink(p: Params, t: Tunnel, e: Event)
    requires DownlinkInv(p, t) && Enabled(p, t, e) && Handler(e)
    ensures Downlink(p, Step(p, t, e))
  {
    hide Join, Got, Ours, AgentInv, Undisturbed;
    HandlerUndisturbed(p, t, e);
    HandlerIsAfter(p, t, e);
    var h := Step(p, t, e).h;
    AfterKeepsDownlink(p, t.(h := t.h.(chunks := h.chunks, copies := h.copies)), Step(p, t, e).core);
  }

  /** A handler changes the history only by the chunk it posts and what `After` records. */
  lemma HandlerIsAfter(p: Params, t: Tunnel, e: Event)
    requires Enabled(p, t, e) && Handler(e)
    ensures
      var n := Step(p, t, e);
      n == After(t.(h := t.h.(chunks := n.h.chunks, copies := n.h.copies)), n.core) && n.core.table == t.core.table
  {
  }

  lemma ReceiveKeepsDownlink(p: Params, t: Tunnel)
    requires DownlinkInv(p, t) && Enabled(p, t, Receive)
    ensures Downlink(p, Step(p, t, Receive))
  {
    if t.Busy(ActRecv) && t.stage.plain != "" {
      PayloadPassedOn(p, t);
    } else {
      PlainAnswerKeepsDownlink(p, t);
    }
  }

  lemma PlainAnswerKeepsDownlink(p: Params, t: Tunnel)
    requires DownlinkInv(p, t) && Enabled(p, t, Receive) && (t.Busy(ActRecv) ==> t.stage.plain == "")
    ensures Downlink(p, Step(p, t, Receive))
  {
    hide Join, Got, Ours, AgentInv, Undisturbed, Answer;
    AttemptUndisturbed(t.core, t.stage.plain, p.reuse);
    AfterKeepsDownlink(p, t.(stage := Prepare), Answer(t.core, t.stage.plain, p.reuse));
  }

  /** The answered payload becomes the client write in progress. */
  lemma PayloadPassedOn(p: Params, t: Tunnel)
    requires DownlinkInv(p, t) && Enabled(p, t, Receive) && t.Busy(ActRecv) && t.stage.plain != ""
    ensures Downlink(p, Step(p, t, Receive))
  {
    hide Join, Got, Share;
    GotLast(t.h.payloads, t.h.fates, InWrite);
    NothingShared(t.h.payloads[|t.h.payloads| - 1]);
  }

  lemma DownlinkStep(p: Params, t: Tunnel, e: Event)
    requires p.Valid() && DownlinkInv(p, t) && Enabled(p, t, e)
    ensures DownlinkInv(p, Step(p, t, e))
  {
    hide AgentInv, Ours, Downlink, Params.Valid, Apply;
    AgentStep(p, t, e);
    OursStep(p, t, e);
    match e
    case Serve(env, sealed) =>
      if t.Busy(ActRecv) {
        ServeRecvKeepsDownlink(p, t, env, sealed);
      } else {
        OtherServesKeepDownlink(p, t, env, sealed);
      }
    case Other(_, _, _, _) => TableStepKeepsDownlink(p, t, e);
    case Emits(_, _) => TableStepKeepsDownlink(p, t, e);
    case Progress(k) => ProgressKeepsDownlink(p, t, k);
    case WriteEnds(ok) => WriteEndsKeepsDownlink(p, t, ok);
    case Receive => ReceiveKeepsDownlink(p, t);
    case Fails => FailKeepsDownlink(p, t, e);
    case SealFails => FailKeepsDownlink(p, t, e);
    case Delivers(_) => ArrivalsKeepDownlink(p, t, e);
    case Ends => ArrivalsKeepDownlink(p, t, e);
    case Expires => ArrivalsKeepDownlink(p, t, e);
    case Transmit => ArrivalsKeepDownlink(p, t, e);
    case _ => HandlerKeepsDownlink(p, t, e);
  }

  // ----- over runs ------------------------------------------------------------------------------------

  lemma StartDownlink(p: Params, table: Table)
    requires Ready(p, table) && table.Valid()
    ensures DownlinkInv(p, Start(p, table))
  {
  }

  lemma {:induction false} RunDownlink(p: Params, t: Tunnel, events: seq<Event>)
    requires p.Valid() && DownlinkInv(p, t) && IsRun(p, t, events)
    ensures DownlinkInv(p, Run(p, t, events))
    decreases events
  {
    hide DownlinkInv, Step, Enabled, Params.Valid;
    if events != [] {
      DownlinkStep(p, t, events[0]);
      RunDownlink(p, Step(p, t, events[0]), events[1..]);
    }
  }

  /** The part of the last payload that has not reached the client's socket: in the response,
      in the write in progress, or cut off when the tunnel closed. */
  function InTransit(t: Tunnel): Str {
    var n := |t.h.payloads|;
    if n == 0 || |t.h.fates| != n then ""
    else Rest(t.h.payloads[n - 1], t.h.fates[n - 1], Passed(t))
  }

  function Rest(payload: Str, f: Fate, passed: Str): Str {
    match f
    case InResponse => payload
    case InWrite => payload[Min(|passed|, |payload|)..]
    case Cut(k) => payload[Min(k, |payload|)..]
    case _ => ""
  }

  /** The payloads delivered whole, in order. */
  function Kept(payloads: seq<Str>, fates: seq<Fate>): seq<Str>
    requires |payloads| == |fates|
  {
    if payloads == [] then []
    else
      Kept(payloads[..|payloads| - 1], fates[..|fates| - 1])
      + if fates[|fates| - 1] == Delivered then [payloads[|payloads| - 1]] else []
  }

  /** `a` is `b` with some elements left out. */
  predicate Subsequence(a: seq<Str>, b: seq<Str>) {
    a == [] || (b != [] &&
      if a[|a| - 1] == b[|b| - 1] then Subsequence(a[..|a| - 1], b[..|b| - 1]) || Subsequence(a, b[..|b| - 1])
      else Subsequence(a, b[..|b| - 1]))
  }

  lemma {:induction false} KeptIsSubsequence(payloads: seq<Str>, fates: seq<Fate>)
    requires |payloads| == |fates|
    ensures Subsequence(Kept(payloads, fates), payloads)
  {
    if payloads != [] {
      var n := |payloads| - 1;
      KeptIsSubsequence(payloads[..n], fates[..n]);
      var before := Kept(payloads[..n], fates[..n]);
      if fates[n] == Delivered {
        assert (before + [payloads[n]])[..|before|] == before;
      } else {
        assert before + [] == before;
      }
    }
  }

  /** When all but the last fate are settled, the client has the kept payloads and its share
      of the last. */
  lemma {:induction false} GotIsKept(payloads: seq<Str>, fates: seq<Fate>)
    requires |payloads| == |fates|
    requires forall i :: 0 <= i < |fates| ==> Settled(fates[i])
    ensures Got(payloads, fates) == Join(Kept(payloads, fates))
  {
    if payloads != [] {
      var n := |payloads| - 1;
      var before := Kept(payloads[..n], fates[..n]);
      GotIsKept(payloads[..n], fates[..n]);
      assert before + [] == before;
      assert (before + [payloads[n]])[..|before|] == before;
    }
  }

  /** On the way down under every schedule of faults: the payloads the client received whole
      are an in-order subsequence of those the server read, none twice, followed by at most
      part of the last; and the server's reads, with what is unread, are all the destination
      emitted. */
  lemma NoPayloadTwice(p: Params, table: Table, events: seq<Event>)
    requires Ready(p, table) && table.Valid() && IsRun(p, Start(p, table), events)
    ensures
      var t := Run(p, Start(p, table), events);
      && |t.h.payloads| == |t.h.fates|
      && Subsequence(Kept(t.h.payloads, t.h.fates), t.h.payloads)
      && (exists part: Str :: t.h.toClient == Join(Kept(t.h.payloads, t.h.fates)) + part
            && (part != "" ==> t.h.payloads != [] && part <= t.h.payloads[|t.h.payloads| - 1]
                               && t.h.fates[|t.h.fates| - 1] != Delivered))
      && (t.h.target.Some? && t.h.target.value < |t.core.table.targets| ==>
            var d := t.core.table.targets[t.h.target.value]; d.emitted == Join(t.h.payloads) + d.unread)
  {
    hide IsRun, Run, Params.Valid, AgentInv, Ready, Start;
    StartDownlink(p, table);
    assert p.Valid() by { ReadyParts(p, table); }
    RunDownlink(p, Start(p, table), events);
    var t := Run(p, Start(p, table), events);
    var part := KeptAndPart(p, t);
    KeptIsSubsequence(t.h.payloads, t.h.fates);
  }

  lemma KeptAndPart(p: Params, t: Tunnel) returns (part: Str)
    requires DownlinkInv(p, t)
    ensures |t.h.payloads| == |t.h.fates|
    ensures t.h.toClient == Join(Kept(t.h.payloads, t.h.fates)) + part
    ensures part != "" ==> t.h.payloads != [] && part <= t.h.payloads[|t.h.payloads| - 1]
                           && t.h.fates[|t.h.fates| - 1] != Delivered
  {
    hide Got, Kept, Join, Share, Ours, AgentInv;
    var payloads, fates := t.h.payloads, t.h.fates;
    part := "";
    if payloads == [] {
      NothingGot(payloads, fates);
      assert t.h.toClient == "" + "";
    } else {
      var n := |payloads| - 1;
      GotByLast(payloads, fates);
      var share := Share(payloads[n], fates[n]);
      part := if fates[n] == Delivered then "" else share + Passed(t);
      PartOfLast(payloads[n], fates[n], Passed(t));
      Regroup3(Join(Kept(payloads[..n], fates[..n])), share, Passed(t));
    }
  }

  lemma NothingGot(payloads: seq<Str>, fates: seq<Fate>)
    requires payloads == [] && fates == []
    ensures Got(payloads, fates) == "" && Join(Kept(payloads, fates)) == ""
  {
  }

  /** Everything before the last payload is kept or lost; the last adds its share. */
  lemma GotByLast(payloads: seq<Str>, fates: seq<Fate>)
    requires |payloads| == |fates| && payloads != []
    requires forall i :: 0 <= i < |fates| - 1 ==> Settled(fates[i])
    ensures
      var n := |payloads| - 1;
      var before := Join(Kept(payloads[..n], fates[..n]));
      && Got(payloads, fates) == before + Share(payloads[n], fates[n])
      && Join(Kept(payloads, fates)) == if fates[n] == Delivered then before + payloads[n] else before
  {
    hide Share;
    var n := |payloads| - 1;
    var init := Kept(payloads[..n], fates[..n]);
    GotIsKept(payloads[..n], fates[..n]);
    assert init + [] == init && (init + [payloads[n]])[..|init|] == init;
  }

  lemma PartOfLast(payload: Str, f: Fate, passed: Str)
    ensures f == Delivered ==> Share(payload, f) == payload
    ensures f != InWrite && passed == "" ==> Share(payload, f) + passed <= payload
    ensures f == InWrite && passed <= payload ==> Share(payload, f) + passed <= payload
  {
    assert "" + passed == passed;
  }

  lemma Regroup3(a: Str, b: Str, c: Str)
    ensures (a + b) + c == a + (b + c)
    ensures c == "" ==> (a + b) + c == a + b && b + c == b
    ensures b == "" ==> b + c == c
  {
  }

  lemma {:induction false} GotAllDelivered(payloads: seq<Str>, fates: seq<Fate>)
    requires |payloads| == |fates| && forall i :: 0 <= i < |fates| ==> fates[i] == Delivered
    ensures Got(payloads, fates) == Join(payloads)
  {
    if payloads != [] {
      GotAllDelivered(payloads[..|payloads| - 1], fates[..|fates| - 1]);
    }
  }

  /** Conservation: without faults, at every step, the destination's bytes are those passed to
      the client, then those in transit, then those unread at the server. */
  lemma DownlinkConserved(p: Params, table: Table, events: seq<Event>)
    requires Ready(p, table) && table.Valid() && IsRun(p, Start(p, table), events)
    requires Run(p, Start(p, table), events).h.faults == 0
    ensures
      var t := Run(p, Start(p, table), events);
      && (t.h.target.None? ==> t.h.toClient == "")
      && (t.h.target.Some? && t.h.target.value < |t.core.table.targets| ==>
            var d := t.core.table.targets[t.h.target.value];
            d.emitted == t.h.toClient + InTransit(t) + d.unread)
  {
    hide IsRun, Run, Params.Valid, AgentInv, Ready, Start;
    StartDownlink(p, table);
    assert p.Valid() by { ReadyParts(p, table); }
    RunDownlink(p, Start(p, table), events);
    var t := Run(p, Start(p, table), events);
    PassedAndInTransit(p, t);
  }

  lemma PassedAndInTransit(p: Params, t: Tunnel)
    requires DownlinkInv(p, t) && t.h.faults == 0
    ensures t.h.toClient + InTransit(t) == Join(t.h.payloads)
    ensures t.h.payloads == [] ==> t.h.toClient == ""
  {
    hide Downlink, Got, Join, Share, Passed, InTransit, AgentInv, Ours;
    ClientHas(p, t);
    if t.h.payloads != [] {
      var n := |t.h.payloads| - 1;
      LastSplit(p, t);
      Regroup4(Join(t.h.payloads[..n]), Share(t.h.payloads[n], t.h.fates[n]), Passed(t), InTransit(t));
    }
  }

  lemma Regroup4(a: Str, b: Str, c: Str, d: Str)
    ensures (a + b + c) + d == a + (b + c + d)
  {
  }

  lemma ClientHas(p: Params, t: Tunnel)
    requires DownlinkInv(p, t) && t.h.faults == 0
    ensures |t.h.fates| == |t.h.payloads|
    ensures t.h.payloads == [] ==> t.h.toClient == "" && InTransit(t) == "" && Join(t.h.payloads) == ""
    ensures t.h.payloads != [] ==>
              var n := |t.h.payloads| - 1;
              && t.h.toClient == Join(t.h.payloads[..n]) + Share(t.h.payloads[n], t.h.fates[n]) + Passed(t)
              && Join(t.h.payloads) == Join(t.h.payloads[..n]) + t.h.payloads[n]
  {
    if t.h.payloads == [] {
      assert t.h.toClient == "" + "";
    } else {
      var n := |t.h.payloads| - 1;
      GotAllDelivered(t.h.payloads[..n], t.h.fates[..n]);
    }
  }

  lemma LastSplit(p: Params, t: Tunnel)
    requires DownlinkInv(p, t) && t.h.faults == 0 && t.h.payloads != []
    ensures |t.h.fates| == |t.h.payloads|
    ensures
      var payload := t.h.payloads[|t.h.payloads| - 1];
      Share(payload, t.h.fates[|t.h.fates| - 1]) + Passed(t) + InTransit(t) == payload
  {
    hide Got, Join, Share, Rest, DownlinkInv, Passed;
    var n := |t.h.payloads| - 1;
    PassedByFate(p, t);
    FateSplit(t.h.payloads[n], t.h.fates[n], Passed(t));
  }

  /** Only a payload whose write is in progress has been passed on in part. */
  lemma PassedByFate(p: Params, t: Tunnel)
    requires DownlinkInv(p, t) && t.h.faults == 0 && t.h.payloads != []
    ensures |t.h.fates| == |t.h.payloads|
    ensures
      var payload, f := t.h.payloads[|t.h.payloads| - 1], t.h.fates[|t.h.fates| - 1];
      && f != Lost && (f.Cut? ==> f.n <= |payload|)
      && (f == InWrite ==> Passed(t) <= payload) && (f != InWrite ==> Passed(t) == "")
  {
    hide Got, Join, Ours;
  }

  lemma FateSplit(payload: Str, f: Fate, passed: Str)
    requires f != Lost && (f.Cut? ==> f.n <= |payload|)
    requires if f == InWrite then passed <= payload else passed == ""
    ensures Share(payload, f) + passed + Rest(payload, f, passed) == payload
  {
  }

  /** Each payload is 1 to `bufferSize` bytes, and no poll is armed, fired or answered while a
      client write is pending. */
  lemma PollsAwaitTheClient(p: Params, table: Table, events: seq<Event>)
    requires Ready(p, table) && table.Valid() && IsRun(p, Start(p, table), events)
    ensures
      var t := Run(p, Start(p, table), events);
      && (forall i :: 0 <= i < |t.h.payloads| ==> 1 <= |t.h.payloads[i]| <= p.config.bufferSize)
      && (t.core.agent.timer != TimerOff || t.Busy(ActRecv) ==> t.core.agent.write == NoWrite)
  {
    hide IsRun, Run, Params.Valid, Ready, Start;
    StartDownlink(p, table);
    assert p.Valid() by { ReadyParts(p, table); }
    RunDownlink(p, Start(p, table), events);
  }
}
