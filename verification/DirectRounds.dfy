/** What the direct tunnel does when nothing goes wrong, and when something does: every exchange
    of chunks can be carried through both relays, and an error shuts its end. */
module DirectRounds {
  import opened Bytes
  import opened DirectTunnel

  /** An error on a loop shuts its own end, both loops of it, and nothing else: what was read and
      written so far, the other end and the links stay as they are. */
  lemma ErrorShutsItsEnd(s: Direct, loop: Loop)
    requires Inv(s) && Enabled(s, Breaks(loop))
    ensures
      var n := Step(s, Breaks(loop));
      var agentSide := loop == ClientToServer || loop == ServerToClient;
      var before, after := if agentSide then s.agent else s.server, if agentSide then n.agent else n.server;
      && !before.closed && after.closed
      && !after.down.reading && !after.down.writing && !after.up.reading && !after.up.writing
      && after.down.input == before.down.input && after.down.output == before.down.output
      && after.up.input == before.up.input && after.up.output == before.up.output
      && (if agentSide then n.server == s.server else n.agent == s.agent)
      && n.downLink == s.downLink && n.upLink == s.upLink
  {
  }

  // ----- building runs ------------------------------------------------------------------------------

  lemma {:induction false} RunConcat(s: Direct, a: seq<Event>, b: seq<Event>)
    requires IsRun(s, a) && IsRun(Run(s, a), b)
    ensures IsRun(s, a + b) && Run(s, a + b) == Run(Run(s, a), b)
    decreases a
  {
    hide Step, Enabled;
    if a == [] {
      assert a + b == b;
    } else {
      assert (a + b)[1..] == a[1..] + b;
      RunConcat(Step(s, a[0]), a[1..], b);
    }
  }

  lemma ThreeSteps(s: Direct, a: Event, b: Event, c: Event)
    requires Enabled(s, a) && Enabled(Step(s, a), b) && Enabled(Step(Step(s, a), b), c)
    ensures IsRun(s, [a, b, c]) && Run(s, [a, b, c]) == Step(Step(Step(s, a), b), c)
  {
    hide Step, Enabled;
    assert [a, b, c][1..] == [b, c] && [b, c][1..] == [c] && [c][1..] == [];
    var s2 := Step(Step(s, a), b);
    assert IsRun(s2, [c]) && Run(s2, [c]) == Step(s2, c);
    assert IsRun(Step(s, a), [b, c]) && Run(Step(s, a), [b, c]) == Run(s2, [c]);
  }

  // ----- one chunk through one loop ------------------------------------------------------------------

  function Round(loop: Loop, chunk: Str): seq<Event> {
    [Arrives(loop, chunk), Moves(loop, |chunk|), Completes(loop)]
  }

  lemma Filled(h: Hop, chunk: Str)
    requires HopInv(h, false) && h.reading && 1 <= |chunk| <= BUFFER_SIZE
    ensures
      var f := Fill(h, chunk);
      && f.writing && f.length == |chunk| && f.sent == 0 && Piece(f, |chunk|) == chunk
      && Move(f, |chunk|).sent == |chunk| && Move(f, |chunk|).length == |chunk|
      && Move(f, |chunk|).output == h.output + chunk
  {
    var f := Fill(h, chunk);
    assert f.buf[0..|chunk|] == chunk;
  }

  /** The bytes of a link after a loop has taken a chunk off it, or put one on it. */
  function DownAfter(l: Link, loop: Loop, chunk: Str): Link {
    match loop
    case ClientToServer => Carry(l, chunk)
    case AgentToTarget => if |chunk| <= |l.queue| then l.(queue := l.queue[|chunk|..]) else l
    case _ => l
  }

  function UpAfter(l: Link, loop: Loop, chunk: Str): Link {
    match loop
    case TargetToAgent => Carry(l, chunk)
    case ServerToClient => if |chunk| <= |l.queue| then l.(queue := l.queue[|chunk|..]) else l
    case _ => l
  }

  /** A loop that reads a chunk writes exactly it and reads on; the other three are untouched. */
  lemma LoopRelays(s: Direct, loop: Loop, chunk: Str)
    requires Inv(s) && HopOf(s, loop).reading && 1 <= |chunk| <= 65536 && Readable(s, loop, chunk)
    ensures IsRun(s, Round(loop, chunk))
    ensures
      var n := Run(s, Round(loop, chunk));
      && Inv(n) && HopOf(n, loop).reading
      && HopOf(n, loop).input == HopOf(s, loop).input + chunk
      && HopOf(n, loop).output == HopOf(s, loop).output + chunk
      && (forall other: Loop :: other != loop ==> HopOf(n, other) == HopOf(s, other))
      && n.downLink == DownAfter(s.downLink, loop, chunk) && n.upLink == UpAfter(s.upLink, loop, chunk)
  {
    hide HopInv, LinkInv, Fill, Move, Piece, Carry;
    PendingIsOpen(s, loop);
    Filled(HopOf(s, loop), chunk);
    var a, b, c := Arrives(loop, chunk), Moves(loop, |chunk|), Completes(loop);
    StepKeepsInv(s, a);
    FillCounts(HopOf(s, loop), chunk);
    var s1 := Step(s, a);
    StepKeepsInv(s1, b);
    MoveCounts(HopOf(s1, loop), |chunk|);
    var s2 := Step(s1, b);
    StepKeepsInv(s2, c);
    PendingIsOpen(s2, loop);
    ThreeSteps(s, a, b, c);
  }

  lemma FillCounts(h: Hop, chunk: Str)
    ensures Fill(h, chunk).writing && !Fill(h, chunk).reading && Fill(h, chunk).input == h.input + chunk
  {
  }

  lemma MoveCounts(h: Hop, k: nat)
    ensures Move(h, k).writing == h.writing && Move(h, k).reading == h.reading && Move(h, k).input == h.input
  {
  }

  // ----- through both ends ------------------------------------------------------------------------------

  /** Every loop reads, and nothing is under way. */
  predicate AtRest(s: Direct) {
    && (forall loop: Loop :: HopOf(s, loop).reading)
    && s.downLink == Link("", false) && s.upLink == Link("", false)
  }

  /** A chunk one side hands over: from the client downwards, or from the target upwards. */
  datatype Job = Job(down: bool, chunk: Str)

  function Path(job: Job): seq<Event> {
    if job.down then Round(ClientToServer, job.chunk) + Round(AgentToTarget, job.chunk)
    else Round(TargetToAgent, job.chunk) + Round(ServerToClient, job.chunk)
  }

  function Paths(jobs: seq<Job>): seq<Event> {
    if jobs == [] then [] else Path(jobs[0]) + Paths(jobs[1..])
  }

  function Chunks(jobs: seq<Job>, down: bool): Str {
    if jobs == [] then ""
    else (if jobs[0].down == down then jobs[0].chunk else "") + Chunks(jobs[1..], down)
  }

  /** One chunk goes all the way, and everything is at rest again. */
  lemma JobDone(s: Direct, job: Job)
    requires Inv(s) && AtRest(s) && 1 <= |job.chunk| <= BUFFER_SIZE
    ensures IsRun(s, Path(job))
    ensures
      var n := Run(s, Path(job));
      && Inv(n) && AtRest(n)
      && n.server.down.output == s.server.down.output + (if job.down then job.chunk else "")
      && n.agent.up.output == s.agent.up.output + (if job.down then "" else job.chunk)
  {
    hide Inv, IsRun, Run, Round;
    var near := if job.down then ClientToServer else TargetToAgent;
    var far := if job.down then AgentToTarget else ServerToClient;
    LoopRelays(s, near, job.chunk);
    var m := Run(s, Round(near, job.chunk));
    assert "" + job.chunk == job.chunk;
    LoopRelays(m, far, job.chunk);
    RunConcat(s, Round(near, job.chunk), Round(far, job.chunk));
    var n := Run(m, Round(far, job.chunk));
    assert HopOf(n, AgentToTarget) == n.server.down && HopOf(n, ServerToClient) == n.agent.up;
    assert HopOf(m, AgentToTarget) == m.server.down && HopOf(m, ServerToClient) == m.agent.up;
    assert HopOf(s, AgentToTarget) == s.server.down && HopOf(s, ServerToClient) == s.agent.up;
    assert s.server.down.output + "" == s.server.down.output && s.agent.up.output + "" == s.agent.up.output;
  }

  /** Any exchange of chunks, in any interleaving of the two directions, can be carried through
      from the start of the relays: the target ends up with exactly the client's chunks in order,
      the client with exactly the target's. */
  lemma {:induction false} RelaysDeliver(s: Direct, jobs: seq<Job>)
    requires Inv(s) && AtRest(s)
    requires forall i :: 0 <= i < |jobs| ==> 1 <= |jobs[i].chunk| <= BUFFER_SIZE
    ensures IsRun(s, Paths(jobs))
    ensures
      var n := Run(s, Paths(jobs));
      && Inv(n) && AtRest(n)
      && n.server.down.output == s.server.down.output + Chunks(jobs, true)
      && n.agent.up.output == s.agent.up.output + Chunks(jobs, false)
    decreases jobs
  {
    hide Inv, AtRest, Path;
    if jobs == [] {
      assert s.server.down.output + "" == s.server.down.output && s.agent.up.output + "" == s.agent.up.output;
    } else {
      JobDone(s, jobs[0]);
      var m := Run(s, Path(jobs[0]));
      RelaysDeliver(m, jobs[1..]);
      RunConcat(s, Path(jobs[0]), Paths(jobs[1..]));
      var down, up := if jobs[0].down then jobs[0].chunk else "", if jobs[0].down then "" else jobs[0].chunk;
      Regroup(s.server.down.output, down, Chunks(jobs[1..], true));
      Regroup(s.agent.up.output, up, Chunks(jobs[1..], false));
    }
  }

  lemma Regroup(a: Str, b: Str, c: Str)
    ensures (a + b) + c == a + (b + c)
  {
  }

  lemma StartsAtRest(b1: Str, b2: Str, b3: Str, b4: Str)
    requires |b1| == |b2| == |b3| == |b4| == BUFFER_SIZE
    ensures Inv(Start(b1, b2, b3, b4)) && AtRest(Start(b1, b2, b3, b4))
    ensures Start(b1, b2, b3, b4).server.down.output == "" && Start(b1, b2, b3, b4).agent.up.output == ""
  {
    StartInv(b1, b2, b3, b4);
  }
}
