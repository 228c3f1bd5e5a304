/** The direct tunnel: four relay loops, one shared buffer each, joined by the connection
    between agent and server. */
module DirectTunnel {
  import opened Bytes

  const BUFFER_SIZE: nat := 65536

  /** One relay loop: the buffer it reads into and writes from, which operation is pending, and
      everything it has read and written since the start. `overlapped` records an operation
      begun while one of its kind was pending. */
  datatype Hop = Hop(
    buf: Str, reading: bool, writing: bool, overlapped: bool, length: nat, sent: nat, input: Str, output: Str)

  /** One end of the tunnel: `closed_`, `downstreamBuf_` from client towards target and
      `upstreamBuf_` back. */
  datatype End = End(closed: bool, down: Hop, up: Hop)

  /** Bytes under way between the ends; `cut` once a closed end has let go of them. */
  datatype Link = Link(queue: Str, cut: bool)

  datatype Direct = Direct(agent: End, server: End, downLink: Link, upLink: Link)

  /** `relayClientToServer`, `relayServerToClient`, `relayAgentToTarget`, `relayTargetToAgent`. */
  datatype Loop = ClientToServer | ServerToClient | AgentToTarget | TargetToAgent

  datatype Event =
    | Arrives(loop: Loop, chunk: Str)
    | Moves(loop: Loop, k: nat)
    | Completes(loop: Loop)
    | Breaks(loop: Loop)
    | Lets(down: bool)

  // ----- one loop -------------------------------------------------------------------------------------

  /** Reading overwrites the front of the buffer. */
  function Fill(h: Hop, chunk: Str): Hop {
    h.(buf := chunk + h.buf[Min(|chunk|, |h.buf|)..], reading := false, writing := true,
       overlapped := h.overlapped || h.writing, length := |chunk|, sent := 0, input := h.input + chunk)
  }

  function Piece(h: Hop, k: nat): Str {
    if h.sent + k <= |h.buf| then h.buf[h.sent..h.sent + k] else ""
  }

  function Move(h: Hop, k: nat): Hop {
    h.(sent := h.sent + k, output := h.output + Piece(h, k))
  }

  /** The write is complete: the loop starts over. */
  function Rearm(h: Hop): Hop {
    h.(writing := false, reading := true, overlapped := h.overlapped || h.reading)
  }

  function Stop(h: Hop): Hop {
    h.(reading := false, writing := false)
  }

  /** `socketShutdown`: once, and both loops of the end stop. */
  function Shut(e: End): End {
    if e.closed then e else End(true, Stop(e.down), Stop(e.up))
  }

  // ----- the whole ------------------------------------------------------------------------------------

  function HopOf(s: Direct, loop: Loop): Hop {
    match loop
    case ClientToServer => s.agent.down
    case ServerToClient => s.agent.up
    case AgentToTarget => s.server.down
    case TargetToAgent => s.server.up
  }

  function EndOf(s: Direct, loop: Loop): End {
    if loop.ClientToServer? || loop.ServerToClient? then s.agent else s.server
  }

  function WithHop(s: Direct, loop: Loop, h: Hop): Direct {
    match loop
    case ClientToServer => s.(agent := s.agent.(down := h))
    case ServerToClient => s.(agent := s.agent.(up := h))
    case AgentToTarget => s.(server := s.server.(down := h))
    case TargetToAgent => s.(server := s.server.(up := h))
  }

  function WithEnd(s: Direct, loop: Loop, e: End): Direct {
    if loop.ClientToServer? || loop.ServerToClient? then s.(agent := e) else s.(server := e)
  }

  /** The bytes a loop may read next: what the client or the target sends is up to them. */
  predicate Readable(s: Direct, loop: Loop, chunk: Str) {
    match loop
    case AgentToTarget => chunk <= s.downLink.queue
    case ServerToClient => chunk <= s.upLink.queue
    case _ => true
  }

  predicate Enabled(s: Direct, e: Event) {
    match e
    case Arrives(loop, chunk) =>
      HopOf(s, loop).reading && 1 <= |chunk| <= BUFFER_SIZE && Readable(s, loop, chunk)
    case Moves(loop, k) => HopOf(s, loop).writing && HopOf(s, loop).sent + k <= HopOf(s, loop).length
    case Completes(loop) => HopOf(s, loop).writing && HopOf(s, loop).sent == HopOf(s, loop).length
    case Breaks(loop) => HopOf(s, loop).reading || HopOf(s, loop).writing
    case Lets(_) => s.agent.closed || s.server.closed
  }

  function Step(s: Direct, e: Event): Direct
    requires Enabled(s, e)
  {
    match e
    case Arrives(loop, chunk) =>
      var read := WithHop(s, loop, Fill(HopOf(s, loop), chunk));
      (match loop
       case AgentToTarget => read.(downLink := s.downLink.(queue := s.downLink.queue[|chunk|..]))
       case ServerToClient => read.(upLink := s.upLink.(queue := s.upLink.queue[|chunk|..]))
       case _ => read)
    case Moves(loop, k) =>
      var moved, piece := WithHop(s, loop, Move(HopOf(s, loop), k)), Piece(HopOf(s, loop), k);
      (match loop
       case ClientToServer => moved.(downLink := Carry(s.downLink, piece))
       case TargetToAgent => moved.(upLink := Carry(s.upLink, piece))
       case _ => moved)
    case Completes(loop) =>
      if EndOf(s, loop).closed then WithEnd(s, loop, Shut(EndOf(s, loop)))
      else WithHop(s, loop, Rearm(HopOf(s, loop)))
    case Breaks(loop) => WithEnd(s, loop, Shut(EndOf(s, loop)))
    case Lets(down) => if down then s.(downLink := Link("", true)) else s.(upLink := Link("", true))
  }

  function Carry(l: Link, piece: Str): Link {
    if l.cut then l else l.(queue := l.queue + piece)
  }

  function NewHop(buf: Str): Hop {
    Hop(buf, true, false, false, 0, 0, "", "")
  }

  /** Both relays just started, each with whatever its buffers held. */
  function Start(b1: Str, b2: Str, b3: Str, b4: Str): Direct {
    Direct(End(false, NewHop(b1), NewHop(b2)), End(false, NewHop(b3), NewHop(b4)), Link("", false), Link("", false))
  }

  // ----- invariants -------------------------------------------------------------------------------------

  /** What of the buffer is still to be written. */
  function Unsent(h: Hop): Str {
    if h.writing && h.sent <= h.length <= |h.buf| then h.buf[h.sent..h.length] else ""
  }

  /** A loop has at most one operation pending, and while its end is open has written all it
      read but what the pending write still holds; a stopped loop has written a prefix. */
  predicate HopInv(h: Hop, closed: bool) {
    && |h.buf| == BUFFER_SIZE
    && !h.overlapped && !(h.reading && h.writing)
    && (h.writing ==> h.sent <= h.length <= BUFFER_SIZE)
    && (closed ==> !h.reading && !h.writing)
    && (!closed ==> h.reading || h.writing)
    && (!closed ==> h.output + Unsent(h) == h.input)
    && h.output <= h.input
  }

  /** The link delivers in order what was put on it, until it is cut. */
  predicate LinkInv(put: Str, l: Link, taken: Str) {
    taken + l.queue <= put && (!l.cut ==> taken + l.queue == put)
  }

  predicate Inv(s: Direct) {
    && HopInv(s.agent.down, s.agent.closed) && HopInv(s.agent.up, s.agent.closed)
    && HopInv(s.server.down, s.server.closed) && HopInv(s.server.up, s.server.closed)
    && LinkInv(s.agent.down.output, s.downLink, s.server.down.input)
    && LinkInv(s.server.up.output, s.upLink, s.agent.up.input)
  }

  lemma StartInv(b1: Str, b2: Str, b3: Str, b4: Str)
    requires |b1| == |b2| == |b3| == |b4| == BUFFER_SIZE
    ensures Inv(Start(b1, b2, b3, b4))
  {
  }

  lemma FillKeeps(h: Hop, chunk: Str)
    requires HopInv(h, false) && h.reading && 1 <= |chunk| <= BUFFER_SIZE
    ensures HopInv(Fill(h, chunk), false)
    ensures Fill(h, chunk).output == h.output && Fill(h, chunk).input == h.input + chunk
  {
    var f := Fill(h, chunk);
    assert f.buf[..|chunk|] == chunk;
    assert h.output + "" == h.output;
  }

  lemma MoveKeeps(h: Hop, k: nat)
    requires HopInv(h, false) && h.writing && h.sent + k <= h.length
    ensures HopInv(Move(h, k), false)
    ensures Move(h, k).output == h.output + Piece(h, k) && Move(h, k).input == h.input
  {
    assert Unsent(h) == Piece(h, k) + Unsent(Move(h, k));
    assert h.output + (Piece(h, k) + Unsent(Move(h, k))) == (h.output + Piece(h, k)) + Unsent(Move(h, k));
  }

  lemma RearmKeeps(h: Hop)
    requires HopInv(h, false) && h.writing && h.sent == h.length
    ensures HopInv(Rearm(h), false) && Rearm(h).output == h.output && Rearm(h).input == h.input
  {
  }

  lemma StopKeeps(h: Hop)
    requires HopInv(h, false)
    ensures HopInv(Stop(h), true) && Stop(h).output == h.output && Stop(h).input == h.input
  {
  }

  lemma LinkCarries(put: Str, l: Link, taken: Str, piece: Str)
    requires LinkInv(put, l, taken)
    ensures LinkInv(put + piece, Carry(l, piece), taken)
  {
    assert (taken + l.queue) + piece == taken + (l.queue + piece);
  }

  lemma LinkDelivers(put: Str, l: Link, taken: Str, chunk: Str)
    requires LinkInv(put, l, taken) && chunk <= l.queue
    ensures LinkInv(put, l.(queue := l.queue[|chunk|..]), taken + chunk)
  {
    assert l.queue == chunk + l.queue[|chunk|..];
    assert taken + (chunk + l.queue[|chunk|..]) == (taken + chunk) + l.queue[|chunk|..];
  }

  lemma OpenHop(s: Direct, loop: Loop)
    requires Inv(s)
    ensures HopInv(HopOf(s, loop), EndOf(s, loop).closed)
  {
  }

  lemma StepKeepsInv(s: Direct, e: Event)
    requires Inv(s) && Enabled(s, e)
    ensures Inv(Step(s, e))
  {
    hide HopInv, LinkInv, Fill, Move, Rearm, Piece, Stop, Carry;
    match e
    case Arrives(loop, chunk) => ArriveKeepsInv(s, loop, chunk);
    case Moves(loop, k) => MovesKeepInv(s, loop, k);
    case Completes(loop) => PendingIsOpen(s, loop); RearmKeeps(HopOf(s, loop));
    case Breaks(loop) => ShutKeepsInv(s, loop);
    case Lets(down) => LetGoKeepsInv(s, down);
  }

  lemma PendingIsOpen(s: Direct, loop: Loop)
    requires Inv(s) && (HopOf(s, loop).reading || HopOf(s, loop).writing)
    ensures !EndOf(s, loop).closed && HopInv(HopOf(s, loop), false)
  {
  }

  lemma ArriveKeepsInv(s: Direct, loop: Loop, chunk: Str)
    requires Inv(s) && Enabled(s, Arrives(loop, chunk))
    ensures Inv(Step(s, Arrives(loop, chunk)))
  {
    hide HopInv, LinkInv, Fill;
    PendingIsOpen(s, loop);
    FillKeeps(HopOf(s, loop), chunk);
    match loop
    case AgentToTarget => LinkDelivers(s.agent.down.output, s.downLink, s.server.down.input, chunk);
    case ServerToClient => LinkDelivers(s.server.up.output, s.upLink, s.agent.up.input, chunk);
    case _ =>
  }

  lemma MovesKeepInv(s: Direct, loop: Loop, k: nat)
    requires Inv(s) && Enabled(s, Moves(loop, k))
    ensures Inv(Step(s, Moves(loop, k)))
  {
    hide HopInv, LinkInv, Move, Piece, Carry;
    PendingIsOpen(s, loop);
    MoveKeeps(HopOf(s, loop), k);
    var piece := Piece(HopOf(s, loop), k);
    match loop
    case ClientToServer => LinkCarries(s.agent.down.output, s.downLink, s.server.down.input, piece);
    case TargetToAgent => LinkCarries(s.server.up.output, s.upLink, s.agent.up.input, piece);
    case _ =>
  }

  lemma ShutKeepsInv(s: Direct, loop: Loop)
    requires Inv(s)
    ensures Inv(WithEnd(s, loop, Shut(EndOf(s, loop))))
  {
    hide HopInv, LinkInv, Stop;
    var e := EndOf(s, loop);
    if !e.closed {
      StopKeeps(e.down);
      StopKeeps(e.up);
    }
  }

  lemma LetGoKeepsInv(s: Direct, down: bool)
    requires Inv(s)
    ensures Inv(s.(downLink := Link("", true))) && Inv(s.(upLink := Link("", true)))
  {
    hide HopInv;
  }

  // ----- over runs -----------------------------------------------------------------------------------------

  ghost predicate IsRun(s: Direct, events: seq<Event>)
    decreases events
  {
    events == [] || (Enabled(s, events[0]) && IsRun(Step(s, events[0]), events[1..]))
  }

  ghost function Run(s: Direct, events: seq<Event>): Direct
    requires IsRun(s, events)
    decreases events
  {
    if events == [] then s else Run(Step(s, events[0]), events[1..])
  }

  lemma {:induction false} RunKeepsInv(s: Direct, events: seq<Event>)
    requires Inv(s) && IsRun(s, events)
    ensures Inv(Run(s, events))
    decreases events
  {
    hide Inv, Step, Enabled;
    if events != [] {
      StepKeepsInv(s, events[0]);
      RunKeepsInv(Step(s, events[0]), events[1..]);
    }
  }

  /** Composition: over every run from the start of the relays, through both relays and the
      link, each far end has been given a prefix of what was read at its near end; and while
      nothing is closed or cut the difference is exactly what the buffers and the link hold. */
  lemma FarIsPrefixOfNear(b1: Str, b2: Str, b3: Str, b4: Str, events: seq<Event>)
    requires |b1| == |b2| == |b3| == |b4| == BUFFER_SIZE
    requires IsRun(Start(b1, b2, b3, b4), events)
    ensures
      var s := Run(Start(b1, b2, b3, b4), events);
      && s.server.down.output <= s.agent.down.input
      && s.agent.up.output <= s.server.up.input
      && (!s.agent.closed && !s.server.closed && !s.downLink.cut ==>
            s.agent.down.input ==
            s.server.down.output + Unsent(s.server.down) + s.downLink.queue + Unsent(s.agent.down))
      && (!s.agent.closed && !s.server.closed && !s.upLink.cut ==>
            s.server.up.input == s.agent.up.output + Unsent(s.agent.up) + s.upLink.queue + Unsent(s.server.up))
  {
    hide IsRun, Run, Start;
    StartInv(b1, b2, b3, b4);
    RunKeepsInv(Start(b1, b2, b3, b4), events);
    var s := Run(Start(b1, b2, b3, b4), events);
    PrefixThrough(s.agent.down, s.agent.closed, s.downLink, s.server.down, s.server.closed);
    PrefixThrough(s.server.up, s.server.closed, s.upLink, s.agent.up, s.agent.closed);
  }

  lemma PrefixThrough(near: Hop, nearClosed: bool, l: Link, far: Hop, farClosed: bool)
    requires HopInv(near, nearClosed) && HopInv(far, farClosed) && LinkInv(near.output, l, far.input)
    ensures far.output <= near.input
    ensures !nearClosed && !farClosed && !l.cut ==> near.input == far.output + Unsent(far) + l.queue + Unsent(near)
  {
  }

  /** In every state of every run no loop has begun an operation over one of its kind, or has
      both kinds pending; and no step refills a buffer whose write goes on. */
  lemma OneOperationEach(b1: Str, b2: Str, b3: Str, b4: Str, events: seq<Event>, e: Event)
    requires |b1| == |b2| == |b3| == |b4| == BUFFER_SIZE
    requires IsRun(Start(b1, b2, b3, b4), events) && Enabled(Run(Start(b1, b2, b3, b4), events), e)
    ensures
      var s := Run(Start(b1, b2, b3, b4), events);
      && (forall loop: Loop :: !HopOf(s, loop).overlapped && !(HopOf(s, loop).reading && HopOf(s, loop).writing))
      && (forall loop: Loop :: HopOf(s, loop).writing && HopOf(Step(s, e), loop).writing ==>
            HopOf(Step(s, e), loop).buf == HopOf(s, loop).buf)
  {
    hide IsRun, Run, Start;
    StartInv(b1, b2, b3, b4);
    RunKeepsInv(Start(b1, b2, b3, b4), events);
    var s := Run(Start(b1, b2, b3, b4), events);
    NoRefill(s, e);
    forall loop: Loop ensures !HopOf(s, loop).overlapped && !(HopOf(s, loop).reading && HopOf(s, loop).writing) {
      OpenHop(s, loop);
    }
  }

  lemma NoRefill(s: Direct, e: Event)
    requires Inv(s) && Enabled(s, e)
    ensures forall loop: Loop :: HopOf(s, loop).writing && HopOf(Step(s, e), loop).writing ==>
              HopOf(Step(s, e), loop).buf == HopOf(s, loop).buf
  {
  }

  /** `closed_` is never reset: an end once shut is shut in every later state. */
  lemma {:induction false} ClosedForGood(s: Direct, events: seq<Event>)
    requires IsRun(s, events)
    ensures s.agent.closed ==> Run(s, events).agent.closed
    ensures s.server.closed ==> Run(s, events).server.closed
    decreases events
  {
    if events != [] {
      ClosedForGood(Step(s, events[0]), events[1..]);
    }
  }

  // ----- the loop as an object, over its fixed buffer ---------------------------------------------------------

  /** One relay loop of a `TCPConnection`: the array it reads into and writes from. */
  class RelayLoop {
    const buf: array<Byte>
    var reading: bool
    var writing: bool
    var length: nat
    var sent: nat
    ghost var overlapped: bool
    ghost var input: Str
    ghost var output: Str

    ghost function View(): Hop
      reads this, buf
    {
      Hop(buf[..], reading, writing, overlapped, length, sent, input, output)
    }

    constructor (buf: array<Byte>)
      requires buf.Length == BUFFER_SIZE
      ensures this.buf == buf && View() == NewHop(buf[..]) && HopInv(View(), false)
    {
      this.buf, reading, writing, overlapped := buf, true, false, false;
      length, sent, input, output := 0, 0, "", "";
      new;
      assert View().output + Unsent(View()) == View().input;
    }

    /** The read handler: the chunk lies in the buffer and a write of it is begun. */
    method OnRead(chunk: Str)
      requires HopInv(View(), false) && reading && 1 <= |chunk| <= BUFFER_SIZE
      modifies this, buf
      ensures View() == Fill(old(View()), chunk) && HopInv(View(), false)
    {
      ghost var before := View();
      FillKeeps(before, chunk);
      for i := 0 to |chunk|
        invariant View() == before.(buf := buf[..])
        invariant buf[..i] == chunk[..i] && buf[i..] == before.buf[i..]
      {
        buf[i] := chunk[i];
      }
      assert chunk[..|chunk|] == chunk;
      assert buf[..] == buf[..|chunk|] + buf[|chunk|..];
      overlapped := overlapped || writing;
      reading, writing, length, sent := false, true, |chunk|, 0;
      input := input + chunk;
    }

    /** Part of the pending write has gone out. */
    method OnProgress(k: nat) returns (piece: Str)
      requires HopInv(View(), false) && writing && sent + k <= length
      modifies this
      ensures piece == Piece(old(View()), k)
      ensures View() == Move(old(View()), k) && HopInv(View(), false)
    {
      MoveKeeps(View(), k);
      piece := buf[sent..sent + k];
      assert piece == buf[..][sent..sent + k];
      sent := sent + k;
      output := output + piece;
    }

    /** The write handler: the loop starts over, or the end is shut down on an error. */
    method OnWritten(error: bool) returns (shut: bool)
      requires HopInv(View(), false) && writing && (!error ==> sent == length)
      modifies this
      ensures shut == error
      ensures View() == (if error then Stop(old(View())) else Rearm(old(View()))) && HopInv(View(), error)
    {
      if error {
        StopKeeps(View());
        writing, reading := false, false;
        return true;
      }
      RearmKeeps(View());
      overlapped := overlapped || reading;
      writing, reading := false, true;
      return false;
    }
  }
}
