/** The agent's half of the polled tunnel: the handlers of `TCPConnection` that share one
    strand, as transitions on the flags and pending operations they leave behind. A posted
    action blocks the strand until it is answered, so it is a phase of its own. */
module AgentLoop {
  import opened Bytes
  import opened Server
  import opened Wire

  datatype Action = ActOpen | ActSend | ActRecv | ActClose {
    function Name(): Str {
      match this
      case ActOpen => OPEN
      case ActSend => SEND
      case ActRecv => RECV
      case ActClose => CLOSE
    }
  }

  datatype Post = Post(action: Action, body: Str)

  /** `Busy` is inside `postTunnelAction` (or the open of `AgentHandler::handle`), at its
      first or second attempt. */
  datatype Phase = Idle | Busy(post: Post, attempt: nat)

  /** Pending asynchronous operations, and completions queued on the strand. */
  datatype ReadOp = NoRead | ReadArmed | ReadReady(chunk: Str) | ReadFailed
  datatype TimerOp = TimerOff | TimerArmed | TimerFired(aborted: bool)
  datatype WriteOp = NoWrite | Writing(data: Str, sent: nat) | WriteDone(ok: bool)

  /** `overlapped` records a read, wait or write begun while one of its kind was pending. */
  datatype Agent = Agent(
    phase: Phase, read: ReadOp, timer: TimerOp, write: WriteOp,
    started: bool, tunnelClosed: bool, pollInProgress: bool, socketOpen: bool, overlapped: bool)

  /** The agent, its connection to the server, and the server's session table. */
  datatype Core = Core(agent: Agent, connOpen: bool, table: Table)

  const BUFFER_SIZE: nat := 65536

  /** `startTunnelReadFromClient`. */
  function StartRead(a: Agent): (r: Agent)
    ensures r.phase == a.phase
  {
    if a.tunnelClosed || !a.socketOpen then a
    else a.(read := ReadArmed, overlapped := a.overlapped || a.read != NoRead)
  }

  /** `startTunnelPollServer`. */
  function StartPoll(a: Agent): (r: Agent)
    ensures r.phase == a.phase
  {
    if a.tunnelClosed || !a.socketOpen || a.pollInProgress then a
    else a.(pollInProgress := true, timer := TimerArmed, overlapped := a.overlapped || a.timer != TimerOff)
  }

  function StartWrite(a: Agent, data: Str): Agent {
    a.(write := Writing(data, 0), overlapped := a.overlapped || a.write != NoWrite)
  }

  function CancelTimer(t: TimerOp): TimerOp {
    if t == TimerArmed then TimerFired(true) else t
  }

  /** `TCPConnection::socketShutdown`: once only; pending operations complete with an error. */
  function ShutSocket(c: Core): (r: Core)
    ensures r.table == c.table && r.agent.phase == c.agent.phase && r.agent.started == c.agent.started
  {
    if !c.agent.socketOpen then c
    else
      var a := c.agent;
      c.(connOpen := false,
         agent := a.(socketOpen := false,
                     timer := CancelTimer(a.timer),
                     read := if a.read == ReadArmed then ReadFailed else a.read,
                     write := if a.write.Writing? then WriteDone(false) else a.write))
  }

  function Begin(c: Core, action: Action, body: Str): Core {
    c.(agent := c.agent.(phase := Busy(Post(action, body), 1)))
  }

  /** `closeTunnelSession` then `socketShutdown`: the close is posted first, once; the
      shutdown follows when it returns. */
  function CloseTunnel(c: Core): Core {
    if c.agent.tunnelClosed then ShutSocket(c)
    else Begin(c.(agent := c.agent.(tunnelClosed := true, timer := CancelTimer(c.agent.timer))), ActClose, "")
  }

  /** The read handler of `startTunnelReadFromClient`. */
  function RunRead(c: Core): Core
    requires c.agent.read.ReadReady? || c.agent.read.ReadFailed?
  {
    var idle := c.(agent := c.agent.(read := NoRead));
    match c.agent.read
    case ReadReady(chunk) => Begin(idle, ActSend, chunk)
    case ReadFailed => CloseTunnel(idle)
  }

  /** The timer handler of `startTunnelPollServer`. */
  function RunTimer(c: Core): Core
    requires c.agent.timer.TimerFired?
  {
    var a := c.agent.(timer := TimerOff, pollInProgress := false);
    if c.agent.timer.aborted || a.tunnelClosed || !a.socketOpen then c.(agent := a)
    else Begin(c.(agent := a), ActRecv, "")
  }

  /** The write handlers: of the open reply, which starts the tunnel, and of a payload. */
  function RunWrite(c: Core, reuse: bool): Core
    requires c.agent.write.WriteDone?
  {
    var a := c.agent.(write := NoWrite);
    var idle := c.(agent := a);
    if !a.started then
      if !c.agent.write.ok then ShutSocket(idle)
      else idle.(agent := StartPoll(StartRead(a.(started := true))), connOpen := c.connOpen && reuse)
    else if c.agent.write.ok then idle.(agent := StartPoll(a))
    else CloseTunnel(idle)
  }

  predicate KeepAlive(action: Action, reuse: bool) {
    action == ActOpen || (reuse && action != ActClose)
  }

  /** What follows a posted action that answered `result` ("" when it failed): the return
      into the handler that posted it. */
  function Return(c: Core, result: Str): (r: Core)
    requires c.agent.phase.Busy?
    ensures r.table == c.table && r.agent.phase == Idle && r.agent.started == c.agent.started
  {
    var a := c.agent.(phase := Idle);
    var idle := c.(agent := a);
    match c.agent.phase.post.action
    case ActOpen => if result == "" then ShutSocket(idle) else idle.(agent := StartWrite(a, result))
    case ActSend => idle.(agent := StartRead(a))
    case ActRecv => idle.(agent := if result == "" then StartPoll(a) else StartWrite(a, result))
    case ActClose => ShutSocket(idle)
  }

  /** A response was read: without keep-alive the connection is closed after it. */
  function Answer(c: Core, result: Str, reuse: bool): (r: Core)
    requires c.agent.phase.Busy?
    ensures r.table == c.table && r.agent.phase == Idle && r.agent.started == c.agent.started
  {
    var kept := if KeepAlive(c.agent.phase.post.action, reuse) then c else c.(connOpen := false);
    Return(kept, result)
  }

  predicate Retries(phase: Phase, reuse: bool)
    requires phase.Busy?
  {
    phase.attempt == 1 && reuse && phase.post.action != ActOpen && phase.post.action != ActClose
  }

  /** `sendOnce` failed after `client_` was shut down: once more with connection reuse,
      otherwise "" is returned. */
  function Fail(c: Core, reuse: bool): (r: Core)
    requires c.agent.phase.Busy?
    ensures r.table == c.table && r.agent.started == c.agent.started
    ensures r.agent.phase == Idle || (Retries(c.agent.phase, reuse) && r.agent.phase == Busy(c.agent.phase.post, 2))
  {
    var shut := c.(connOpen := false);
    if Retries(c.agent.phase, reuse) then
      shut.(agent := c.agent.(phase := Busy(c.agent.phase.post, 2)))
    else Return(shut, "")
  }

  /** `sendOnce` failed because sealing did, after it had connected: the connection stays open
      unless a retry or the failed open shuts it. */
  function FailToSeal(c: Core, reuse: bool): (r: Core)
    requires c.agent.phase.Busy?
    ensures r.table == c.table && r.agent.started == c.agent.started
    ensures r.agent.phase == Idle || (Retries(c.agent.phase, reuse) && r.agent.phase == Busy(c.agent.phase.post, 2))
  {
    if Retries(c.agent.phase, reuse) || c.agent.phase.post.action == ActOpen then Fail(c, reuse)
    else Return(c.(connOpen := true), "")
  }

  /** The agent holding a client's CONNECT, about to post its open. */
  function Initial(raw: Str, table: Table): Core {
    Core(Agent(Busy(Post(ActOpen, raw), 1), NoRead, TimerOff, NoWrite, false, false, false, true, false), false, table)
  }

  // ----- one strand, one operation of each kind ---------------------------------------------------

  predicate Polling(a: Agent) {
    a.phase.Busy? && a.phase.post.action == ActRecv
  }

  predicate Sending(a: Agent) {
    a.phase.Busy? && a.phase.post.action == ActSend
  }

  predicate Closing(a: Agent) {
    a.phase.Busy? && a.phase.post.action == ActClose
  }

  /** What the flags say about the pending operations. */
  predicate AgentInv(a: Agent) {
    && !a.overlapped
    && (a.pollInProgress <==> a.timer != TimerOff)
    && (a.timer != TimerOff ==> a.write == NoWrite && !Polling(a))
    && (Polling(a) ==> a.write == NoWrite && a.socketOpen)
    && (Sending(a) ==> a.read == NoRead)
    && (Closing(a) ==> a.tunnelClosed && a.socketOpen)
    && (a.phase.Busy? ==> 1 <= a.phase.attempt <= 2)
    && (a.phase.Busy? && a.phase.post.action == ActOpen ==> !a.started && a.write == NoWrite && a.phase.attempt == 1)
    && (!a.started ==> a.read == NoRead && a.timer == TimerOff && !a.tunnelClosed
                       && (a.phase.Busy? ==> a.phase.post.action == ActOpen))
    && (a.timer == TimerArmed ==> a.socketOpen && !a.tunnelClosed)
    && (a.read == ReadArmed ==> a.socketOpen)
    && (a.write.Writing? ==> a.socketOpen && a.write.sent <= |a.write.data| && a.write.data != "")
    && (a.started && !a.socketOpen ==> a.tunnelClosed)
    && (a.started && a.tunnelClosed && a.socketOpen ==> Closing(a))
    && (!a.started && !a.socketOpen ==> a.write == NoWrite && a.phase == Idle)
    && (a.phase.Busy? && a.phase.post.action == ActOpen ==> a.socketOpen)
    && (a.read.ReadReady? ==> 1 <= |a.read.chunk| <= BUFFER_SIZE)
    && (Sending(a) ==> 1 <= |a.phase.post.body| <= BUFFER_SIZE)
    && (Polling(a) || Closing(a) ==> a.phase.post.body == "")
  }

  lemma ReturnKeeps(c: Core, result: Str)
    requires AgentInv(c.agent) && c.agent.phase.Busy?
    ensures AgentInv(Return(c, result).agent)
  {
  }

  lemma AttemptsKeep(c: Core, result: Str, reuse: bool)
    requires AgentInv(c.agent) && c.agent.phase.Busy?
    ensures AgentInv(Answer(c, result, reuse).agent)
    ensures AgentInv(Fail(c, reuse).agent) && AgentInv(FailToSeal(c, reuse).agent)
  {
    hide AgentInv, Return;
    ReturnKeeps(c, result);
    ReturnKeeps(c.(connOpen := false), result);
    ReturnKeeps(c.(connOpen := true), "");
    ReturnKeeps(c.(connOpen := false), "");
    if Retries(c.agent.phase, reuse) { RetryKeeps(c.agent); }
  }

  lemma RetryKeeps(a: Agent)
    requires AgentInv(a) && a.phase.Busy? && a.phase.post.action != ActOpen
    ensures AgentInv(a.(phase := Busy(a.phase.post, 2)))
  {
  }

  lemma RunReadKeeps(c: Core)
    requires AgentInv(c.agent) && c.agent.phase == Idle && (c.agent.read.ReadReady? || c.agent.read.ReadFailed?)
    ensures AgentInv(RunRead(c).agent)
  {
  }

  lemma RunTimerKeeps(c: Core)
    requires AgentInv(c.agent) && c.agent.phase == Idle && c.agent.timer.TimerFired?
    ensures AgentInv(RunTimer(c).agent)
  {
  }

  lemma RunWriteKeeps(c: Core, reuse: bool)
    requires AgentInv(c.agent) && c.agent.phase == Idle && c.agent.write.WriteDone?
    ensures AgentInv(RunWrite(c, reuse).agent)
  {
  }
}
