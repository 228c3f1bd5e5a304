/** The agent's tunnel as an object: the handlers of `TCPConnection`, with `postTunnelAction`
    called from inside them, proved to be the transitions of `AgentLoop` run to their end. */
module AgentTunnel {
  import opened AgentLoop
  import opened Bytes
  import opened Server

  /** How one `sendOnce` ends: with a response, whose body decodes to `plain`, or not. */
  datatype Attempt = Response(plain: Str) | SealFailed | Broken

  /** A posted action taken to its end: its attempt, a second one if it retries, the return. */
  function Conclude(c: Core, reuse: bool, first: Attempt, second: Attempt): Core {
    if c.agent.phase == Idle then c
    else
      var c1 := Tried(c, reuse, first);
      if c1.agent.phase == Idle then c1 else Tried(c1, reuse, second)
  }

  function Tried(c: Core, reuse: bool, attempt: Attempt): Core
    requires c.agent.phase.Busy?
  {
    match attempt
    case Response(plain) => Answer(c.(connOpen := true), plain, reuse)
    case SealFailed => FailToSeal(c, reuse)
    case Broken => Fail(c, reuse)
  }

  class TunnelConnection {
    const reuse: bool
    ghost const table: Table
    var closed: bool
    var tunnelClosed: bool
    var pollInProgress: bool
    var started: bool
    var clientOpen: bool
    var read: ReadOp
    var timer: TimerOp
    var write: WriteOp
    ghost var overlapped: bool

    ghost function State(): Agent
      reads this
    {
      Agent(Idle, read, timer, write, started, tunnelClosed, pollInProgress, !closed, overlapped)
    }

    /** Between handlers no action is being posted. */
    ghost function View(): Core
      reads this
    {
      Core(State(), clientOpen, table)
    }

    /** The connection once the open reply has been decoded and its write begun. */
    constructor (reuse: bool, ghost table: Table, reply: Str)
      ensures this.reuse == reuse
      ensures View() ==
              Core(Agent(Idle, NoRead, TimerOff, Writing(reply, 0), false, false, false, true, false), true, table)
    {
      this.reuse, this.table := reuse, table;
      closed, tunnelClosed, pollInProgress, started, clientOpen := false, false, false, false, true;
      read, timer, write, overlapped := NoRead, TimerOff, Writing(reply, 0), false;
    }

    method StartTunnelReadFromClient()
      modifies this
      ensures View() == old(View()).(agent := StartRead(old(State())))
    {
      if tunnelClosed || closed {
        return;
      }
      overlapped := overlapped || read != NoRead;
      read := ReadArmed;
    }

    method StartTunnelPollServer()
      modifies this
      ensures View() == old(View()).(agent := StartPoll(old(State())))
    {
      if tunnelClosed || closed || pollInProgress {
        return;
      }
      pollInProgress := true;
      overlapped := overlapped || timer != TimerOff;
      timer := TimerArmed;
    }

    method AsyncWrite(data: Str)
      modifies this
      ensures View() == old(View()).(agent := StartWrite(old(State()), data))
    {
      overlapped := overlapped || write != NoWrite;
      write := Writing(data, 0);
    }

    method CancelPollTimer()
      modifies this`timer
      ensures timer == CancelTimer(old(timer))
    {
      if timer == TimerArmed {
        timer := TimerFired(true);
      }
    }

    method SocketShutdown()
      modifies this
      ensures View() == ShutSocket(old(View()))
    {
      if closed {
        return;
      }
      closed := true;
      CancelPollTimer();
      if read == ReadArmed {
        read := ReadFailed;
      }
      if write.Writing? {
        write := WriteDone(false);
      }
      clientOpen := false;
    }

    /** `sendOnce`: `None` is the empty response. */
    method SendOnce(action: Action, attempt: Attempt) returns (plain: Option<Str>)
      modifies this`clientOpen
      ensures plain == if attempt.Response? then Some(attempt.plain) else None
      ensures clientOpen == (attempt.SealFailed? || (attempt.Response? && reuse && action != ActClose))
    {
      clientOpen := true;
      if attempt.SealFailed? {
        return None;
      }
      if attempt.Broken? {
        clientOpen := false;
        return None;
      }
      var keepAlive := reuse && action != ActClose;
      if !keepAlive {
        clientOpen := false;
      }
      return Some(attempt.plain);
    }

    /** `postTunnelAction`: once more after a failure, with connection reuse and unless closing;
        what it answers and the connection it leaves are those of the steps. */
    method PostTunnelAction(action: Action, body: Str, first: Attempt, second: Attempt) returns (result: Str)
      requires action != ActOpen
      modifies this`clientOpen
      ensures Return(Begin(View(), action, body), result) ==
              Conclude(Begin(old(View()), action, body), reuse, first, second)
    {
      ghost var begun := Begin(View(), action, body);
      var response := SendOnce(action, first);
      if response.None? && reuse && action != ActClose {
        clientOpen := false;
        response := SendOnce(action, second);
      }
      result := match response case None => "" case Some(plain) => plain;
      Posted(begun, action, body, reuse, first, second, result, clientOpen);
    }

    /** `closeTunnelSession`, then `socketShutdown`. */
    method CloseTunnelAndShutdown(first: Attempt, second: Attempt)
      modifies this
      ensures View() == Conclude(CloseTunnel(old(View())), reuse, first, second)
    {
      hide Conclude;
      IdleIsConcluded(ShutSocket(View()), reuse, first, second);
      if !tunnelClosed {
        tunnelClosed := true;
        CancelPollTimer();
        var ignored := PostTunnelAction(ActClose, "", first, second);
      }
      SocketShutdown();
    }

    /** The read handler of `startTunnelReadFromClient`. */
    method OnClientRead(first: Attempt, second: Attempt)
      requires read.ReadReady? || read.ReadFailed?
      modifies this
      ensures View() == Conclude(RunRead(old(View())), reuse, first, second)
    {
      hide Conclude, CloseTunnel, StartRead;
      if read.ReadFailed? {
        read := NoRead;
        CloseTunnelAndShutdown(first, second);
        return;
      }
      var raw := read.chunk;
      read := NoRead;
      var ignored := PostTunnelAction(ActSend, raw, first, second);
      StartTunnelReadFromClient();
    }

    /** The timer handler of `startTunnelPollServer`. */
    method OnPollTimer(first: Attempt, second: Attempt)
      requires timer.TimerFired?
      modifies this
      ensures View() == Conclude(RunTimer(old(View())), reuse, first, second)
    {
      hide Conclude, StartPoll, StartWrite;
      IdleIsConcluded(RunTimer(View()), reuse, first, second);
      var aborted := timer.aborted;
      timer := TimerOff;
      pollInProgress := false;
      if aborted || tunnelClosed || closed {
        return;
      }
      var data := PostTunnelAction(ActRecv, "", first, second);
      if data != "" {
        AsyncWrite(data);
        return;
      }
      StartTunnelPollServer();
    }

    /** The write handlers: of the open reply, and of a payload. */
    method OnClientWritten(first: Attempt, second: Attempt)
      requires write.WriteDone?
      modifies this
      ensures View() == Conclude(RunWrite(old(View()), reuse), reuse, first, second)
    {
      hide Conclude, CloseTunnel, StartPoll, StartRead, ShutSocket;
      IdleIsConcluded(RunWrite(View(), reuse), reuse, first, second);
      var ok := write.ok;
      write := NoWrite;
      if !started {
        if !ok {
          SocketShutdown();
          return;
        }
        started := true;
        if !reuse {
          clientOpen := false;
        }
        StartTunnelReadFromClient();
        StartTunnelPollServer();
        return;
      }
      if !ok {
        CloseTunnelAndShutdown(first, second);
        return;
      }
      StartTunnelPollServer();
    }
  }

  lemma IdleIsConcluded(c: Core, reuse: bool, first: Attempt, second: Attempt)
    ensures c.agent.phase == Idle ==> Conclude(c, reuse, first, second) == c
  {
  }

  /** The synchronous retry loop and the stepwise one agree. */
  lemma Posted(begun: Core, action: Action, body: Str, reuse: bool, first: Attempt, second: Attempt,
               result: Str, open: bool)
    requires begun.agent.phase == Busy(Post(action, body), 1) && action != ActOpen
    requires
      var retry := !first.Response? && reuse && action != ActClose;
      var last := if retry then second else first;
      && result == (if last.Response? then last.plain else "")
      && open == (last.SealFailed? || (last.Response? && reuse && action != ActClose))
    ensures Return(begun.(connOpen := open), result) == Conclude(begun, reuse, first, second)
  {
  }
}
