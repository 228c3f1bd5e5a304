/** `TCPClient` as the agent uses it: one plain socket, one TLS stream, two flags and a
    timer. Every public method is one step; a timeout that was armed and cancelled too late
    may run between any two of them. */
module ClientLifecycle {
  import opened Bytes

  /** `closed_`, `tlsEnabled_`, whether `sslSocket_` exists, whether each layer is open and
      the TLS layer handshaken; whether a timer was ever armed and a connection ever made;
      and the bytes written so far in clear, over a handshaken TLS stream, and over a TLS
      stream before its handshake. */
  datatype Client = Client(
    closed: bool, tlsEnabled: bool, hasTls: bool, tlsOpen: bool, handshaken: bool, plainOpen: bool,
    armed: bool, connected: bool, plainSent: Str, tlsSent: Str, earlySent: Str)
  {
    /** `isOpen`. */
    predicate IsOpen() {
      if tlsEnabled && hasTls then tlsOpen else plainOpen
    }
  }

  const FRESH: Client := Client(false, false, false, false, false, false, false, false, "", "", "")

  datatype ConnectResult = ResolveFails | Throws | ConnectFails | Connects

  /** `socketShutdown`. */
  function Shutdown(c: Client): Client {
    if c.closed then c
    else c.(closed := true, tlsOpen := false, plainOpen := false, tlsEnabled := false)
  }

  function EnableTls(c: Client, setupOk: bool): (Client, bool) {
    if c.tlsEnabled then (c, true)
    else if !setupOk then (c, false)
    else (c.(hasTls := true, tlsOpen := false, handshaken := false, tlsEnabled := true), true)
  }

  function Connect(c: Client, result: ConnectResult): (Client, bool) {
    if c.tlsEnabled && c.hasTls && c.tlsOpen then (c, true)
    else if !c.tlsEnabled && c.plainOpen then (c, true)
    else
      match result
      case ResolveFails => (c, false)
      case Throws => (Shutdown(c.(armed := true)), false)
      case ConnectFails =>
        var tried := if c.tlsEnabled then c.(hasTls := true, handshaken := false, closed := false, armed := true)
                     else c.(closed := false, armed := true);
        (Shutdown(tried), false)
      case Connects =>
        if c.tlsEnabled then
          (c.(hasTls := true, handshaken := false, closed := false, armed := true, tlsOpen := true, connected := true),
           true)
        else (c.(closed := false, armed := true, plainOpen := true, connected := true), true)
  }

  function Handshake(c: Client, ok: bool): (Client, bool) {
    if !c.tlsEnabled || !c.hasTls then (c, true)
    else if !c.tlsOpen then (Shutdown(c), false)
    else if ok then (c.(armed := true, handshaken := true), true)
    else (Shutdown(c.(armed := true)), false)
  }

  /** `doWrite`: on failure only the first `cut` bytes have gone out. */
  function Write(c: Client, data: Str, ok: bool, cut: nat): (Client, bool) {
    if !c.IsOpen() || data == "" then (Shutdown(c), false)
    else
      var sent := if ok then data else data[..Min(cut, |data|)];
      var w := c.(armed := true);
      var after :=
        if !(c.tlsEnabled && c.hasTls) then w.(plainSent := c.plainSent + sent)
        else if c.handshaken then w.(tlsSent := c.tlsSent + sent)
        else w.(earlySent := c.earlySent + sent);
      (if ok then after else Shutdown(after), ok)
  }

  /** `doReadAgent`. */
  function Read(c: Client, ok: bool): (Client, bool) {
    if !c.IsOpen() then (c, false)
    else (if ok then c.(armed := true) else Shutdown(c.(armed := true)), ok)
  }

  /** `onTimeout`, if a timer was ever armed. */
  function Tick(c: Client, fires: bool): Client {
    if fires && c.armed then Shutdown(c) else c
  }

  // ----- every call sequence ------------------------------------------------------------------

  datatype Call =
    | CallEnableTls(setupOk: bool)
    | CallConnect(result: ConnectResult)
    | CallHandshake(ok: bool)
    | CallWrite(data: Str, writeOk: bool, cut: nat)
    | CallRead(readOk: bool)
    | CallShutdown
    | CallTimeout

  function Step(c: Client, call: Call): Client {
    match call
    case CallEnableTls(ok) => EnableTls(c, ok).0
    case CallConnect(result) => Connect(c, result).0
    case CallHandshake(ok) => Handshake(c, ok).0
    case CallWrite(data, ok, cut) => Write(c, data, ok, cut).0
    case CallRead(ok) => Read(c, ok).0
    case CallShutdown => Shutdown(c)
    case CallTimeout => Tick(c, true)
  }

  function Run(c: Client, calls: seq<Call>): Client
    decreases calls
  {
    if calls == [] then c else Run(Step(c, calls[0]), calls[1..])
  }

  /** The mode invariant: a closed client has both layers closed; a client with neither layer
      open that is not closed never connected and has no timer behind it, and one with an open
      layer did connect; TLS mode has a TLS stream, and an open TLS stream is in TLS mode. */
  predicate Inv(c: Client) {
    && (c.closed ==> !c.plainOpen && !c.tlsOpen)
    && (!c.plainOpen && !c.tlsOpen && !c.closed ==> !c.connected && !c.armed)
    && (c.plainOpen || c.tlsOpen ==> c.connected)
    && (c.tlsEnabled ==> c.hasTls)
    && (c.tlsOpen ==> c.tlsEnabled)
  }

  lemma StepKeepsInv(c: Client, call: Call)
    requires Inv(c)
    ensures Inv(Step(c, call))
  {
  }

  /** The invariant holds after every sequence of calls and timeouts on a new client. */
  lemma {:induction false} RunKeepsInv(c: Client, calls: seq<Call>)
    requires Inv(c)
    ensures Inv(Run(c, calls))
    decreases calls
  {
    if calls != [] {
      StepKeepsInv(c, calls[0]);
      RunKeepsInv(Step(c, calls[0]), calls[1..]);
    }
  }

  /** In terms of `isOpen` alone the second clause would be false: enabling TLS on a client
      with an open plain connection leaves it neither open nor closed. */
  lemma NotOpenNotClosedYetConnected()
    ensures
      var c := Run(FRESH, [CallConnect(Connects), CallEnableTls(true)]);
      !c.IsOpen() && !c.closed && c.connected
  {
    var calls := [CallConnect(Connects), CallEnableTls(true)];
    assert calls[1..] == [CallEnableTls(true)] && calls[1..][1..] == [];
  }

  /** Exactly that: for a reachable client, "not open and not closed" means "never connected"
      if and only if no plain connection is hidden behind TLS mode. */
  lemma NotOpenNotClosedMeansNeverConnected(c: Client)
    requires Inv(c) && !c.IsOpen() && !c.closed
    ensures c.connected <==> c.plainOpen
    ensures c.plainOpen ==> c.tlsEnabled
  {
  }

  // ----- the agent's two call sites, TLS configured -------------------------------------------------

  /** What the network does and which of the gaps between calls a timeout falls into. */
  datatype Schedule = Schedule(
    setupOk: bool, connect: ConnectResult, handshakeOk: bool, writeOk: bool, cut: nat,
    afterMode: bool, beforeConnect: bool, afterConnect: bool, beforeHandshake: bool, beforeWrite: bool)

  /** The handshake after a connect, if the client is still in TLS mode. */
  function HandshakeIfTls(c: Client, s: Schedule): (Client, bool) {
    var c1 := Tick(c, s.afterConnect);
    if !c1.tlsEnabled then (c1, true) else Handshake(Tick(c1, s.beforeHandshake), s.handshakeOk)
  }

  /** Connect, then handshake. */
  function ConnectAndHandshake(c: Client, s: Schedule): (Client, bool) {
    var (c1, connected) := Connect(Tick(c, s.beforeConnect), s.connect);
    if !connected then (c1, false) else HandshakeIfTls(c1, s)
  }

  /** Open already, or connect and handshake. */
  function Reached(c: Client, s: Schedule): (Client, bool) {
    if c.IsOpen() then (c, true) else ConnectAndHandshake(c, s)
  }

  /** `AgentHandler::handle` up to its write, with `tlsEnable` set. */
  function HandleWrites(c: Client, data: Str, s: Schedule): Client {
    var (c1, ready) := if c.tlsEnabled then (c, true) else EnableTls(c, s.setupOk);
    if !ready then Shutdown(c1)
    else
      var (c2, go) := Reached(Tick(c1, s.afterMode), s);
      if !go then Shutdown(c2) else Write(Tick(c2, s.beforeWrite), data, s.writeOk, s.cut).0
  }

  /** `sendOnce` of `postTunnelAction` up to its write, with `tlsEnable` set. */
  function PostWrites(c: Client, data: Str, s: Schedule): Client {
    var alreadyOpen := c.IsOpen();
    var c1 := Tick(c, s.afterMode);
    if alreadyOpen then Write(Tick(c1, s.beforeWrite), data, s.writeOk, s.cut).0
    else
      var (c2, ready) := EnableTls(c1, s.setupOk);
      if !ready then c2
      else
        var (c3, go) := ConnectAndHandshake(c2, s);
        if !go then c3 else Write(Tick(c3, s.beforeWrite), data, s.writeOk, s.cut).0
  }

  /** No plain connection is open, nothing was written outside a handshaken TLS stream, and
      an open TLS stream is handshaken. */
  predicate OnlyTls(c: Client) {
    && Inv(c)
    && !c.plainOpen && c.plainSent == "" && c.earlySent == ""
    && (c.tlsOpen ==> c.handshaken)
  }

  lemma TickKeepsTls(c: Client, fires: bool)
    requires OnlyTls(c)
    ensures OnlyTls(Tick(c, fires)) && Tick(c, fires).tlsSent == c.tlsSent
  {
  }

  lemma WriteKeepsTls(c: Client, data: Str, ok: bool, cut: nat)
    requires OnlyTls(c)
    ensures OnlyTls(Write(c, data, ok, cut).0)
    ensures c.tlsSent <= Write(c, data, ok, cut).0.tlsSent <= c.tlsSent + data
  {
  }

  /** In TLS mode with nothing open, a timeout has nothing to do. */
  predicate ReadyToConnect(c: Client) {
    OnlyTls(c) && c.tlsEnabled && !c.tlsOpen
  }

  lemma TickIsIdle(c: Client, fires: bool)
    requires ReadyToConnect(c)
    ensures Tick(c, fires) == c
  {
  }

  lemma EnableKeepsTls(c: Client, setupOk: bool)
    requires OnlyTls(c) && !c.IsOpen()
    ensures var (after, ready) := EnableTls(c, setupOk);
            OnlyTls(after) && after.tlsSent == c.tlsSent && (ready ==> ReadyToConnect(after))
  {
  }

  lemma ConnectKeepsTls(c: Client, s: Schedule)
    requires ReadyToConnect(c)
    ensures OnlyTls(ConnectAndHandshake(c, s).0) && ConnectAndHandshake(c, s).0.tlsSent == c.tlsSent
  {
    hide Tick, OnlyTls, HandshakeIfTls;
    TickIsIdle(c, s.beforeConnect);
    ConnectOutcome(c, s.connect);
    var (c1, connected) := Connect(c, s.connect);
    if connected {
      HandshakeOutcome(c1, s);
    }
  }

  /** Freshly connected in TLS mode, the handshake still to come. */
  predicate AwaitsHandshake(c: Client) {
    && c.tlsEnabled && c.hasTls && c.tlsOpen && !c.closed && !c.plainOpen && c.armed && c.connected
    && c.plainSent == "" && c.earlySent == ""
  }

  lemma ConnectOutcome(c: Client, result: ConnectResult)
    requires ReadyToConnect(c)
    ensures var (after, connected) := Connect(c, result);
            after.tlsSent == c.tlsSent && if connected then AwaitsHandshake(after) else OnlyTls(after)
  {
  }

  lemma HandshakeOutcome(c: Client, s: Schedule)
    requires AwaitsHandshake(c)
    ensures OnlyTls(HandshakeIfTls(c, s).0) && HandshakeIfTls(c, s).0.tlsSent == c.tlsSent
  {
  }

  /** Whatever happens on the network and whenever timeouts fall, `postTunnelAction` writes
      over a handshaken TLS stream or not at all. */
  lemma PostKeepsTls(c: Client, data: Str, s: Schedule)
    requires OnlyTls(c)
    ensures OnlyTls(PostWrites(c, data, s))
    ensures c.tlsSent <= PostWrites(c, data, s).tlsSent <= c.tlsSent + data
  {
    hide OnlyTls, Tick, Write, EnableTls, ConnectAndHandshake;
    TickKeepsTls(c, s.afterMode);
    var c1 := Tick(c, s.afterMode);
    if c.IsOpen() {
      TickKeepsTls(c1, s.beforeWrite);
      WriteKeepsTls(Tick(c1, s.beforeWrite), data, s.writeOk, s.cut);
    } else {
      ClosedStaysClosed(c, s.afterMode);
      EnableKeepsTls(c1, s.setupOk);
      var (c2, ready) := EnableTls(c1, s.setupOk);
      if ready {
        ConnectKeepsTls(c2, s);
        var (c3, go) := ConnectAndHandshake(c2, s);
        TickKeepsTls(c3, s.beforeWrite);
        WriteKeepsTls(Tick(c3, s.beforeWrite), data, s.writeOk, s.cut);
      }
    }
  }

  lemma ClosedStaysClosed(c: Client, fires: bool)
    requires OnlyTls(c) && !c.IsOpen()
    ensures !Tick(c, fires).IsOpen()
  {
  }

  lemma ShutdownKeepsTls(c: Client)
    requires OnlyTls(c)
    ensures OnlyTls(Shutdown(c))
  {
  }

  /** The one schedule `handle` does not survive: the client is open on entry and a timeout
      closes it, dropping TLS mode, between the mode check and the open check. */
  predicate LosesMode(c: Client, s: Schedule) {
    c.IsOpen() && c.armed && s.afterMode
  }

  lemma HandleKeepsTls(c: Client, data: Str, s: Schedule)
    requires OnlyTls(c) && !LosesMode(c, s)
    ensures OnlyTls(HandleWrites(c, data, s))
  {
    hide OnlyTls, Tick, Write, EnableTls, ConnectAndHandshake, LosesMode, Shutdown;
    var (c1, ready) := if c.tlsEnabled then (c, true) else EnableTls(c, s.setupOk);
    ModeEntered(c, s);
    ShutdownKeepsTls(c1);
    if ready {
      var c2 := Tick(c1, s.afterMode);
      if !c2.IsOpen() {
        ConnectKeepsTls(c2, s);
      }
      var c3 := Reached(c2, s).0;
      ShutdownKeepsTls(c3);
      TickKeepsTls(c3, s.beforeWrite);
      WriteKeepsTls(Tick(c3, s.beforeWrite), data, s.writeOk, s.cut);
    }
  }

  lemma ModeEntered(c: Client, s: Schedule)
    requires OnlyTls(c) && !LosesMode(c, s)
    ensures
      var (c1, ready) := if c.tlsEnabled then (c, true) else EnableTls(c, s.setupOk);
      var c2 := Tick(c1, s.afterMode);
      OnlyTls(c1) && (ready ==> OnlyTls(c2) && (c2.IsOpen() || ReadyToConnect(c2)))
  {
  }

  /** `handle` keeps to TLS under every schedule exactly when the client is not open on entry
      (or no timer was ever armed on it). */
  lemma HandleKeepsTlsExactlyWhen(c: Client, data: Str)
    requires OnlyTls(c) && data != ""
    ensures (forall s: Schedule :: OnlyTls(HandleWrites(c, data, s))) <==> !(c.IsOpen() && c.armed)
  {
    if c.IsOpen() && c.armed {
      var s := Schedule(true, Connects, true, true, 0, true, false, false, false, false);
      assert HandleWrites(c, data, s).plainSent == data;
      assert !OnlyTls(HandleWrites(c, data, s));
    } else {
      forall s: Schedule ensures OnlyTls(HandleWrites(c, data, s)) {
        HandleKeepsTls(c, data, s);
      }
    }
  }

  /** A client's life at the agent: any number of uses, with shutdowns and timeouts between. */
  datatype Use =
    | Handled(request: Str, first: Schedule)
    | Posted(message: Str, each: Schedule)
    | Stopped
    | TimedOut
    | Answered(ok: bool)

  /** Everything succeeds and no timeout falls into a gap. */
  const SMOOTH: Schedule := Schedule(true, Connects, true, true, 0, false, false, false, false, false)

  function AfterUse(c: Client, use: Use): Client {
    match use
    case Handled(data, s) => HandleWrites(c, data, s)
    case Posted(data, s) => PostWrites(c, data, s)
    case Stopped => Shutdown(c)
    case TimedOut => Tick(c, true)
    case Answered(ok) => Read(c, ok).0
  }

  function AfterUses(c: Client, uses: seq<Use>): Client
    decreases uses
  {
    if uses == [] then c else AfterUses(AfterUse(c, uses[0]), uses[1..])
  }

  /** No use in the sequence lets a timeout drop TLS mode under an open client. */
  predicate ModeKept(c: Client, uses: seq<Use>)
    decreases uses
  {
    uses == [] || ((uses[0].Handled? ==> !LosesMode(c, uses[0].first)) && ModeKept(AfterUse(c, uses[0]), uses[1..]))
  }

  /** Over a whole life of such uses, no byte leaves the agent outside a handshaken TLS
      stream. */
  lemma {:induction false} UsesKeepTls(c: Client, uses: seq<Use>)
    requires OnlyTls(c) && ModeKept(c, uses)
    ensures OnlyTls(AfterUses(c, uses))
    decreases uses
  {
    if uses != [] {
      match uses[0] {
        case Handled(data, s) => HandleKeepsTls(c, data, s);
        case Posted(data, s) => PostKeepsTls(c, data, s);
        case _ =>
      }
      UsesKeepTls(AfterUse(c, uses[0]), uses[1..]);
    }
  }

  /** The failing schedule is reachable: a client kept open after one request, a timeout in
      the gap of the next, and that request goes out in clear. */
  lemma SecondRequestInClear()
    ensures
      var c := AfterUses(FRESH, [Handled("a", SMOOTH)]);
      && OnlyTls(c) && c.IsOpen() && c.armed && c.tlsSent == "a"
      && HandleWrites(c, "b", SMOOTH.(afterMode := true)).plainSent == "b"
  {
    var uses := [Handled("a", SMOOTH)];
    assert uses[1..] == [];
  }

  // ----- one attempt of `postTunnelAction` ------------------------------------------------------------

  /** Up to the write: already open, or mode, connect and handshake. */
  function MadeReady(c: Client, tls: bool, s: Schedule): (Client, bool) {
    var c1 := Tick(c, s.afterMode);
    if c.IsOpen() then (c1, true)
    else
      var (c2, ready) := if tls then EnableTls(c1, s.setupOk) else (c1, true);
      if !ready then (c2, false) else ConnectAndHandshake(c2, s)
  }

  /** From the write on: the response is read, and the connection kept or not. */
  function Exchange(c: Client, data: Str, keepAlive: bool, s: Schedule, beforeRead: bool, readOk: bool)
    : (Client, bool)
  {
    var (c1, written) := Write(Tick(c, s.beforeWrite), data, s.writeOk, s.cut);
    if !written then (Shutdown(c1), false)
    else
      var (c2, read) := Read(Tick(c1, beforeRead), readOk);
      if !read then (Shutdown(c2), false) else (if keepAlive then c2 else Shutdown(c2), true)
  }

  /** `sendOnce`, with or without TLS configured; `None` is a message that sealing refused.
      The flag says whether a response was read. */
  function Attempted(c: Client, tls: bool, message: Option<Str>, keepAlive: bool,
                     s: Schedule, beforeRead: bool, readOk: bool): (Client, bool) {
    var (c1, ready) := MadeReady(c, tls, s);
    if !ready || message.None? then (c1, false)
    else Exchange(c1, message.value, keepAlive, s, beforeRead, readOk)
  }

  lemma MadeReadyKeepsTls(c: Client, s: Schedule)
    requires OnlyTls(c)
    ensures OnlyTls(MadeReady(c, true, s).0) && MadeReady(c, true, s).0.tlsSent == c.tlsSent
  {
    hide OnlyTls, Tick, EnableTls, ConnectAndHandshake;
    TickKeepsTls(c, s.afterMode);
    var c1 := Tick(c, s.afterMode);
    if !c.IsOpen() {
      ClosedStaysClosed(c, s.afterMode);
      EnableKeepsTls(c1, s.setupOk);
      var (c2, ready) := EnableTls(c1, s.setupOk);
      if ready { ConnectKeepsTls(c2, s); }
    }
  }

  lemma ReadKeepsTls(c: Client, ok: bool)
    requires OnlyTls(c)
    ensures OnlyTls(Read(c, ok).0) && Read(c, ok).0.tlsSent == c.tlsSent
  {
  }

  /** A whole attempt, its read included, keeps to TLS under every schedule. */
  lemma AttemptKeepsTls(c: Client, message: Option<Str>, keepAlive: bool, s: Schedule, beforeRead: bool, readOk: bool)
    requires OnlyTls(c)
    ensures OnlyTls(Attempted(c, true, message, keepAlive, s, beforeRead, readOk).0)
  {
    hide OnlyTls, Tick, Write, Read, MadeReady, Shutdown;
    MadeReadyKeepsTls(c, s);
    var (c1, ready) := MadeReady(c, true, s);
    if ready && message.Some? {
      TickKeepsTls(c1, s.beforeWrite);
      WriteKeepsTls(Tick(c1, s.beforeWrite), message.value, s.writeOk, s.cut);
      var c2 := Write(Tick(c1, s.beforeWrite), message.value, s.writeOk, s.cut).0;
      ShutdownKeepsTls(c2);
      TickKeepsTls(c2, beforeRead);
      ReadKeepsTls(Tick(c2, beforeRead), readOk);
      ShutdownKeepsTls(Read(Tick(c2, beforeRead), readOk).0);
    }
  }

  predicate NoTimeout(s: Schedule) {
    !s.afterMode && !s.beforeConnect && !s.afterConnect && !s.beforeHandshake && !s.beforeWrite
  }

  /** How an attempt leaves the client, timeouts aside: open exactly if it got as far as sealing
      and that failed, or if a response was read and the connection is kept. */
  lemma AttemptLeavesOpen(c: Client, tls: bool, message: Option<Str>, keepAlive: bool, s: Schedule, readOk: bool)
    requires Inv(c) && NoTimeout(s)
    ensures
      var (after, responded) := Attempted(c, tls, message, keepAlive, s, false, readOk);
      && (responded ==> message.Some?)
      && (after.IsOpen() <==> (MadeReady(c, tls, s).1 && message.None?) || (responded && keepAlive))
  {
    hide Inv, MadeReady, Exchange, Client.IsOpen;
    ReadyMeansOpen(c, tls, s);
    var (c1, ready) := MadeReady(c, tls, s);
    if ready && message.Some? {
      ExchangeLeavesOpen(c1, message.value, keepAlive, s, readOk);
    }
  }

  lemma ExchangeLeavesOpen(c: Client, data: Str, keepAlive: bool, s: Schedule, readOk: bool)
    requires Inv(c) && c.IsOpen() && NoTimeout(s)
    ensures
      var (after, responded) := Exchange(c, data, keepAlive, s, false, readOk);
      after.IsOpen() <==> responded && keepAlive
  {
  }

  lemma ReadyMeansOpen(c: Client, tls: bool, s: Schedule)
    requires Inv(c) && NoTimeout(s)
    ensures Inv(MadeReady(c, tls, s).0)
    ensures MadeReady(c, tls, s).0.IsOpen() <==> MadeReady(c, tls, s).1
  {
    hide Inv, EnableTls, ConnectAndHandshake, Client.IsOpen;
    if !c.IsOpen() {
      EnableLeavesClosed(c, s.setupOk);
      if tls { ConnectedMeansOpen(EnableTls(c, s.setupOk).0, s); } else { ConnectedMeansOpen(c, s); }
    }
  }

  lemma EnableLeavesClosed(c: Client, setupOk: bool)
    requires Inv(c) && !c.IsOpen()
    ensures Inv(EnableTls(c, setupOk).0) && !EnableTls(c, setupOk).0.IsOpen()
  {
  }

  lemma ConnectedMeansOpen(c: Client, s: Schedule)
    requires Inv(c) && !c.IsOpen() && NoTimeout(s)
    ensures Inv(ConnectAndHandshake(c, s).0)
    ensures ConnectAndHandshake(c, s).0.IsOpen() <==> ConnectAndHandshake(c, s).1
  {
    hide Inv, Connect, HandshakeIfTls, Client.IsOpen;
    ConnectOpens(c, s.connect);
    var (c1, connected) := Connect(c, s.connect);
    if connected { HandshakeKeepsOpen(c1, s); }
  }

  lemma ConnectOpens(c: Client, result: ConnectResult)
    requires Inv(c) && !c.IsOpen()
    ensures Inv(Connect(c, result).0) && (Connect(c, result).0.IsOpen() <==> Connect(c, result).1)
  {
  }

  lemma HandshakeKeepsOpen(c: Client, s: Schedule)
    requires Inv(c) && c.IsOpen() && NoTimeout(s)
    ensures Inv(HandshakeIfTls(c, s).0) && (HandshakeIfTls(c, s).0.IsOpen() <==> HandshakeIfTls(c, s).1)
  {
  }

  // ----- what success and failure mean ------------------------------------------------------------------

  /** A write that answers true has put exactly its data behind what the layer in use had sent,
      and touched no other layer; it answers true exactly for an open client and some data. */
  lemma WriteSendsAll(c: Client, data: Str, cut: nat)
    ensures
      var (after, ok) := Write(c, data, true, cut);
      && (ok <==> c.IsOpen() && data != "")
      && (ok ==>
            var tls := c.tlsEnabled && c.hasTls;
            && after.plainSent == (if tls then c.plainSent else c.plainSent + data)
            && after.tlsSent == (if tls && c.handshaken then c.tlsSent + data else c.tlsSent)
            && after.earlySent == (if tls && !c.handshaken then c.earlySent + data else c.earlySent)
            && after.IsOpen() && after.closed == c.closed && after.armed)
  {
  }

  /** The layer of the current mode is open, so that a connect has nothing to do. */
  predicate LayerOpen(c: Client) {
    if c.tlsEnabled then c.hasTls && c.tlsOpen else c.plainOpen
  }

  /** The other calls answer true exactly if they have nothing to do or if all goes well. */
  lemma SucceedsExactly(c: Client, ok: bool, result: ConnectResult)
    ensures EnableTls(c, ok).1 <==> c.tlsEnabled || ok
    ensures Connect(c, result).1 <==> LayerOpen(c) || result == Connects
    ensures Handshake(c, ok).1 <==> !c.tlsEnabled || !c.hasTls || (c.tlsOpen && ok)
    ensures Read(c, ok).1 <==> c.IsOpen() && ok
  {
  }

  /** And what they leave: a fresh TLS stream without a handshake, an open layer, a handshaken
      stream; a timer behind all but the first. */
  lemma SuccessLeaves(c: Client, ok: bool)
    ensures !c.tlsEnabled ==>
              var n := EnableTls(c, true).0;
              n.tlsEnabled && n.hasTls && !n.tlsOpen && !n.handshaken && n.armed == c.armed && n.closed == c.closed
    ensures !LayerOpen(c) ==>
              var n := Connect(c, Connects).0;
              && n.IsOpen() && LayerOpen(n) && n.tlsEnabled == c.tlsEnabled && n.armed && n.connected && !n.closed
              && (n.tlsEnabled ==> !n.handshaken && n.plainOpen == c.plainOpen)
    ensures c.tlsEnabled && c.hasTls && c.tlsOpen ==>
              var n := Handshake(c, true).0;
              n.handshaken && n.tlsOpen && n.armed
    ensures c.IsOpen() ==> Read(c, true).0 == c.(armed := true)
  {
  }

  /** The calls without effect. */
  predicate Idles(c: Client, call: Call) {
    match call
    case CallEnableTls(setupOk) => c.tlsEnabled || !setupOk
    case CallConnect(result) => LayerOpen(c) || result == ResolveFails
    case CallHandshake(_) => !c.tlsEnabled || !c.hasTls
    case CallWrite(_, _, _) => false
    case CallRead(_) => !c.IsOpen()
    case CallShutdown => c.closed
    case CallTimeout => c.closed || !c.armed
  }

  /** A name that does not resolve, above all, leaves the client as it was. */
  lemma IdleCallsChangeNothing(c: Client, call: Call)
    requires Idles(c, call)
    ensures Step(c, call) == c
  {
  }

  /** The calls that fail, or that shut the client down by themselves. */
  predicate Fails(c: Client, call: Call) {
    match call
    case CallConnect(result) => !LayerOpen(c) && (result.Throws? || result.ConnectFails?)
    case CallHandshake(ok) => c.tlsEnabled && c.hasTls && (!c.tlsOpen || !ok)
    case CallWrite(data, ok, _) => !c.IsOpen() || data == "" || !ok
    case CallRead(ok) => c.IsOpen() && !ok
    case CallShutdown => true
    case CallTimeout => c.armed
    case CallEnableTls(_) => false
  }

  /** After each of them the client is closed, with nothing open, and what the wire already took
      stays what it was, but for a prefix of a failing write. */
  lemma FailuresShut(c: Client, call: Call)
    requires Inv(c) && Fails(c, call)
    ensures
      var after := Step(c, call);
      && after.closed && !after.IsOpen() && !after.plainOpen && !after.tlsOpen
      && c.plainSent <= after.plainSent && c.tlsSent <= after.tlsSent && c.earlySent <= after.earlySent
      && (!call.CallWrite? ==>
            after.plainSent == c.plainSent && after.tlsSent == c.tlsSent && after.earlySent == c.earlySent)
  {
    match call {
      case CallWrite(data, ok, cut) => FailedWriteShuts(c, data, ok, cut);
      case _ =>
    }
  }

  lemma FailedWriteShuts(c: Client, data: Str, ok: bool, cut: nat)
    requires Inv(c) && (!c.IsOpen() || data == "" || !ok)
    ensures
      var after := Write(c, data, ok, cut).0;
      && after.closed && !after.plainOpen && !after.tlsOpen
      && c.plainSent <= after.plainSent && c.tlsSent <= after.tlsSent && c.earlySent <= after.earlySent
  {
  }

  /** Nothing fails and no timeout falls into a gap. */
  predicate Smooth(s: Schedule) {
    NoTimeout(s) && s.setupOk && s.connect == Connects && s.handshakeOk && s.writeOk
  }

  lemma SmoothMadeReady(c: Client, s: Schedule)
    requires OnlyTls(c) && Smooth(s)
    ensures
      var (ready, ok) := MadeReady(c, true, s);
      && ok && ready.IsOpen() && !ready.closed && ready.tlsEnabled && ready.handshaken && ready.hasTls
      && ready.tlsSent == c.tlsSent
  {
  }

  /** Then all of it goes out over TLS: by `handle`, and by a whole attempt, whose response is
      read and whose connection is kept exactly if asked for. */
  lemma SmoothSendsAll(c: Client, data: Str, keepAlive: bool, s: Schedule)
    requires OnlyTls(c) && Smooth(s) && data != ""
    ensures PostWrites(c, data, s).tlsSent == c.tlsSent + data
    ensures HandleWrites(c, data, s).tlsSent == c.tlsSent + data
    ensures
      var (after, responded) := Attempted(c, true, Some(data), keepAlive, s, false, true);
      responded && after.tlsSent == c.tlsSent + data && (after.IsOpen() <==> keepAlive)
  {
    hide OnlyTls, Connect, Handshake, EnableTls, Shutdown, MadeReady, Write, Read;
    SmoothAttempt(c, data, keepAlive, s);
    SmoothPost(c, data, s);
    SmoothHandle(c, data, s);
  }

  lemma SmoothAttempt(c: Client, data: Str, keepAlive: bool, s: Schedule)
    requires OnlyTls(c) && Smooth(s) && data != ""
    ensures
      var (after, responded) := Attempted(c, true, Some(data), keepAlive, s, false, true);
      responded && after.tlsSent == c.tlsSent + data && (after.IsOpen() <==> keepAlive)
  {
    hide OnlyTls, MadeReady;
    SmoothMadeReady(c, s);
  }

  lemma SmoothPost(c: Client, data: Str, s: Schedule)
    requires OnlyTls(c) && Smooth(s) && data != ""
    ensures PostWrites(c, data, s).tlsSent == c.tlsSent + data
  {
    hide OnlyTls, Write, Connect, Handshake;
    SmoothMadeReady(c, s);
    WriteSendsAll(MadeReady(c, true, s).0, data, s.cut);
  }

  lemma SmoothHandle(c: Client, data: Str, s: Schedule)
    requires OnlyTls(c) && Smooth(s) && data != ""
    ensures HandleWrites(c, data, s).tlsSent == c.tlsSent + data
  {
    hide Write;
    var c1 := if c.tlsEnabled then c else EnableTls(c, s.setupOk).0;
    WriteSendsAll(Reached(c1, s).0, data, s.cut);
  }

  /** Conversely a response is read only if everything it needed went well: an open client or a
      connect, in TLS mode over a set-up context and a handshake, then a write of some data and
      a read. */
  lemma RespondedMeansAllWell(c: Client, message: Option<Str>, keepAlive: bool, s: Schedule, beforeRead: bool,
                              readOk: bool)
    requires OnlyTls(c) && Attempted(c, true, message, keepAlive, s, beforeRead, readOk).1
    ensures message.Some? && message.value != "" && s.writeOk && readOk
    ensures c.IsOpen() || ((c.tlsEnabled || s.setupOk) && s.connect == Connects && s.handshakeOk)
  {
    hide Write, Read, MadeReady;
    var (ready, ok) := MadeReady(c, true, s);
    if !c.IsOpen() { ReadyMeansConnected(c, s); }
    WriteAndReadNeedSuccess(Tick(ready, s.beforeWrite), message.value, s, beforeRead, readOk);
    WrittenOverTls(c, s);
  }

  lemma WriteAndReadNeedSuccess(c: Client, data: Str, s: Schedule, beforeRead: bool, readOk: bool)
    ensures Write(c, data, s.writeOk, s.cut).1 ==> data != "" && s.writeOk && c.IsOpen()
    ensures Read(Tick(Write(c, data, s.writeOk, s.cut).0, beforeRead), readOk).1 ==> readOk
  {
  }

  lemma ReadyMeansConnected(c: Client, s: Schedule)
    requires OnlyTls(c) && !c.IsOpen() && MadeReady(c, true, s).1
    ensures (c.tlsEnabled || s.setupOk) && s.connect == Connects
  {
  }

  /** Without the handshake nothing is left open to write to. */
  lemma WrittenOverTls(c: Client, s: Schedule)
    requires OnlyTls(c)
    ensures !c.IsOpen() && MadeReady(c, true, s).0.IsOpen() ==> s.handshakeOk
  {
    hide Connect, HandshakeIfTls;
    if !c.IsOpen() && (c.tlsEnabled || s.setupOk) {
      var c1 := EnableTls(c, s.setupOk).0;
      ConnectedInMode(c1, s);
      HandshakeOrShut(Connect(c1, s.connect).0, s);
    }
  }

  lemma ConnectedInMode(c: Client, s: Schedule)
    requires OnlyTls(c) && !c.IsOpen() && c.tlsEnabled
    ensures Tick(c, s.beforeConnect) == c
    ensures var (c1, connected) := Connect(c, s.connect); Inv(c1) && !c1.plainOpen && (c1.IsOpen() ==> connected)
  {
  }

  lemma HandshakeOrShut(c: Client, s: Schedule)
    requires Inv(c) && !c.plainOpen
    ensures HandshakeIfTls(c, s).0.IsOpen() ==> s.handshakeOk
  {
  }

  /** And in clear, when TLS is not configured. */
  lemma SmoothSendsAllInClear(c: Client, data: Str, keepAlive: bool, s: Schedule)
    requires Inv(c) && !c.tlsEnabled && Smooth(s) && data != ""
    ensures
      var (after, responded) := Attempted(c, false, Some(data), keepAlive, s, false, true);
      && responded && after.plainSent == c.plainSent + data && (after.IsOpen() <==> keepAlive)
      && after.tlsSent == c.tlsSent && after.earlySent == c.earlySent
  {
  }

  // ----- the object -------------------------------------------------------------------------------

  class TlsStream {
    var open: bool
    var handshaken: bool

    constructor ()
      ensures !open && !handshaken
    {
      open, handshaken := false, false;
    }
  }

  /** The fields of a `TCPClient`; what the network answers is a parameter of each method. */
  class TcpClient {
    var closed: bool
    var tlsEnabled: bool
    var sslSocket: TlsStream?
    var socketOpen: bool
    var armed: bool
    ghost var connected: bool
    ghost var plainSent: Str
    ghost var tlsSent: Str
    ghost var earlySent: Str

    ghost function State(): Client
      reads this, sslSocket
    {
      Client(closed, tlsEnabled, sslSocket != null, sslSocket != null && sslSocket.open,
             sslSocket != null && sslSocket.handshaken, socketOpen, armed, connected, plainSent, tlsSent, earlySent)
    }

    constructor ()
      ensures State() == FRESH
    {
      closed, tlsEnabled, sslSocket, socketOpen := false, false, null, false;
      armed, connected, plainSent, tlsSent, earlySent := false, false, "", "", "";
    }

    method IsOpen() returns (open: bool)
      ensures open == State().IsOpen()
    {
      if tlsEnabled && sslSocket != null {
        return sslSocket.open;
      }
      return socketOpen;
    }

    /** `tlsEnabled`. */
    method TlsEnabled() returns (enabled: bool)
      ensures enabled == State().tlsEnabled
    {
      return tlsEnabled;
    }

    method SocketShutdown()
      modifies this, sslSocket
      ensures State() == Shutdown(old(State())) && sslSocket == old(sslSocket)
    {
      if closed {
        return;
      }
      closed := true;
      if sslSocket != null {
        if sslSocket.open {
          sslSocket.open := false;
        }
      }
      if socketOpen {
        socketOpen := false;
      }
      tlsEnabled := false;
    }

    method EnableTlsClient(setupOk: bool) returns (ok: bool)
      modifies this
      ensures (State(), ok) == EnableTls(old(State()), setupOk)
      ensures sslSocket == old(sslSocket) || fresh(sslSocket)
    {
      if tlsEnabled {
        return true;
      }
      if !setupOk {
        return false;
      }
      sslSocket := new TlsStream();
      tlsEnabled := true;
      return true;
    }

    method DoConnect(result: ConnectResult) returns (ok: bool)
      modifies this, sslSocket
      ensures (State(), ok) == Connect(old(State()), result)
      ensures sslSocket == old(sslSocket) || fresh(sslSocket)
    {
      if tlsEnabled && sslSocket != null && sslSocket.open {
        return true;
      }
      if !tlsEnabled && socketOpen {
        return true;
      }
      if result == ResolveFails {
        return false;
      }
      armed := true;
      if result == Throws {
        SocketShutdown();
        return false;
      }
      if tlsEnabled {
        sslSocket := new TlsStream();
        closed := false;
        if result == Connects {
          sslSocket.open, connected := true, true;
        }
      } else {
        socketOpen := false;
        closed := false;
        if result == Connects {
          socketOpen, connected := true, true;
        }
      }
      if result == ConnectFails {
        SocketShutdown();
        return false;
      }
      return true;
    }

    method DoHandshakeClient(handshakeOk: bool) returns (ok: bool)
      modifies this, sslSocket
      ensures (State(), ok) == Handshake(old(State()), handshakeOk)
      ensures sslSocket == old(sslSocket)
    {
      if !tlsEnabled || sslSocket == null {
        return true;
      }
      if !sslSocket.open {
        SocketShutdown();
        return false;
      }
      armed := true;
      if !handshakeOk {
        SocketShutdown();
        return false;
      }
      sslSocket.handshaken := true;
      return true;
    }

    method DoWrite(data: Str, writeOk: bool, cut: nat) returns (ok: bool)
      modifies this, sslSocket
      ensures (State(), ok) == Write(old(State()), data, writeOk, cut)
      ensures sslSocket == old(sslSocket)
    {
      var open := IsOpen();
      if !open {
        SocketShutdown();
        return false;
      }
      if data == "" {
        SocketShutdown();
        return false;
      }
      armed := true;
      ghost var sent := if writeOk then data else data[..Min(cut, |data|)];
      if tlsEnabled && sslSocket != null {
        if sslSocket.handshaken {
          tlsSent := tlsSent + sent;
        } else {
          earlySent := earlySent + sent;
        }
      } else {
        plainSent := plainSent + sent;
      }
      if !writeOk {
        SocketShutdown();
        return false;
      }
      return true;
    }

    method DoReadAgent(readOk: bool) returns (ok: bool)
      modifies this, sslSocket
      ensures (State(), ok) == Read(old(State()), readOk)
      ensures sslSocket == old(sslSocket)
    {
      var open := IsOpen();
      if !open {
        return false;
      }
      armed := true;
      if !readOk {
        SocketShutdown();
        return false;
      }
      return true;
    }

    method OnTimeout(aborted: bool)
      requires armed
      modifies this, sslSocket
      ensures State() == Tick(old(State()), !aborted) && sslSocket == old(sslSocket)
    {
      if aborted {
        return;
      }
      SocketShutdown();
    }

    /** A timeout, if one is to fall here and a timer was armed. */
    method Elapse(fires: bool)
      modifies this, sslSocket
      ensures State() == Tick(old(State()), fires) && sslSocket == old(sslSocket)
    {
      if fires && armed {
        OnTimeout(false);
      }
    }
  }

  /** The part `handle` and `sendOnce` share: connect, then handshake if still in TLS mode. */
  method ConnectThenHandshake(client: TcpClient, s: Schedule) returns (ok: bool)
    modifies client, client.sslSocket
    ensures (client.State(), ok) == ConnectAndHandshake(old(client.State()), s)
    ensures client.sslSocket == old(client.sslSocket) || fresh(client.sslSocket)
  {
    hide TcpClient.State, Connect, HandshakeIfTls, Tick;
    client.Elapse(s.beforeConnect);
    ok := client.DoConnect(s.connect);
    if ok {
      ok := FinishConnect(client, s);
    }
  }

  method FinishConnect(client: TcpClient, s: Schedule) returns (ok: bool)
    modifies client, client.sslSocket
    ensures (client.State(), ok) == HandshakeIfTls(old(client.State()), s)
    ensures client.sslSocket == old(client.sslSocket)
  {
    hide TcpClient.State, Handshake, Tick;
    client.Elapse(s.afterConnect);
    var mode := client.TlsEnabled();
    if !mode {
      return true;
    }
    client.Elapse(s.beforeHandshake);
    ok := client.DoHandshakeClient(s.handshakeOk);
  }

  method Reach(client: TcpClient, s: Schedule) returns (ok: bool)
    modifies client, client.sslSocket
    ensures (client.State(), ok) == Reached(old(client.State()), s)
    ensures client.sslSocket == old(client.sslSocket) || fresh(client.sslSocket)
  {
    hide TcpClient.State, Client.IsOpen, ConnectAndHandshake;
    ok := client.IsOpen();
    if !ok {
      ok := ConnectThenHandshake(client, s);
    }
  }

  /** `AgentHandler::handle` with TLS configured, up to its write. */
  method WriteRequest(client: TcpClient, data: Str, s: Schedule)
    modifies client, client.sslSocket
    ensures client.State() == HandleWrites(old(client.State()), data, s)
  {
    hide TcpClient.State, Write, EnableTls, Reached, Shutdown, Tick;
    var mode := client.TlsEnabled();
    if !mode {
      var ready := client.EnableTlsClient(s.setupOk);
      if !ready {
        client.SocketShutdown();
        return;
      }
    }
    client.Elapse(s.afterMode);
    var go := Reach(client, s);
    if !go {
      client.SocketShutdown();
      return;
    }
    client.Elapse(s.beforeWrite);
    var ignored := client.DoWrite(data, s.writeOk, s.cut);
  }

  /** `sendOnce` of `postTunnelAction`. */
  method SendOnce(client: TcpClient, tls: bool, message: Option<Str>, keepAlive: bool,
                  s: Schedule, beforeRead: bool, readOk: bool) returns (responded: bool)
    modifies client, client.sslSocket
    ensures (client.State(), responded) ==
            Attempted(old(client.State()), tls, message, keepAlive, s, beforeRead, readOk)
  {
    hide TcpClient.State, MadeReady, Exchange;
    var ready := MakeReady(client, tls, s);
    if !ready || message.None? {
      return false;
    }
    responded := ExchangeMessage(client, message.value, keepAlive, s, beforeRead, readOk);
  }

  method MakeReady(client: TcpClient, tls: bool, s: Schedule) returns (ready: bool)
    modifies client, client.sslSocket
    ensures (client.State(), ready) == MadeReady(old(client.State()), tls, s)
    ensures client.sslSocket == old(client.sslSocket) || fresh(client.sslSocket)
  {
    hide TcpClient.State, Client.IsOpen, EnableTls, ConnectAndHandshake, Tick;
    var alreadyOpen := client.IsOpen();
    client.Elapse(s.afterMode);
    if alreadyOpen {
      return true;
    }
    if tls {
      ready := client.EnableTlsClient(s.setupOk);
      if !ready {
        return false;
      }
    }
    ready := ConnectThenHandshake(client, s);
  }

  method ExchangeMessage(client: TcpClient, data: Str, keepAlive: bool, s: Schedule, beforeRead: bool, readOk: bool)
    returns (responded: bool)
    modifies client, client.sslSocket
    ensures (client.State(), responded) == Exchange(old(client.State()), data, keepAlive, s, beforeRead, readOk)
  {
    hide TcpClient.State, Write, Read, Shutdown, Tick;
    client.Elapse(s.beforeWrite);
    var ok := client.DoWrite(data, s.writeOk, s.cut);
    if !ok {
      client.SocketShutdown();
      return false;
    }
    client.Elapse(beforeRead);
    ok := client.DoReadAgent(readOk);
    if !ok {
      client.SocketShutdown();
      return false;
    }
    if !keepAlive {
      client.SocketShutdown();
    }
    return true;
  }
}
