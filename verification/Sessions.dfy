/** The session table under interleaved handlers. `send` and `recv` look their target up
    under `sessionsMutex_` and use it after releasing the lock; an open dials before it takes
    the lock; only `close` does everything under it. Any handler may run between. */
module Sessions {
  import opened Bytes
  import opened HexCodec
  import HostPort
  import opened Server
  import opened Wire

  /** A handler between its two halves: it holds a target it looked up, or one it dialled and
      has not filed yet. */
  datatype Held =
    | Looked(action: Str, session: Str, found: Option<nat>, message: Str)
    | Dialled(key: Str, id: nat)

  /** The shared table, the handlers under way, every key an open was ever started for, and
      for each target the key it belongs to. */
  datatype Shared = Shared(table: Table, held: map<nat, Held>, started: set<Str>, owners: seq<Str>)

  datatype Event =
    | Look(handler: nat, action: Str, session: Str, message: Str)
    | Use(handler: nat, env: Env)
    | Shut(session: Str)
    | Dial(handler: nat, key: Str, pending: Str, env: Env)
    | File(handler: nat)
    | Emit(id: nat, data: Str)

  /** Session ids are distinct: no two opens share a key. */
  predicate Enabled(s: Shared, e: Event) {
    match e
    case Look(h, action, _, _) => h !in s.held && (action == SEND || action == RECV)
    case Use(h, _) => h in s.held && s.held[h].Looked?
    case Shut(_) => true
    case Dial(h, key, _, _) => h !in s.held && key !in s.started
    case File(h) => h in s.held && s.held[h].Dialled?
    case Emit(id, _) => id < |s.table.targets|
  }

  /** The second half of send or recv, on the target it holds. */
  function UseTarget(config: Config, t: Target, action: Str, message: Str, env: Env): Target {
    if !t.open then t
    else if action == SEND then
      match HexToAscii(message) case None => t case Some(data) => WriteTo(t, data, env)
    else t.(unread := t.unread[Taken(config, t, env)..])
  }

  function Step(config: Config, s: Shared, e: Event): Shared
    requires Enabled(s, e)
  {
    match e
    case Look(h, action, session, message) =>
      var found := if session in s.table.sessions then Some(s.table.sessions[session]) else None;
      s.(held := s.held[h := Looked(action, session, found, message)])
    case Use(h, env) =>
      var held := s.held[h];
      var done := s.(held := s.held - {h});
      if held.found.None? || held.found.value >= |s.table.targets| then done
      else
        var id := held.found.value;
        done.(table := s.table.With(id, UseTarget(config, s.table.targets[id], held.action, held.message, env)))
    case Shut(session) => s.(table := Close(config, s.table, session).table)
    case Dial(h, key, pending, env) =>
      var t := if pending == "" then FRESH else WriteTo(FRESH, pending, env);
      Shared(s.table.(targets := s.table.targets + [t]), s.held[h := Dialled(key, |s.table.targets|)],
             s.started + {key}, s.owners + [key])
    case File(h) =>
      var held := s.held[h];
      s.(table := s.table.(sessions := s.table.sessions[held.key := held.id]), held := s.held - {h})
    case Emit(id, data) =>
      var t := s.table.targets[id];
      s.(table := s.table.With(id, t.(unread := t.unread + data, emitted := t.emitted + data)))
  }

  const START: Shared := Shared(Table(map[], []), map[], {}, [])

  /** Every entry and every held target belongs to the key it was filed, looked up or dialled
      under; a dialled target is not filed before its own handler files it. */
  ghost predicate Inv(s: Shared) {
    && |s.owners| == |s.table.targets|
    && (forall k :: k in s.table.sessions ==>
          k in s.started && s.table.sessions[k] < |s.owners| && s.owners[s.table.sessions[k]] == k)
    && (forall h :: h in s.held ==> HeldInv(s, s.held[h]))
    && (forall g, h :: Rivals(s, g, h) ==> g == h)
  }

  /** Two handlers hold targets dialled for the same key. */
  predicate Rivals(s: Shared, g: nat, h: nat) {
    && g in s.held && h in s.held && s.held[g].Dialled? && s.held[h].Dialled?
    && s.held[g].key == s.held[h].key
  }

  predicate HeldInv(s: Shared, held: Held) {
    match held
    case Looked(action, session, found, _) =>
      (action == SEND || action == RECV)
      && (found.Some? ==> found.value < |s.owners| && s.owners[found.value] == session)
    case Dialled(key, id) =>
      id < |s.owners| && s.owners[id] == key && key in s.started && key !in s.table.sessions
  }

  lemma StepKeepsInv(config: Config, s: Shared, e: Event)
    requires Inv(s) && Enabled(s, e)
    ensures Inv(Step(config, s, e))
  {
    var n := Step(config, s, e);
    forall h | h in n.held ensures HeldInv(n, n.held[h]) {
      if h in s.held { assert HeldInv(s, s.held[h]); }
      if e.File? {
        assert HeldInv(s, s.held[e.handler]);
        assert !Rivals(s, h, e.handler);
      }
    }
    forall g, h | Rivals(n, g, h) ensures g == h {
      if g in s.held { assert HeldInv(s, s.held[g]); }
      if h in s.held { assert HeldInv(s, s.held[h]); }
      assert g in s.held && h in s.held ==> Rivals(s, g, h);
    }
  }

  // ----- runs ----------------------------------------------------------------------------------

  ghost predicate IsRun(config: Config, s: Shared, events: seq<Event>)
    decreases events
  {
    events == [] || (Enabled(s, events[0]) && IsRun(config, Step(config, s, events[0]), events[1..]))
  }

  ghost function Run(config: Config, s: Shared, events: seq<Event>): Shared
    requires IsRun(config, s, events)
    decreases events
  {
    if events == [] then s else Run(config, Step(config, s, events[0]), events[1..])
  }

  lemma {:induction false} RunKeepsInv(config: Config, s: Shared, events: seq<Event>)
    requires Inv(s) && IsRun(config, s, events)
    ensures Inv(Run(config, s, events))
    decreases events
  {
    if events != [] {
      StepKeepsInv(config, s, events[0]);
      RunKeepsInv(config, Step(config, s, events[0]), events[1..]);
    }
  }

  lemma StartInv()
    ensures Inv(START)
  {
  }

  // ----- what interleaving cannot break ------------------------------------------------------------

  /** Neither half of send or recv changes the key set or any entry. */
  lemma LookAndUseKeepEntries(config: Config, s: Shared, e: Event)
    requires Enabled(s, e) && (e.Look? || e.Use?)
    ensures Step(config, s, e).table.sessions == s.table.sessions
  {
  }

  /** Whatever ran between lookup and use, a send or recv changes at most one target, and that
      target belongs to its own session. */
  lemma UseIsIsolated(config: Config, s: Shared, handler: nat, env: Env, id: nat)
    requires Inv(s) && Enabled(s, Use(handler, env))
    requires id < |s.table.targets| && s.owners[id] != s.held[handler].session
    ensures Step(config, s, Use(handler, env)).table.targets[id] == s.table.targets[id]
  {
    assert HeldInv(s, s.held[handler]);
  }

  /** A close touches only the target filed under its session, and removes only that entry. */
  lemma ShutIsIsolated(config: Config, s: Shared, session: Str, id: nat)
    requires Inv(s) && id < |s.table.targets| && s.owners[id] != session
    ensures Step(config, s, Shut(session)).table.targets[id] == s.table.targets[id]
    ensures Step(config, s, Shut(session)).table.sessions == s.table.sessions - {session}
  {
  }

  /** Distinct keys mean a handler that files its target finds the key free. */
  lemma FileNeverOverwrites(s: Shared, handler: nat)
    requires Inv(s) && Enabled(s, File(handler))
    ensures s.held[handler].key !in s.table.sessions
  {
    assert HeldInv(s, s.held[handler]);
  }

  /** A step never reopens a closed target or adds a byte to it. */
  lemma ClosedTargetUntouched(config: Config, s: Shared, e: Event, id: nat)
    requires Enabled(s, e) && id < |s.table.targets| && !s.table.targets[id].open
    ensures
      var n := Step(config, s, e).table.targets;
      id < |n| && !n[id].open && n[id].written == s.table.targets[id].written
  {
  }

  lemma {:induction false} ClosedForever(config: Config, s: Shared, events: seq<Event>, id: nat)
    requires IsRun(config, s, events) && id < |s.table.targets| && !s.table.targets[id].open
    ensures
      var n := Run(config, s, events).table.targets;
      id < |n| && !n[id].open && n[id].written == s.table.targets[id].written
    decreases events
  {
    if events != [] {
      ClosedTargetUntouched(config, s, events[0], id);
      ClosedForever(config, Step(config, s, events[0]), events[1..], id);
    }
  }

  /** Once a close has completed, no run whatsoever appends a byte to the target it closed,
      not even a send that had looked the target up before the close. */
  lemma CloseIsFinal(config: Config, s: Shared, session: Str, events: seq<Event>)
    requires Inv(s) && session in s.table.sessions
    requires IsRun(config, Step(config, s, Shut(session)), events)
    ensures
      var id := s.table.sessions[session];
      var n := Run(config, Step(config, s, Shut(session)), events).table;
      && id < |n.targets| && !n.targets[id].open
      && n.targets[id].written == s.table.targets[id].written
  {
    ClosedForever(config, Step(config, s, Shut(session)), events, s.table.sessions[session]);
  }

  /** And the session stays gone: its key is used up. */
  lemma {:induction false} UsedKeyStaysOut(config: Config, s: Shared, events: seq<Event>, key: Str)
    requires Inv(s) && IsRun(config, s, events)
    requires key in s.started && key !in s.table.sessions
    requires forall h :: h in s.held && s.held[h].Dialled? ==> s.held[h].key != key
    ensures key !in Run(config, s, events).table.sessions
    decreases events
  {
    if events != [] {
      StepKeepsInv(config, s, events[0]);
      UsedKeyStaysOut(config, Step(config, s, events[0]), events[1..], key);
    }
  }

  // ----- the atomic handler is the uninterrupted one ---------------------------------------------------

  /** With nothing between its halves, a send or recv is exactly the atomic one. */
  lemma LookThenUseIsAtomic(config: Config, s: Shared, handler: nat, action: Str, session: Str, message: Str, env: Env)
    requires Inv(s) && handler !in s.held && (action == SEND || action == RECV)
    ensures
      var looked := Step(config, s, Look(handler, action, session, message));
      && Enabled(looked, Use(handler, env))
      && Step(config, looked, Use(handler, env)).table == Apply(config, s.table, session, action, message, env).table
  {
    if session in s.table.sessions {
      var id := s.table.sessions[session];
      var t := s.table.targets[id];
      assert s.table.targets[id := t] == s.table.targets;
    }
  }

  /** Dial then file is exactly an open whose dial succeeded. */
  lemma DialThenFileIsAtomic(config: Config, s: Shared, handler: nat, session: Str, to: HostPort.Endpoint,
                             pending: Str, env: Env)
    requires Inv(s) && handler !in s.held && KeyOf(session, env) !in s.started
    requires env.connectOk && !config.tunnelEnable
    ensures
      var dialled := Step(config, s, Dial(handler, KeyOf(session, env), pending, env));
      && Enabled(dialled, File(handler))
      && Step(config, dialled, File(handler)).table == Open(config, s.table, session, to, pending, env).table
  {
  }
}
