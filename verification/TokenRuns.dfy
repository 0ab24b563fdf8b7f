/**
 * Every interleaving of the goroutines that use one token manager.
 *
 * Timer callbacks, callers of Refresh, logins, callers of Stop and the one in-flight refresh
 * closure are threads with program counters; an `Action` is one atomic step of one of them,
 * where a locked section is one step. A run is any sequence of enabled steps from a fresh manager.
 */
module TokenRuns {
  import opened Common
  import opened TokenManagers

  /** What one flight of the coalesced refresh ends with. */
  datatype Outcome = Refreshed(entry: Entry) | NoToken | EmptyToken | Revoked | Transient {
    predicate Permanent() { EmptyToken? || Revoked? }
  }

  /** The refresh closure: load, present to the provider, store, persist, reset, schedule. */
  datatype Phase =
    | Loading
    | Presenting(token: string)
    | Received(entry: Entry)
    | Stored(entry: Entry)
    | Persisted(entry: Entry)
    | CounterReset(entry: Entry)

  datatype Flight = Flight(id: nat, phase: Phase)

  /** The singleflight group: at most one active flight, and how the earlier ones ended. */
  datatype Air = Air(flight: Option<Flight>, outcomes: map<nat, Outcome>, nextFlight: nat)

  /** A fired timer's callback, until it releases its wait-group slot. */
  datatype Callback =
    | Fired(work: Work)
    | Calling(work: Work)
    | Waiting(work: Work, flight: nat)
    | Retrying(entry: Entry)
    | WatchdogFired
    | WatchdogWriting(entry: Entry)
    | WatchdogRearming
    | Finishing
  {
    predicate OwesRearm() { WatchdogFired? || WatchdogWriting? || WatchdogRearming? }
  }

  /** A goroutine that is not a timer callback. */
  datatype Caller =
    | Joined(flight: nat)
    | LoginScheduling(entry: Entry)
    | LoginWatchdog(entry: Entry)
    | LoginPersisting(entry: Entry)
    | Evicting(idToken: string)
    | EvictWriting(idToken: string, refreshToken: string)
    | Halting
    | Stopping

  datatype State = State(
    core: Core,
    callbacks: map<nat, Callback>,
    callers: map<nat, Caller>,
    air: Air,
    now: int,
    stopReturned: bool)

  /** The provider's answer; an empty refresh token means it did not rotate. */
  datatype Reply = Granted(idToken: string, refreshToken: string, expiry: int) | Denied(revoked: bool)

  /** A login is a store-token request; an eviction writes the token back and then stops. */
  datatype Request = RefreshRequest | LoginRequest(entry: Entry) | StopRequest | EvictRequest

  /** One atomic step; which one a thread takes is fixed by its program counter. */
  datatype Action =
    | Tick(elapsed: nat)
    | Fire(t: nat)
    | CallbackStep(t: nat, draw: nat)
    | Call(c: nat, request: Request)
    | CallerStep(c: nat)
    | FlightStep(reply: Reply)

  /** The refresh-token rule of the OIDC refresher: keep the old token when none came back. */
  function Preserve(held: string, returned: string): string {
    if returned == "" then held else returned
  }

  predicate Enabled(s: State, a: Action) {
    match a
    case Tick(_) => true
    case Fire(t) => t in s.core.pending && s.core.pending[t].due <= s.now
    case CallbackStep(t, _) => t in s.callbacks && (s.callbacks[t].Waiting? ==> s.callbacks[t].flight in s.air.outcomes)
    case Call(c, _) => c !in s.callers
    case CallerStep(c) =>
      && c in s.callers
      && (s.callers[c].Joined? ==> s.callers[c].flight in s.air.outcomes)
      && (s.callers[c].Stopping? ==> s.core.wg == 0)
    case FlightStep(_) => s.air.flight.Some?
  }

  /** Singleflight: join the active flight, or lead a new one. */
  function Board(air: Air): Air {
    if air.flight.Some? then air else
      air.(flight := Some(Flight(air.nextFlight, Loading)), nextFlight := air.nextFlight + 1)
  }

  function Land(air: Air, o: Outcome): Air
    requires air.flight.Some?
  {
    air.(flight := None, outcomes := air.outcomes[air.flight.value.id := o])
  }

  function Advance(air: Air, p: Phase): Air
    requires air.flight.Some?
  {
    air.(flight := Some(Flight(air.flight.value.id, p)))
  }

  function At(s: State, t: nat, pc: Callback): State {
    s.(callbacks := s.callbacks[t := pc])
  }

  function AfterOutcome(s: State, work: Work, o: Outcome): Callback {
    if o.Refreshed? || o.Permanent() then Finishing else
      match work
      case Proactive(e) => Retrying(e)
      case _ => if s.core.current.None? then Finishing else Retrying(s.core.current.value)
  }

  function FireTimer(s: State, t: nat): State
    requires t in s.core.pending
  {
    var work := s.core.pending[t].work;
    At(s.(core := s.core.(pending := s.core.pending - {t})), t, if work.Watchdog? then WatchdogFired else Fired(work))
  }

  /** The watchdog skips its write when cancelled or when there is nothing worth persisting. */
  function AfterLoad(c: Core): Callback {
    if c.cancelled || c.current.None? || (c.current.value.idToken == "" && c.current.value.refreshToken == "")
    then WatchdogRearming
    else WatchdogWriting(c.current.value)
  }

  function StepCallback(s: State, t: nat, draw: nat): State
    requires Enabled(s, CallbackStep(t, draw))
  {
    match s.callbacks[t]
    case Fired(work) => At(s, t, if s.core.cancelled then Finishing else Calling(work))
    case Calling(work) => var up := Board(s.air); At(s.(air := up), t, Waiting(work, up.flight.value.id))
    case Waiting(work, f) => At(s, t, AfterOutcome(s, work, s.air.outcomes[f]))
    case Retrying(e) => At(s.(core := Reschedule(s.core, s.now, e, draw)), t, Finishing)
    case WatchdogFired => At(s, t, AfterLoad(s.core))
    case WatchdogWriting(_) => At(s, t, WatchdogRearming)
    case WatchdogRearming => At(s.(core := RearmWatchdog(s.core, s.now)), t, Finishing)
    case Finishing => s.(callbacks := s.callbacks - {t}, core := s.core.(wg := s.core.wg - 1))
  }

  function StepCall(s: State, c: nat, request: Request): State {
    match request
    case RefreshRequest => var up := Board(s.air); s.(air := up, callers := s.callers[c := Joined(up.flight.value.id)])
    case LoginRequest(e) => s.(core := s.core.(current := Some(e)), callers := s.callers[c := LoginScheduling(e)])
    case StopRequest =>
      if s.core.stopped then s else s.(core := StopLocked(s.core), callers := s.callers[c := Stopping])
    case EvictRequest =>
      var pc := if s.core.current.None? then Halting else Evicting(s.core.current.value.idToken);
      s.(callers := s.callers[c := pc])
  }

  function StepCaller(s: State, c: nat): State
    requires Enabled(s, CallerStep(c))
  {
    match s.callers[c]
    case Joined(_) => s.(callers := s.callers - {c})
    case LoginScheduling(e) => s.(core := Schedule(s.core, s.now, e), callers := s.callers[c := LoginWatchdog(e)])
    case LoginWatchdog(e) => s.(core := StartWatchdog(s.core, s.now), callers := s.callers[c := LoginPersisting(e)])
    case LoginPersisting(_) => s.(callers := s.callers - {c})
    case Evicting(idToken) =>
      var refreshToken := if s.core.current.None? then "" else s.core.current.value.refreshToken;
      s.(callers := s.callers[c := EvictWriting(idToken, refreshToken)])
    case EvictWriting(_, _) => s.(callers := s.callers[c := Halting])
    case Halting =>
      if s.core.stopped then s.(callers := s.callers - {c})
      else s.(core := StopLocked(s.core), callers := s.callers[c := Stopping])
    case Stopping => s.(callers := s.callers - {c}, stopReturned := true)
  }

  /** The closure's step as seen by the group. */
  function StepAir(air: Air, current: Option<Entry>, r: Reply): Air
    requires air.flight.Some?
  {
    match air.flight.value.phase
    case Loading =>
      if current.None? then Land(air, NoToken)
      else if current.value.refreshToken == "" then Land(air, EmptyToken)
      else Advance(air, Presenting(current.value.refreshToken))
    case Presenting(token) =>
      if r.Denied? then Land(air, if r.revoked then Revoked else Transient)
      else Advance(air, Received(Entry(r.idToken, Preserve(token, r.refreshToken), r.expiry)))
    case Received(e) => Advance(air, Stored(e))
    case Stored(e) => Advance(air, Persisted(e))
    case Persisted(e) => Advance(air, CounterReset(e))
    case CounterReset(e) => Land(air, Refreshed(e))
  }

  /** The closure's step as seen by the manager. */
  function StepCore(c: Core, p: Phase, now: int): Core {
    match p
    case Received(e) => c.(current := Some(e))
    case Persisted(_) => c.(retryCount := 0)
    case CounterReset(e) => Schedule(c, now, e)
    case _ => c
  }

  function StepFlight(s: State, r: Reply): State
    requires s.air.flight.Some?
  {
    s.(core := StepCore(s.core, s.air.flight.value.phase, s.now), air := StepAir(s.air, s.core.current, r))
  }

  function Next(s: State, a: Action): State
    requires Enabled(s, a)
  {
    match a
    case Tick(d) => s.(now := s.now + d)
    case Fire(t) => FireTimer(s, t)
    case CallbackStep(t, draw) => StepCallback(s, t, draw)
    case Call(c, request) => StepCall(s, c, request)
    case CallerStep(c) => StepCaller(s, c)
    case FlightStep(r) => StepFlight(s, r)
  }

  function Start(settings: Settings, now: int): State {
    State(Fresh(settings), map[], map[], Air(None, map[], 0), now, false)
  }

  datatype Run = Run(states: seq<State>, actions: seq<Action>)

  ghost predicate IsRun(r: Run) {
    && |r.states| == |r.actions| + 1
    && r.states[0] == Start(r.states[0].core.settings, r.states[0].now)
    && forall i | 0 <= i < |r.actions| ::
         Enabled(r.states[i], r.actions[i]) && r.states[i + 1] == Next(r.states[i], r.actions[i])
  }

  // ------------------------------------------------------------------ Timers and the wait group

  /** A pending timer is the one its field names, and every field names an allocated timer. */
  ghost predicate TimersNamed(c: Core) {
    && (c.refreshTimer.Some? ==> c.refreshTimer.value < c.nextTimer)
    && (c.persistTimer.Some? ==> c.persistTimer.value < c.nextTimer)
    && (c.refreshTimer.Some? ==> c.refreshTimer != c.persistTimer)
    && (forall t <- c.pending ::
          && t < c.nextTimer
          && (if c.pending[t].work.Watchdog? then c.persistTimer else c.refreshTimer) == Some(t))
  }

  /** The slots of the wait group are the pending timers and the unfinished callbacks. */
  ghost predicate SlotsExact(c: Core, callbacks: map<nat, Callback>) {
    && c.wg == |c.pending| + |callbacks|
    && (forall t <- callbacks ::
          && t < c.nextTimer && t !in c.pending
          && (callbacks[t].OwesRearm() ==> c.persistTimer == Some(t)))
  }

  ghost predicate TimerInv(c: Core, callbacks: map<nat, Callback>) {
    && TimersNamed(c)
    && SlotsExact(c, callbacks)
    && c.stopped == c.cancelled
    && (c.stopped ==> c.pending == map[])
  }

  lemma StopTimerKeeps(c: Core, t: Option<nat>, callbacks: map<nat, Callback>)
    requires TimersNamed(c) && SlotsExact(c, callbacks)
    ensures TimersNamed(StopTimer(c, t)) && SlotsExact(StopTimer(c, t), callbacks)
    ensures t.Some? ==> t.value !in StopTimer(c, t).pending
  {
    if t.Some? && t.value in c.pending {
      RemoveCard(c.pending, t.value);
    }
  }

  lemma ReplaceKeeps(c: Core, alive: bool, due: int, work: Work, callbacks: map<nat, Callback>)
    requires TimerInv(c, callbacks) && !work.Watchdog? && !c.stopped
    ensures TimerInv(Replace(c, alive, due, work), callbacks)
  {
    StopTimerKeeps(c, c.refreshTimer, callbacks);
    var idle := StopTimer(c, c.refreshTimer);
    InsertCard(idle.pending, c.nextTimer, Timer(due, work));
  }

  lemma ScheduleKeeps(c: Core, now: int, e: Entry, callbacks: map<nat, Callback>)
    requires TimerInv(c, callbacks)
    ensures TimerInv(Schedule(c, now, e), callbacks)
  {
    if !c.stopped {
      ReplaceKeeps(c, e.expiry - now > 0, now + RefreshDelay(c.settings, e.expiry - now), Proactive(e), callbacks);
    }
  }

  lemma RescheduleKeeps(c: Core, now: int, e: Entry, draw: nat, callbacks: map<nat, Callback>)
    requires TimerInv(c, callbacks)
    ensures TimerInv(Reschedule(c, now, e, draw), callbacks)
  {
    if !c.stopped {
      var count := Bump(c.retryCount);
      ReplaceKeeps(c.(retryCount := count), e.expiry - now > 0,
                   now + RetryDelay(count, draw, e.expiry - now), Retry, callbacks);
    }
  }

  lemma StartWatchdogKeeps(c: Core, now: int, callbacks: map<nat, Callback>)
    requires TimerInv(c, callbacks)
    ensures TimerInv(StartWatchdog(c, now), callbacks)
  {
    InsertCard(c.pending, c.nextTimer, Timer(now + c.settings.persistInterval, Watchdog));
  }

  /** The callback that rearms is the one watchdog alive, so its successor is the only one too. */
  lemma RearmKeeps(c: Core, now: int, t: nat, callbacks: map<nat, Callback>)
    requires TimerInv(c, callbacks) && t in callbacks && callbacks[t].OwesRearm()
    ensures TimerInv(RearmWatchdog(c, now), callbacks[t := Finishing])
  {
    InsertCard(callbacks, t, Finishing);
    InsertCard(c.pending, c.nextTimer, Timer(now + c.settings.persistInterval, Watchdog));
  }

  /** Stopping both named timers leaves none pending, because only named timers can be. */
  lemma StopBothEmpties(c: Core)
    requires TimersNamed(c)
    ensures StopTimer(StopTimer(c, c.refreshTimer), c.persistTimer).pending == map[]
  {
    var left := c.pending - (if c.refreshTimer.Some? then {c.refreshTimer.value} else {});
    assert forall t <- left :: c.persistTimer == Some(t);
  }

  lemma StopLockedKeeps(c: Core, callbacks: map<nat, Callback>)
    requires TimerInv(c, callbacks)
    ensures TimerInv(StopLocked(c), callbacks) && StopLocked(c).stopped
  {
    if !c.stopped {
      var marked := c.(stopped := true, cancelled := true);
      StopBothEmpties(marked);
      StopTimerKeeps(marked, c.refreshTimer, callbacks);
      StopTimerKeeps(StopTimer(marked, c.refreshTimer), c.persistTimer, callbacks);
    }
  }

  lemma FireKeeps(c: Core, t: nat, callbacks: map<nat, Callback>)
    requires TimerInv(c, callbacks) && t in c.pending
    ensures var work := c.pending[t].work;
            var pc := if work.Watchdog? then WatchdogFired else Fired(work);
            TimerInv(c.(pending := c.pending - {t}), callbacks[t := pc])
  {
    RemoveCard(c.pending, t);
    InsertCard(callbacks, t, if c.pending[t].work.Watchdog? then WatchdogFired else Fired(c.pending[t].work));
  }

  lemma DoneKeeps(c: Core, t: nat, callbacks: map<nat, Callback>)
    requires TimerInv(c, callbacks) && t in callbacks
    ensures TimerInv(c.(wg := c.wg - 1), callbacks - {t})
  {
    RemoveCard(callbacks, t);
  }

  lemma MoveKeeps(c: Core, t: nat, pc: Callback, callbacks: map<nat, Callback>)
    requires TimerInv(c, callbacks) && t in callbacks
    requires pc.OwesRearm() ==> callbacks[t].OwesRearm()
    ensures TimerInv(c, callbacks[t := pc])
  {
    InsertCard(callbacks, t, pc);
  }

  /** A stop call that is waiting, or has returned, found the manager stopped by itself. */
  ghost predicate StopInv(s: State) {
    && (forall c <- s.callers :: s.callers[c].Stopping? ==> s.core.stopped)
    && (s.stopReturned ==> s.core.stopped && s.callbacks == map[])
  }

  ghost predicate Aloft(air: Air, f: nat) {
    f in air.outcomes || (air.flight.Some? && air.flight.value.id == f)
  }

  /** Every waiting goroutine waits for the active flight or for one that has landed. */
  ghost predicate Waits(s: State) {
    && (forall t <- s.callbacks :: s.callbacks[t].Waiting? ==> Aloft(s.air, s.callbacks[t].flight))
    && (forall c <- s.callers :: s.callers[c].Joined? ==> Aloft(s.air, s.callers[c].flight))
  }

  ghost predicate Numbered(air: Air) {
    && (air.flight.Some? ==> air.flight.value.id < air.nextFlight && air.flight.value.id !in air.outcomes)
    && (forall f <- air.outcomes :: f < air.nextFlight)
  }

  ghost predicate Inv(s: State) {
    TimerInv(s.core, s.callbacks) && StopInv(s) && Numbered(s.air) && Waits(s)
  }

  /** The token and the failure count play no part in the timers. */
  lemma UntimedKeeps(c: Core, current: Option<Entry>, count: Counter, callbacks: map<nat, Callback>)
    requires TimerInv(c, callbacks)
    ensures TimerInv(c.(current := current, retryCount := count), callbacks)
  {
  }

  lemma CallbackKeepsTimers(s: State, t: nat, draw: nat)
    requires TimerInv(s.core, s.callbacks) && Enabled(s, CallbackStep(t, draw))
    ensures TimerInv(StepCallback(s, t, draw).core, StepCallback(s, t, draw).callbacks)
  {
    hide TimerInv, Reschedule, RearmWatchdog;
    match s.callbacks[t]
    case Fired(work) => MoveKeeps(s.core, t, if s.core.cancelled then Finishing else Calling(work), s.callbacks);
    case Calling(work) => MoveKeeps(s.core, t, Waiting(work, Board(s.air).flight.value.id), s.callbacks);
    case Waiting(work, f) => MoveKeeps(s.core, t, AfterOutcome(s, work, s.air.outcomes[f]), s.callbacks);
    case Retrying(e) =>
      RescheduleKeeps(s.core, s.now, e, draw, s.callbacks);
      MoveKeeps(Reschedule(s.core, s.now, e, draw), t, Finishing, s.callbacks);
    case WatchdogFired => MoveKeeps(s.core, t, AfterLoad(s.core), s.callbacks);
    case WatchdogWriting(_) => MoveKeeps(s.core, t, WatchdogRearming, s.callbacks);
    case WatchdogRearming => RearmKeeps(s.core, s.now, t, s.callbacks);
    case Finishing => DoneKeeps(s.core, t, s.callbacks);
  }

  lemma CallerKeepsTimers(s: State, c: nat)
    requires TimerInv(s.core, s.callbacks) && Enabled(s, CallerStep(c))
    ensures TimerInv(StepCaller(s, c).core, StepCaller(s, c).callbacks)
  {
    hide TimerInv, Schedule, StartWatchdog, StopLocked;
    match s.callers[c]
    case LoginScheduling(e) => ScheduleKeeps(s.core, s.now, e, s.callbacks);
    case LoginWatchdog(_) => StartWatchdogKeeps(s.core, s.now, s.callbacks);
    case Halting => StopLockedKeeps(s.core, s.callbacks);
    case _ =>
  }

  lemma FlightKeepsTimers(c: Core, p: Phase, now: int, callbacks: map<nat, Callback>)
    requires TimerInv(c, callbacks)
    ensures TimerInv(StepCore(c, p, now), callbacks)
  {
    hide TimerInv;
    match p
    case Received(e) => UntimedKeeps(c, Some(e), c.retryCount, callbacks);
    case Persisted(_) => UntimedKeeps(c, c.current, 0, callbacks);
    case CounterReset(e) => ScheduleKeeps(c, now, e, callbacks);
    case _ =>
  }

  lemma TimerStep(s: State, a: Action)
    requires TimerInv(s.core, s.callbacks) && Enabled(s, a)
    ensures TimerInv(Next(s, a).core, Next(s, a).callbacks)
  {
    hide TimerInv;
    match a
    case Tick(_) =>
    case Fire(t) => FireKeeps(s.core, t, s.callbacks);
    case CallbackStep(t, draw) => CallbackKeepsTimers(s, t, draw);
    case Call(_, request) =>
      if request.LoginRequest? { UntimedKeeps(s.core, Some(request.entry), s.core.retryCount, s.callbacks); }
      if request.StopRequest? { StopLockedKeeps(s.core, s.callbacks); }
    case CallerStep(c) => CallerKeepsTimers(s, c);
    case FlightStep(r) => FlightKeepsTimers(s.core, s.air.flight.value.phase, s.now, s.callbacks);
  }

  /** No step clears the stop flag. */
  lemma StoppedStays(s: State, a: Action)
    requires Enabled(s, a) && s.core.stopped
    ensures Next(s, a).core.stopped
  {
    hide RefreshDelay, RetryDelay, StopTimer, StepAir;
  }

  /** Only a callback of a fired timer is ever added, and a stopped manager has no timer to fire. */
  lemma CallbacksStayEmpty(s: State, a: Action)
    requires Enabled(s, a) && s.core.pending == map[] && s.callbacks == map[]
    ensures Next(s, a).callbacks == map[]
  {
    hide Schedule, Reschedule, StartWatchdog, RearmWatchdog, StopLocked;
  }

  lemma StopCallersStopped(s: State, a: Action)
    requires StopInv(s) && Enabled(s, a)
    ensures forall c <- Next(s, a).callers :: Next(s, a).callers[c].Stopping? ==> Next(s, a).core.stopped
  {
    if s.core.stopped {
      StoppedStays(s, a);
    } else {
      assert forall c <- s.callers :: !s.callers[c].Stopping?;
    }
  }

  lemma StopStep(s: State, a: Action)
    requires Inv(s) && Enabled(s, a)
    ensures StopInv(Next(s, a))
  {
    hide TimersNamed, Waits;
    StopCallersStopped(s, a);
    if s.stopReturned {
      CallbacksStayEmpty(s, a);
      StoppedStays(s, a);
    } else if a.CallerStep? && s.callers[a.c].Stopping? {
      EmptyCard(s.callbacks);
    }
  }

  /** Goroutines that are not the closure touch the group only by boarding a flight. */
  lemma GroundSteps(s: State, a: Action)
    requires Enabled(s, a) && !a.FlightStep?
    ensures Next(s, a).air == s.air || Next(s, a).air == Board(s.air)
  {
    hide Schedule, Reschedule, StartWatchdog, RearmWatchdog, StopLocked;
  }

  /** A flight that somebody may wait for stays active or lands; it never vanishes. */
  lemma AirStep(s: State, a: Action)
    requires Enabled(s, a) && Numbered(s.air)
    ensures Numbered(Next(s, a).air)
    ensures forall f | Aloft(s.air, f) :: Aloft(Next(s, a).air, f)
  {
    if !a.FlightStep? {
      GroundSteps(s, a);
      hide Next;
    } else {
      hide StepCore;
    }
  }

  /** A callback that starts to wait waits for the flight it boarded. */
  lemma CallbackWaits(s: State, a: Action, t: nat)
    requires Enabled(s, a) && t in Next(s, a).callbacks && Next(s, a).callbacks[t].Waiting?
    ensures (t in s.callbacks && s.callbacks[t] == Next(s, a).callbacks[t])
            || Aloft(Next(s, a).air, Next(s, a).callbacks[t].flight)
  {
    hide Schedule, Reschedule, StartWatchdog, RearmWatchdog, StopLocked, StepAir, StepCore;
  }

  lemma CallerWaits(s: State, a: Action, c: nat)
    requires Enabled(s, a) && c in Next(s, a).callers && Next(s, a).callers[c].Joined?
    ensures (c in s.callers && s.callers[c] == Next(s, a).callers[c])
            || Aloft(Next(s, a).air, Next(s, a).callers[c].flight)
  {
    hide Schedule, Reschedule, StartWatchdog, RearmWatchdog, StopLocked, StepAir, StepCore;
  }

  lemma InvStep(s: State, a: Action)
    requires Inv(s) && Enabled(s, a)
    ensures Inv(Next(s, a))
  {
    hide TimerInv, StopInv, Numbered, Aloft, Next;
    TimerStep(s, a);
    StopStep(s, a);
    AirStep(s, a);
    var n := Next(s, a);
    forall t | t in n.callbacks && n.callbacks[t].Waiting? ensures Aloft(n.air, n.callbacks[t].flight) {
      CallbackWaits(s, a, t);
    }
    forall c | c in n.callers && n.callers[c].Joined? ensures Aloft(n.air, n.callers[c].flight) {
      CallerWaits(s, a, c);
    }
  }

  lemma InvStart(settings: Settings, now: int)
    ensures Inv(Start(settings, now))
  {
  }

  lemma {:induction false} InvRun(r: Run, i: nat)
    requires IsRun(r) && i < |r.states|
    ensures Inv(r.states[i])
  {
    hide Inv, Next, Enabled, Start;
    if i == 0 {
      InvStart(r.states[0].core.settings, r.states[0].now);
    } else {
      InvRun(r, i - 1);
      InvStep(r.states[i - 1], r.actions[i - 1]);
    }
  }
}
