/**
 * What the goroutines of one token manager get done: which timers a login or a refresh arms and when
 * they are due, how a flight ends, which failures are retried, and that the watchdog stays alive.
 */
module TokenProgress {
  import opened Common
  import opened TokenManagers
  import opened TokenRuns
  import opened RefreshTokens

  lemma NamedRefresh(c: Core)
    requires TimersNamed(c)
    ensures RefreshNamed(c)
  {
  }

  // ------------------------------------------------------------------ Proactive refreshes

  /** The entry for which a step schedules the proactive refresh, if it does. */
  function SchedulesFor(s: State, a: Action): Option<Entry> {
    if a.CallerStep? && a.c in s.callers && s.callers[a.c].LoginScheduling? then Some(s.callers[a.c].entry)
    else if a.FlightStep? && s.air.flight.Some? && s.air.flight.value.phase.CounterReset? then
      Some(s.air.flight.value.phase.entry)
    else None
  }

  /** One refresh for the entry is pending: at the margin's share of its lifetime, or after the minimum. */
  ghost predicate RefreshDue(c: Core, now: int, e: Entry) {
    exists t, due ::
      && OnlyRefresh(c, t, Proactive(e), due)
      && var wait, share := due - now, (e.expiry - now) as real * c.settings.refreshMargin;
         && wait >= c.settings.minRefreshInterval && share < (wait + 1) as real
         && (wait as real <= share || wait == c.settings.minRefreshInterval)
  }

  lemma ScheduleStep(s: State, a: Action, e: Entry)
    requires Enabled(s, a) && SchedulesFor(s, a) == Some(e)
    ensures Next(s, a).core == Schedule(s.core, s.now, e) && Next(s, a).now == s.now
  {
    hide Schedule, StepAir;
  }

  lemma ScheduleDue(c: Core, now: int, e: Entry)
    requires TimersNamed(c) && !c.stopped
    ensures var n := Schedule(c, now, e); if e.expiry > now then RefreshDue(n, now, e) else NoRefresh(n)
  {
    NamedRefresh(c);
    ScheduleExact(c, now, e);
    RefreshDelayExact(c.settings, e.expiry - now);
    ScheduleSettings(c, now, e);
    hide Schedule, RefreshDelay, OnlyRefresh;
    var n, wait := Schedule(c, now, e), RefreshDelay(c.settings, e.expiry - now);
    if e.expiry > now { assert OnlyRefresh(n, c.nextTimer, Proactive(e), now + wait); }
  }

  lemma ScheduleSettings(c: Core, now: int, e: Entry)
    ensures Schedule(c, now, e).settings == c.settings
  {
  }

  /**
   * In every run, a login's or a refresh's scheduling step on a running manager leaves one refresh
   * pending for its entry, due at the margin's share of the remaining lifetime or after the minimum
   * interval; a token that has expired leaves none.
   */
  lemma ProactiveArmed(r: Run, i: nat, e: Entry)
    requires IsRun(r) && i < |r.actions| && SchedulesFor(r.states[i], r.actions[i]) == Some(e)
    requires !r.states[i].core.stopped
    ensures var d, now := r.states[i + 1].core, r.states[i].now;
            if e.expiry > now then RefreshDue(d, now, e) else NoRefresh(d)
  {
    InvRun(r, i);
    ScheduleStep(r.states[i], r.actions[i], e);
    ScheduleDue(r.states[i].core, r.states[i].now, e);
    hide Next, Enabled, RefreshDue, NoRefresh, Schedule;
  }

  /** A refresh reports success only in the step that schedules the next one. */
  lemma SuccessSchedules(s: State, a: Action, f: nat, e: Entry)
    requires Enabled(s, a) && f !in s.air.outcomes && f in Next(s, a).air.outcomes
    requires Next(s, a).air.outcomes[f] == Refreshed(e)
    ensures SchedulesFor(s, a) == Some(e)
  {
    if a.FlightStep? {
      hide StepCore;
    } else {
      GroundSteps(s, a);
      hide Next;
    }
  }

  /** A login that has got past scheduling has taken its scheduling step. */
  lemma {:induction false} LoginScheduled(r: Run, j: nat, c: nat, e: Entry) returns (i: nat)
    requires IsRun(r) && j < |r.states| && c in r.states[j].callers
    requires r.states[j].callers[c] == LoginWatchdog(e) || r.states[j].callers[c] == LoginPersisting(e)
    ensures i < j && r.actions[i] == CallerStep(c) && SchedulesFor(r.states[i], r.actions[i]) == Some(e)
    decreases j
  {
    hide Next, Enabled;
    NoCallers(r.states[0]);
    LoginOrder(r.states[j - 1], r.actions[j - 1], c, e);
    i := j - 1;
    if SchedulesFor(r.states[j - 1], r.actions[j - 1]) != Some(e) || r.actions[j - 1] != CallerStep(c) {
      i := LoginScheduled(r, j - 1, c, e);
    }
  }

  lemma NoCallers(s: State)
    requires s == Start(s.core.settings, s.now)
    ensures s.callers == map[]
  {
  }

  lemma LoginOrder(s: State, a: Action, c: nat, e: Entry)
    requires Enabled(s, a) && c in Next(s, a).callers
    requires Next(s, a).callers[c] == LoginWatchdog(e) || Next(s, a).callers[c] == LoginPersisting(e)
    ensures || (a == CallerStep(c) && SchedulesFor(s, a) == Some(e))
            || (c in s.callers && (s.callers[c] == LoginWatchdog(e) || s.callers[c] == LoginPersisting(e)))
  {
    hide Schedule, Reschedule, StartWatchdog, RearmWatchdog, StopLocked, StepAir, StepCore, Board, AfterOutcome,
      AfterLoad;
  }

  // ------------------------------------------------------------------ How a flight goes on and ends

  /**
   * A flight without a token, or with an empty refresh token, ends at once; otherwise it presents
   * the current refresh token. A denial ends it, revoked or transient as the provider says; a grant
   * gives an entry with the new refresh token, or the presented one if none came back.
   */
  lemma FlightExact(s: State, reply: Reply)
    requires s.air.flight.Some?
    ensures var f, phase, n := s.air.flight.value.id, s.air.flight.value.phase, StepFlight(s, reply).air;
            && (phase.Loading? ==>
                  if s.core.current.None? then n.flight.None? && f in n.outcomes && n.outcomes[f].NoToken?
                  else if s.core.current.value.refreshToken == "" then
                    n.flight.None? && f in n.outcomes && n.outcomes[f].EmptyToken?
                  else n.flight == Some(Flight(f, Presenting(s.core.current.value.refreshToken))))
            && (phase.Presenting? && reply.Denied? ==>
                  n.flight.None? && f in n.outcomes && (n.outcomes[f].Revoked? <==> reply.revoked)
                  && (n.outcomes[f].Transient? <==> !reply.revoked))
            && (phase.Presenting? && reply.Granted? ==>
                  && n.flight.Some? && n.flight.value.id == f && n.flight.value.phase.Received?
                  && var e := n.flight.value.phase.entry;
                     && e.idToken == reply.idToken && e.expiry == reply.expiry
                     && e.refreshToken == (if reply.refreshToken != "" then reply.refreshToken else phase.token))
  {
    hide StepCore;
  }

  // ------------------------------------------------------------------ Which failures are retried

  predicate Retryable(o: Outcome) { o.Transient? || o.NoToken? }

  /** The entry a callback retries for: the one its timer was armed for, or the current one. */
  function RetryEntry(s: State, work: Work): Option<Entry> {
    if work.Proactive? then Some(work.entry) else s.core.current
  }

  /** Where a callback that waited for a flight goes, in terms of how the flight landed. */
  lemma RetriedIff(r: Run, i: nat, t: nat)
    requires IsRun(r) && i < |r.actions| && r.actions[i].CallbackStep? && r.actions[i].t == t
    requires r.states[i].callbacks[t].Waiting?
    ensures var s, n, pc := r.states[i], r.states[i + 1], r.states[i].callbacks[t];
            && pc.flight in s.air.outcomes && t in n.callbacks
            && (n.callbacks[t].Retrying? <==> Retryable(s.air.outcomes[pc.flight]) && RetryEntry(s, pc.work).Some?)
            && (n.callbacks[t].Retrying? ==> Some(n.callbacks[t].entry) == RetryEntry(s, pc.work))
            && (!n.callbacks[t].Retrying? ==> n.callbacks[t] == Finishing)
  {
    hide Reschedule, RearmWatchdog, Board;
  }

  /** A fired refresh timer leads to a refresh exactly on a manager that is not stopped. */
  lemma FiredCalls(r: Run, i: nat, t: nat)
    requires IsRun(r) && i < |r.actions| && r.actions[i].CallbackStep? && r.actions[i].t == t
    ensures var s, n := r.states[i], r.states[i + 1];
            && (s.callbacks[t].Fired? ==>
                  t in n.callbacks
                  && n.callbacks[t] == (if s.core.stopped then Finishing else Calling(s.callbacks[t].work)))
            && (s.callbacks[t].Calling? ==>
                  && n.air.flight.Some? && t in n.callbacks
                  && n.callbacks[t] == Waiting(s.callbacks[t].work, n.air.flight.value.id)
                  && (s.air.flight.Some? ==> n.air == s.air)
                  && (s.air.flight.None? ==> n.air.flight.value.phase == Loading))
  {
    InvRun(r, i);
    hide Reschedule, RearmWatchdog, TimersNamed, SlotsExact, StopInv, Waits;
  }

  /** A callback moves only by its own steps. */
  lemma CallbackStays(s: State, a: Action, t: nat)
    requires Enabled(s, a) && t in s.callbacks && t !in s.core.pending && !(a.CallbackStep? && a.t == t)
    ensures t in Next(s, a).callbacks && Next(s, a).callbacks[t] == s.callbacks[t]
  {
    hide Schedule, Reschedule, StartWatchdog, RearmWatchdog, StopLocked, StepAir, StepCore, Board, AfterOutcome,
      AfterLoad;
  }

  lemma {:induction false} CallbackWaitsTurn(r: Run, i: nat, j: nat, t: nat)
    requires IsRun(r) && i <= j < |r.states| && t in r.states[i].callbacks
    requires forall k | i <= k < j :: !(r.actions[k].CallbackStep? && r.actions[k].t == t)
    ensures t in r.states[j].callbacks && r.states[j].callbacks[t] == r.states[i].callbacks[t]
    decreases j - i
  {
    hide Next, Enabled;
    if i < j {
      CallbackWaitsTurn(r, i, j - 1, t);
      InvRun(r, j - 1);
      hide TimersNamed, StopInv, Waits, Numbered;
      CallbackStays(r.states[j - 1], r.actions[j - 1], t);
    }
  }

  /**
   * From the landed flight on: when the flight of a timer's callback has failed in a way that can be
   * retried, the callback's next step but one arms the retry, in the band around
   * min(2^(n-1), 30) seconds if it is the n-th consecutive failure.
   */
  lemma RetryFollows(r: Run, i: nat, j: nat, t: nat, n: nat)
    requires IsRun(r) && i < j < |r.actions| && r.actions[i].CallbackStep? && r.actions[i].t == t
    requires r.actions[j].CallbackStep? && r.actions[j].t == t
    requires forall k | i < k < j :: !(r.actions[k].CallbackStep? && r.actions[k].t == t)
    requires r.states[i].callbacks[t].Waiting? && !r.states[j].core.stopped
    requires Retryable(r.states[i].air.outcomes[r.states[i].callbacks[t].flight])
    requires RetryEntry(r.states[i], r.states[i].callbacks[t].work).Some?
    requires 0 < RetryEntry(r.states[i], r.states[i].callbacks[t].work).value.expiry - r.states[j].now < INT64_LIMIT
    requires n == FailuresSince(r, j) + 1 && (n <= UINT_MODULUS || (n - 1) % UINT_MODULUS >= 5)
    ensures var c, d := r.states[j].core, r.states[j + 1].core;
            var base := Min(1_000_000_000 * Pow2(n - 1), 30_000_000_000);
            var remaining := RetryEntry(r.states[i], r.states[i].callbacks[t].work).value.expiry - r.states[j].now;
            && d.refreshTimer == Some(c.nextTimer) && c.nextTimer in d.pending && d.pending[c.nextTimer].work == Retry
            && var wait := d.pending[c.nextTimer].due - r.states[j].now;
               0 < wait <= remaining && 4 * wait < 5 * base && (4 * wait < 3 * base ==> wait == remaining)
  {
    RetriedIff(r, i, t);
    hide Next, Enabled, Pow2, FailuresSince;
    CallbackWaitsTurn(r, i + 1, j, t);
    assert CountsRetry(r.states[j], r.actions[j]);
    RetrySchedule(r, j, n);
  }

  /** A retry step for a token that has expired arms nothing. */
  lemma DeadTokenNotRetried(r: Run, i: nat)
    requires IsRun(r) && i < |r.actions| && CountsRetry(r.states[i], r.actions[i])
    requires r.states[i].callbacks[r.actions[i].t].entry.expiry <= r.states[i].now
    ensures NoRefresh(r.states[i + 1].core)
  {
    InvRun(r, i);
    var s, a := r.states[i], r.actions[i];
    NamedRefresh(s.core);
    RescheduleExact(s.core, s.now, s.callbacks[a.t].entry, a.draw);
    hide Reschedule, TimersNamed, SlotsExact, StopInv, Waits, Numbered, RefreshNamed, NoRefresh;
  }

  // ------------------------------------------------------------------ The watchdog stays alive

  /** Once started, the watchdog of a running manager is pending, due within an interval, or owes its rearming. */
  ghost predicate WatchdogAlive(c: Core, callbacks: map<nat, Callback>, now: int) {
    c.persistTimer.Some? && !c.stopped ==>
      var t := c.persistTimer.value;
      || (t in c.pending && c.pending[t].work.Watchdog? && c.pending[t].due <= now + c.settings.persistInterval)
      || (t in callbacks && callbacks[t].OwesRearm())
  }

  /** A login that is about to persist has seen to the watchdog. */
  ghost predicate WatchdogStarted(s: State) {
    forall c <- s.callers :: s.callers[c].LoginPersisting? ==> s.core.stopped || s.core.persistTimer.Some?
  }

  lemma ScheduleSparesWatchdog(c: Core, now: int, e: Entry, draw: nat)
    requires TimersNamed(c)
    ensures SameWatchdogs(c, Schedule(c, now, e)) && SameWatchdogs(c, Reschedule(c, now, e, draw))
    ensures Schedule(c, now, e).stopped == c.stopped == Reschedule(c, now, e, draw).stopped
    ensures Schedule(c, now, e).settings == c.settings == Reschedule(c, now, e, draw).settings
  {
    NamedRefresh(c);
    ScheduleExact(c, now, e);
    RescheduleExact(c, now, e, draw);
    hide RefreshDelay, RetryDelay, SameWatchdogs, RefreshNamed, OnlyRefresh, NoRefresh;
  }

  /** The watchdog's timer and callback are as they were, and the clock has not gone back. */
  lemma AliveKept(c: Core, n: Core, callbacks: map<nat, Callback>, callbacks': map<nat, Callback>, now: int, later: int)
    requires WatchdogAlive(c, callbacks, now) && now <= later
    requires n.stopped || (SameWatchdogs(c, n) && n.settings == c.settings && n.stopped == c.stopped)
    requires forall t <- callbacks :: callbacks[t].OwesRearm() ==> t in callbacks' && callbacks'[t].OwesRearm()
    ensures WatchdogAlive(n, callbacks', later)
  {
  }

  lemma CallbackAlive(s: State, t: nat, draw: nat)
    requires TimerInv(s.core, s.callbacks) && Enabled(s, CallbackStep(t, draw))
             && WatchdogAlive(s.core, s.callbacks, s.now)
    ensures var n := StepCallback(s, t, draw); WatchdogAlive(n.core, n.callbacks, n.now)
  {
    var n := StepCallback(s, t, draw);
    match s.callbacks[t]
    case Retrying(e) =>
      ScheduleSparesWatchdog(s.core, s.now, e, draw);
      hide Reschedule, TimerInv;
      AliveKept(s.core, n.core, s.callbacks, n.callbacks, s.now, n.now);
    case WatchdogRearming => hide TimersNamed;
    case _ =>
      hide Board, AfterOutcome, TimerInv, WatchdogAlive;
      AliveKept(s.core, n.core, s.callbacks, n.callbacks, s.now, n.now);
  }

  lemma AliveStep(s: State, a: Action)
    requires TimerInv(s.core, s.callbacks) && Enabled(s, a) && WatchdogAlive(s.core, s.callbacks, s.now)
    ensures WatchdogAlive(Next(s, a).core, Next(s, a).callbacks, Next(s, a).now)
  {
    match a
    case Tick(_) => hide TimerInv;
    case Fire(t) => hide SlotsExact;
    case CallbackStep(t, draw) =>
      CallbackAlive(s, t, draw);
      hide StepCallback, WatchdogAlive, TimerInv;
    case Call(_, request) =>
      hide StopLocked, Board;
      if request.StopRequest? { StopLockedKeeps(s.core, s.callbacks); }
      hide TimersNamed, SlotsExact;
    case CallerStep(c) => CallerAlive(s, c);
    case FlightStep(r) => FlightAlive(s, r);
  }

  lemma CallerAlive(s: State, c: nat)
    requires TimerInv(s.core, s.callbacks) && Enabled(s, CallerStep(c)) && WatchdogAlive(s.core, s.callbacks, s.now)
    ensures var n := StepCaller(s, c); WatchdogAlive(n.core, n.callbacks, n.now)
  {
    hide WatchdogAlive, Schedule, StartWatchdog, StopLocked;
    match s.callers[c]
    case LoginScheduling(e) =>
      ScheduleSparesWatchdog(s.core, s.now, e, 0);
      hide TimerInv;
      AliveKept(s.core, Schedule(s.core, s.now, e), s.callbacks, s.callbacks, s.now, s.now);
    case LoginWatchdog(_) =>
      hide TimerInv;
      StartAlive(s.core, s.callbacks, s.now);
    case Halting =>
      StopLockedKeeps(s.core, s.callbacks);
      hide TimerInv;
      StoppedAlive(StopLocked(s.core), s.callbacks, s.now);
    case _ => hide TimerInv;
  }

  lemma StartAlive(c: Core, callbacks: map<nat, Callback>, now: int)
    requires WatchdogAlive(c, callbacks, now)
    ensures WatchdogAlive(StartWatchdog(c, now), callbacks, now)
  {
  }

  lemma StoppedAlive(c: Core, callbacks: map<nat, Callback>, now: int)
    requires c.stopped
    ensures WatchdogAlive(c, callbacks, now)
  {
  }

  lemma FlightAlive(s: State, r: Reply)
    requires TimerInv(s.core, s.callbacks) && s.air.flight.Some? && WatchdogAlive(s.core, s.callbacks, s.now)
    ensures var n := StepFlight(s, r); WatchdogAlive(n.core, n.callbacks, n.now)
  {
    var n := StepFlight(s, r);
    if s.air.flight.value.phase.CounterReset? {
      ScheduleSparesWatchdog(s.core, s.now, s.air.flight.value.phase.entry, 0);
      hide Schedule, TimerInv, StepAir;
      AliveKept(s.core, n.core, s.callbacks, n.callbacks, s.now, n.now);
    } else {
      hide Schedule, TimerInv, StepAir;
    }
  }

  lemma StartedStep(s: State, a: Action)
    requires Enabled(s, a) && WatchdogStarted(s)
    ensures WatchdogStarted(Next(s, a))
  {
    var n := Next(s, a);
    if s.core.stopped { StoppedStays(s, a); }
    if s.core.persistTimer.Some? { TimerFieldStays(s, a); }
    forall c | c in n.callers && n.callers[c].LoginPersisting? ensures n.core.stopped || n.core.persistTimer.Some? {
      LoginStartsWatchdog(s, a, c);
    }
    hide Next, Enabled;
  }

  lemma TimerFieldStays(s: State, a: Action)
    requires Enabled(s, a) && s.core.persistTimer.Some?
    ensures Next(s, a).core.persistTimer.Some?
  {
    hide RefreshDelay, RetryDelay, Board, AfterOutcome, AfterLoad, StepAir;
  }

  lemma LoginStartsWatchdog(s: State, a: Action, c: nat)
    requires Enabled(s, a) && c in Next(s, a).callers && Next(s, a).callers[c].LoginPersisting?
    ensures || (c in s.callers && s.callers[c].LoginPersisting?)
            || Next(s, a).core.stopped || Next(s, a).core.persistTimer.Some?
  {
    hide Schedule, Reschedule, RearmWatchdog, StopLocked, StepAir, StepCore, Board, AfterOutcome, AfterLoad;
  }

  /**
   * In every run: once a login has got to persisting its token, the watchdog of a running manager
   * has been started, and from then on it is pending and due within one interval, or its callback
   * is on the way to rearming it. It never dies.
   */
  lemma {:induction false} WatchdogNeverDies(r: Run, i: nat)
    requires IsRun(r) && i < |r.states|
    ensures WatchdogAlive(r.states[i].core, r.states[i].callbacks, r.states[i].now) && WatchdogStarted(r.states[i])
  {
    hide Next, Enabled, WatchdogAlive, WatchdogStarted;
    if i == 0 {
      WatchdogStart(r.states[0]);
    } else {
      WatchdogNeverDies(r, i - 1);
      InvRun(r, i - 1);
      hide TimerInv, StopInv, Waits, Numbered;
      AliveStep(r.states[i - 1], r.actions[i - 1]);
      StartedStep(r.states[i - 1], r.actions[i - 1]);
    }
  }

  lemma WatchdogStart(s: State)
    requires s == Start(s.core.settings, s.now)
    ensures WatchdogAlive(s.core, s.callbacks, s.now) && WatchdogStarted(s)
  {
  }

  /** The watchdog writes the current entry unless the manager is stopped or both tokens are empty. */
  lemma WatchdogWritesIff(r: Run, i: nat, t: nat)
    requires IsRun(r) && i < |r.actions| && r.actions[i].CallbackStep? && r.actions[i].t == t
    requires r.states[i].callbacks[t] == WatchdogFired
    ensures var s, n := r.states[i], r.states[i + 1];
            var worth := s.core.current.Some?
                && (s.core.current.value.idToken != "" || s.core.current.value.refreshToken != "");
            && t in n.callbacks
            && n.callbacks[t] == (if !s.core.stopped && worth then WatchdogWriting(s.core.current.value)
                                  else WatchdogRearming)
  {
    InvRun(r, i);
    hide Reschedule, RearmWatchdog, TimersNamed, SlotsExact, StopInv, Waits;
  }

  /** An eviction ends with the manager stopped. */
  lemma EvictionStops(r: Run, i: nat, c: nat)
    requires IsRun(r) && i < |r.actions| && r.actions[i] == CallerStep(c) && r.states[i].callers[c] == Halting
    ensures r.states[i + 1].core.stopped && r.states[i + 1].core.pending == map[]
  {
    InvRun(r, i);
    StopLockedKeeps(r.states[i].core, r.states[i].callbacks);
    hide TimersNamed, SlotsExact, StopInv, Waits, Numbered, StopLocked;
  }
}
