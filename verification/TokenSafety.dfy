/**
 * What holds in every run of one token manager: exact wait-group accounting, finality of Stop, and
 * that Stop can always return.
 */
module TokenSafety {
  import opened Common
  import opened TokenManagers
  import opened TokenRuns

  // ------------------------------------------------------------------ Timers, wait group and Stop

  /** The wait group counts pending timers and unfinished callbacks; each kind has one timer at most. */
  lemma WaitGroupExact(r: Run, i: nat)
    requires IsRun(r) && i < |r.states|
    ensures var c := r.states[i].core;
            && c.wg == |c.pending| + |r.states[i].callbacks| >= 0
            && (forall t <- c.pending :: t !in r.states[i].callbacks)
            && (forall t <- c.pending, u <- c.pending ::
                  c.pending[t].work.Watchdog? == c.pending[u].work.Watchdog? ==> t == u)
  {
    InvRun(r, i);
  }

  /** Every Add arms a new timer, and happens while the manager is not stopped. */
  lemma AddsPrecedeStop(r: Run, i: nat)
    requires IsRun(r) && i < |r.actions|
    ensures r.states[i + 1].core.nextTimer > r.states[i].core.nextTimer ==>
              !r.states[i].core.stopped && !r.states[i + 1].core.stopped
    ensures r.states[i + 1].core.wg > r.states[i].core.wg ==>
              r.states[i + 1].core.nextTimer > r.states[i].core.nextTimer
  {
    hide Next, Enabled, Start;
    StepAddsSafely(r.states[i], r.actions[i]);
  }

  /** A locked section adds to the wait group only with a new timer, and only on a running manager. */
  ghost predicate AddsSafely(c: Core, n: Core) {
    (n.nextTimer > c.nextTimer ==> !c.stopped && !n.stopped) && (n.wg > c.wg ==> n.nextTimer > c.nextTimer)
  }

  lemma StepAddsSafely(s: State, a: Action)
    requires Enabled(s, a)
    ensures AddsSafely(s.core, Next(s, a).core)
  {
    hide Schedule, Reschedule, StartWatchdog, RearmWatchdog, StopLocked, Board, AfterOutcome, AfterLoad, StepAir;
    var e :=
      if a.CallbackStep? && s.callbacks[a.t].Retrying? then s.callbacks[a.t].entry
      else if a.CallerStep? && s.callers[a.c].LoginScheduling? then s.callers[a.c].entry
      else if a.FlightStep? && s.air.flight.value.phase.CounterReset? then s.air.flight.value.phase.entry
      else Entry("", "", 0);
    SectionsAddSafely(s.core, s.now, e, if a.CallbackStep? then a.draw else 0);
  }

  lemma SectionsAddSafely(c: Core, now: int, e: Entry, draw: nat)
    ensures AddsSafely(c, Schedule(c, now, e)) && AddsSafely(c, Reschedule(c, now, e, draw))
    ensures AddsSafely(c, StartWatchdog(c, now)) && AddsSafely(c, RearmWatchdog(c, now)) && AddsSafely(c, StopLocked(c))
  {
    hide RefreshDelay, RetryDelay;
  }

  /** A callback's step ends it or moves it to another program point. */
  lemma CallbackMoves(s: State, t: nat, draw: nat)
    requires Enabled(s, CallbackStep(t, draw))
    ensures var n := StepCallback(s, t, draw);
            if s.callbacks[t].Finishing? then n.callbacks == s.callbacks - {t} && |n.callbacks| == |s.callbacks| - 1
            else t in n.callbacks && n.callbacks == s.callbacks[t := n.callbacks[t]] && |n.callbacks| == |s.callbacks|
  {
    hide Reschedule, RearmWatchdog, Board, AfterOutcome, AfterLoad;
    if s.callbacks[t].Finishing? {
      RemoveCard(s.callbacks, t);
    } else {
      InsertCard(s.callbacks, t, StepCallback(s, t, draw).callbacks[t]);
    }
  }

  ghost predicate StopReturns(r: Run, i: nat)
    requires IsRun(r) && i < |r.actions|
  {
    r.actions[i].CallerStep? && r.states[i].callers[r.actions[i].c].Stopping?
  }

  /** After the stopping call returns nothing is pending or running, whatever anyone does later. */
  lemma {:induction false} StopIsFinal(r: Run, i: nat, j: nat)
    requires IsRun(r) && i < |r.actions| && i < j < |r.states| && StopReturns(r, i)
    ensures r.states[j].core.stopped && r.states[j].core.wg == 0
    ensures r.states[j].core.pending == map[] && r.states[j].callbacks == map[]
  {
    ReturnRemembered(r, i, j);
    InvRun(r, j);
  }

  lemma {:induction false} ReturnRemembered(r: Run, i: nat, j: nat)
    requires IsRun(r) && i < |r.actions| && i < j < |r.states| && StopReturns(r, i)
    ensures r.states[j].stopReturned
    decreases j
  {
    if j > i + 1 {
      ReturnRemembered(r, i, j - 1);
      var s, a := r.states[j - 1], r.actions[j - 1];
      assert Next(s, a).stopReturned by {
        hide Schedule, Reschedule, StartWatchdog, RearmWatchdog, StopLocked, StepAir, StepCore;
      }
    }
  }

  function FlightRank(p: Phase): nat {
    match p
    case Loading => 6
    case Presenting(_) => 5
    case Received(_) => 4
    case Stored(_) => 3
    case Persisted(_) => 2
    case CounterReset(_) => 1
  }

  /** How many steps a callback of a stopped manager can still need. */
  function Rank(air: Air, pc: Callback): nat {
    match pc
    case Finishing => 0
    case Fired(_) => 1
    case Retrying(_) => 1
    case WatchdogRearming => 1
    case WatchdogWriting(_) => 2
    case WatchdogFired => 3
    case Waiting(_, f) => if f in air.outcomes || air.flight.None? then 2 else 2 + FlightRank(air.flight.value.phase)
    case Calling(_) => 9
  }

  ghost predicate Leads(s: State, actions: seq<Action>, end: State)
    decreases actions
  {
    if actions == [] then s == end
    else Enabled(s, actions[0]) && Leads(Next(s, actions[0]), actions[1..], end)
  }

  /** The step that brings a stopped manager's callback closer to its end. */
  function Unblock(s: State, t: nat): Action
    requires t in s.callbacks
  {
    if s.callbacks[t].Waiting? && s.callbacks[t].flight !in s.air.outcomes
    then FlightStep(Denied(false)) else CallbackStep(t, 0)
  }

  lemma UnblockEnabled(s: State, t: nat)
    requires Inv(s) && t in s.callbacks
    ensures Enabled(s, Unblock(s, t))
  {
    hide TimerInv, StopInv, Numbered;
    assert s.callbacks[t].Waiting? ==> Aloft(s.air, s.callbacks[t].flight);
  }

  lemma CallbackProgress(s: State, t: nat)
    requires s.core.cancelled && Enabled(s, CallbackStep(t, 0)) && !s.callbacks[t].Finishing?
    ensures var n := StepCallback(s, t, 0);
            t in n.callbacks && Rank(n.air, n.callbacks[t]) < Rank(s.air, s.callbacks[t])
  {
    hide Reschedule, RearmWatchdog;
  }

  lemma FlightProgress(air: Air, current: Option<Entry>, pc: Callback)
    requires pc.Waiting? && air.flight.Some? && pc.flight !in air.outcomes
    ensures Rank(StepAir(air, current, Denied(false)), pc) < Rank(air, pc)
  {
  }

  lemma UnblockProgress(s: State, t: nat)
    requires Inv(s) && s.core.stopped && t in s.callbacks && Enabled(s, Unblock(s, t))
    ensures var n := Next(s, Unblock(s, t));
            if s.callbacks[t].Finishing? then |n.callbacks| == |s.callbacks| - 1
            else
              && t in n.callbacks && |n.callbacks| == |s.callbacks|
              && Rank(n.air, n.callbacks[t]) < Rank(s.air, s.callbacks[t])
  {
    hide TimersNamed, SlotsExact, StopInv, Waits, StepCallback, StepAir, StepCore, Rank;
    if Unblock(s, t).CallbackStep? {
      CallbackMoves(s, t, 0);
      if !s.callbacks[t].Finishing? { CallbackProgress(s, t); }
    } else {
      FlightProgress(s.air, s.core.current, s.callbacks[t]);
    }
  }

  /**
   * Stop cannot deadlock: from every reachable stopped state the callbacks and the flight alone,
   * with the provider answering, can run until the wait group is zero and Stop may return.
   */
  lemma {:induction false} StopCanReturn(s: State, t: nat) returns (actions: seq<Action>, end: State)
    requires Inv(s) && s.core.stopped && (s.callbacks != map[] ==> t in s.callbacks)
    ensures Leads(s, actions, end) && end.core.wg == 0
    ensures forall a <- actions :: a.CallbackStep? || a.FlightStep?
    decreases |s.callbacks|, if t in s.callbacks then Rank(s.air, s.callbacks[t]) else 0
  {
    if s.callbacks == map[] {
      actions, end := [], s;
    } else {
      var a := Unblock(s, t);
      UnblockEnabled(s, t);
      UnblockProgress(s, t);
      var n := Next(s, a);
      InvStep(s, a);
      StoppedStays(s, a);
      hide Next, Enabled;
      var u := if t in n.callbacks || n.callbacks == map[] then t else var v :| v in n.callbacks; v;
      var rest, last := StopCanReturn(n, u);
      actions, end := [a] + rest, last;
      assert actions[1..] == rest;
    }
  }

  // ------------------------------------------------------------------ What Stop does not wait for

  /** An active flight has somebody waiting for it: a callback or a caller of Refresh. */
  ghost predicate Crewed(s: State) {
    s.air.flight.Some? ==>
      || (exists t :: t in s.callbacks && s.callbacks[t].Waiting? && s.callbacks[t].flight == s.air.flight.value.id)
      || (exists c :: c in s.callers && s.callers[c].Joined? && s.callers[c].flight == s.air.flight.value.id)
  }

  /** Whoever waits for the active flight goes on waiting while it is active. */
  lemma CrewStays(s: State, a: Action, f: nat)
    requires Enabled(s, a) && f !in s.air.outcomes
    ensures forall t <- s.callbacks :: s.callbacks[t].Waiting? && s.callbacks[t].flight == f ==>
              t in Next(s, a).callbacks && (Next(s, a).callbacks[t] == s.callbacks[t] || a == Fire(t))
    ensures forall c <- s.callers :: s.callers[c] == Joined(f) ==>
            c in Next(s, a).callers && Next(s, a).callers[c] == Joined(f)
  {
    hide Schedule, Reschedule, StartWatchdog, RearmWatchdog, StopLocked, StepAir, StepCore;
  }

  /** A flight that was not active before has been boarded by the step's own goroutine. */
  lemma NewFlightCrewed(s: State, a: Action)
    requires Enabled(s, a) && s.air.flight.None?
    ensures Crewed(Next(s, a))
  {
    hide Schedule, Reschedule, StartWatchdog, RearmWatchdog, StopLocked, StepAir, StepCore;
    if a.CallbackStep? && s.callbacks[a.t].Calling? {
      assert a.t in Next(s, a).callbacks;
    } else if a.Call? && a.request.RefreshRequest? {
      assert a.c in Next(s, a).callers;
    }
  }

  lemma SameFlight(s: State, a: Action)
    requires Enabled(s, a) && s.air.flight.Some?
    ensures Next(s, a).air.flight.Some? ==> Next(s, a).air.flight.value.id == s.air.flight.value.id
  {
    if a.FlightStep? {
      hide StepCore;
    } else {
      GroundSteps(s, a);
      hide Next;
    }
  }

  lemma CrewStep(s: State, a: Action)
    requires Inv(s) && Crewed(s) && Enabled(s, a)
    ensures Crewed(Next(s, a))
  {
    if s.air.flight.None? {
      hide Next, Inv;
      NewFlightCrewed(s, a);
    } else {
      SameFlight(s, a);
      CrewStays(s, a, s.air.flight.value.id);
      hide Next, StopInv, Waits, TimersNamed, Enabled;
    }
  }

  lemma {:induction false} CrewRun(r: Run, i: nat)
    requires IsRun(r) && i < |r.states|
    ensures Crewed(r.states[i])
  {
    hide Next, Enabled, Crewed, Inv;
    if i == 0 {
      assert Crewed(r.states[0]) by { NobodyFlies(r.states[0]); }
    } else {
      CrewRun(r, i - 1);
      InvRun(r, i - 1);
      CrewStep(r.states[i - 1], r.actions[i - 1]);
    }
  }

  lemma NobodyFlies(s: State)
    requires s == Start(s.core.settings, s.now)
    ensures Crewed(s)
  {
  }

  /**
   * When the stopping call returns, a refresh is in progress if and only if some caller of Refresh
   * that is not a timer callback still waits for one.
   */
  lemma RefreshOutlivesStopIff(r: Run, i: nat)
    requires IsRun(r) && i < |r.actions| && StopReturns(r, i)
    ensures var s := r.states[i + 1];
            s.air.flight.Some? <==>
            exists c :: c in s.callers && s.callers[c].Joined? && s.callers[c].flight !in s.air.outcomes
  {
    StopIsFinal(r, i, i + 1);
    CrewRun(r, i + 1);
    InvRun(r, i + 1);
    hide Next, Enabled, TimerInv, StopInv;
  }

  /** For instance, the refresh token can be on its way to the provider when Stop has returned. */
  lemma RefreshCanOutliveStop(settings: Settings, now: int, e: Entry) returns (r: Run)
    requires e.refreshToken != ""
    ensures IsRun(r) && |r.actions| == 5 && StopReturns(r, 4)
    ensures r.states[5].stopReturned && r.states[5].air.flight == Some(Flight(0, Presenting(e.refreshToken)))
  {
    var a0, a1, a2 := Call(0, LoginRequest(e)), Call(1, RefreshRequest), FlightStep(Denied(false));
    var a3, a4 := Call(2, StopRequest), CallerStep(2);
    var s0 := Start(settings, now);
    var s1 := s0.(core := s0.core.(current := Some(e)), callers := map[0 := LoginScheduling(e)]);
    var s2 := s1.(callers := s1.callers[1 := Joined(0)], air := Air(Some(Flight(0, Loading)), map[], 1));
    var s3 := s2.(air := Air(Some(Flight(0, Presenting(e.refreshToken))), map[], 1));
    var s4 := s3.(core := s3.core.(stopped := true, cancelled := true), callers := s3.callers[2 := Stopping]);
    var s5 := s4.(callers := s4.callers - {2}, stopReturned := true);
    assert Enabled(s0, a0) && Next(s0, a0) == s1;
    assert Enabled(s1, a1) && Next(s1, a1) == s2;
    assert Enabled(s2, a2) && Next(s2, a2) == s3;
    assert Enabled(s3, a3) && Next(s3, a3) == s4;
    assert Enabled(s4, a4) && Next(s4, a4) == s5;
    r := Run([s0, s1, s2, s3, s4, s5], [a0, a1, a2, a3, a4]);
    hide Enabled, Next;
  }
}
