/**
 * What every run of one token manager does with refresh tokens: a rotated token is used once,
 * a landed flight reports exactly what it installed, a held token is never lost, and retries
 * follow the documented backoff.
 */
module RefreshTokens {
  import opened Common
  import opened TokenManagers
  import opened TokenRuns

  function Token(o: Option<Entry>): string {
    if o.Some? then o.value.refreshToken else ""
  }

  /** The refresh token the active flight is working with. */
  function Carried(air: Air): string {
    if air.flight.None? then "" else
      match air.flight.value.phase
      case Loading => ""
      case Presenting(token) => token
      case Received(e) => e.refreshToken
      case Stored(e) => e.refreshToken
      case Persisted(e) => e.refreshToken
      case CounterReset(e) => e.refreshToken
  }

  predicate IsPresenting(s: State, token: string) {
    s.air.flight.Some? && s.air.flight.value.phase == Presenting(token)
  }

  predicate IsLogin(a: Action) { a.Call? && a.request.LoginRequest? }

  /** A provider call that returned success. */
  predicate Succeeds(s: State, a: Action) {
    a.FlightStep? && s.air.flight.Some? && s.air.flight.value.phase.Presenting? && a.reply.Granted?
  }

  /** The refresh token a step brings in from outside, if any. */
  function Introduced(s: State, a: Action): string {
    if IsLogin(a) then a.request.entry.refreshToken
    else if Succeeds(s, a) then a.reply.refreshToken
    else ""
  }

  /** Outside the flight, only a login changes the current entry. */
  lemma GroundCurrent(s: State, a: Action)
    requires Enabled(s, a) && !a.FlightStep?
    ensures Next(s, a).core.current == if IsLogin(a) then Some(a.request.entry) else s.core.current
  {
    hide RefreshDelay, RetryDelay, Board, AfterOutcome, AfterLoad;
  }

  lemma FlightCurrent(s: State, r: Reply)
    requires s.air.flight.Some?
    ensures StepFlight(s, r).core.current ==
            if s.air.flight.value.phase.Received? then Some(s.air.flight.value.phase.entry) else s.core.current
  {
    hide RefreshDelay, StepAir;
  }

  // ------------------------------------------------------------------ A rotated token is used once

  /** Every provider answer rotates, and no token is ever brought in twice. */
  ghost predicate Rotating(r: Run)
    requires IsRun(r)
  {
    && (forall i | 0 <= i < |r.actions| :: Succeeds(r.states[i], r.actions[i]) ==>
        Introduced(r.states[i], r.actions[i]) != "")
    && (forall i, j | 0 <= i < j < |r.actions| :: Introduced(r.states[i], r.actions[i]) != "" ==>
          Introduced(r.states[i], r.actions[i]) != Introduced(r.states[j], r.actions[j]))
  }

  /** A step moves tokens around or introduces one; it makes up none. */
  lemma TokensConserved(s: State, a: Action)
    requires Enabled(s, a)
    ensures Token(Next(s, a).core.current) in {Token(s.core.current), Carried(s.air), Introduced(s, a)}
    ensures Carried(Next(s, a).air) in {"", Token(s.core.current), Carried(s.air), Introduced(s, a)}
  {
    if a.FlightStep? {
      FlightCurrent(s, a.reply);
      hide StepCore;
    } else {
      GroundCurrent(s, a);
      GroundSteps(s, a);
      hide Next;
    }
  }

  /** A non-empty token that the manager holds was brought in by an earlier step. */
  lemma {:induction false} TokenHasOrigin(r: Run, i: nat, token: string) returns (k: nat)
    requires IsRun(r) && i < |r.states| && token != ""
    requires token == Token(r.states[i].core.current) || token == Carried(r.states[i].air)
    ensures k < i && Introduced(r.states[k], r.actions[k]) == token
    decreases i
  {
    hide Enabled, Next;
    var s, a := r.states[i - 1], r.actions[i - 1];
    TokensConserved(s, a);
    if Introduced(s, a) == token {
      k := i - 1;
    } else {
      k := TokenHasOrigin(r, i - 1, token);
    }
  }

  /** A used token is nowhere in the manager, except under the entry about to be replaced. */
  ghost predicate Retired(s: State, token: string) {
    && Carried(s.air) != token
    && (Token(s.core.current) == token ==> s.air.flight.Some? && s.air.flight.value.phase.Received?)
  }

  lemma RetiredStep(s: State, a: Action, token: string)
    requires Enabled(s, a) && Retired(s, token) && token != "" && Introduced(s, a) != token
    requires Succeeds(s, a) ==> Introduced(s, a) != ""
    ensures Retired(Next(s, a), token)
  {
    if a.FlightStep? {
      FlightCurrent(s, a.reply);
      hide StepCore;
    } else {
      GroundCurrent(s, a);
      GroundSteps(s, a);
      hide Next;
    }
  }

  lemma SuccessRetires(s: State, r: Reply, token: string)
    requires IsPresenting(s, token) && r.Granted? && r.refreshToken !in {"", token}
    ensures Retired(Next(s, FlightStep(r)), token)
  {
  }

  /**
   * With a rotating provider and logins that bring fresh tokens, a refresh token whose provider
   * call succeeded is never presented again, in any interleaving.
   */
  lemma {:induction false} SpentTokenStaysRetired(r: Run, i: nat, token: string, j: nat)
    requires IsRun(r) && Rotating(r) && i < |r.actions| && i < j < |r.states|
    requires IsPresenting(r.states[i], token) && Succeeds(r.states[i], r.actions[i])
    ensures Retired(r.states[j], token) && !IsPresenting(r.states[j], token)
    decreases j
  {
    PresentedNonEmpty(r, i);
    var origin := TokenHasOrigin(r, i, token);
    var s, a := r.states[j - 1], r.actions[j - 1];
    assert Introduced(s, a) != token;
    hide Next, Enabled;
    if j > i + 1 {
      SpentTokenStaysRetired(r, i, token, j - 1);
      RetiredStep(s, a, token);
    } else {
      SuccessRetires(s, a.reply, token);
    }
  }

  // ------------------------------------------------------------------ A held token is not lost

  /** The flight only ever works with a non-empty refresh token. */
  ghost predicate CarriesToken(air: Air) {
    air.flight.Some? && !air.flight.value.phase.Loading? ==> Carried(air) != ""
  }

  lemma CarriesStep(s: State, a: Action)
    requires Enabled(s, a) && CarriesToken(s.air)
    ensures CarriesToken(Next(s, a).air)
  {
    if a.FlightStep? {
      hide StepCore;
    } else {
      GroundSteps(s, a);
      hide Next;
    }
  }

  lemma {:induction false} PresentedNonEmpty(r: Run, i: nat)
    requires IsRun(r) && i < |r.states|
    ensures CarriesToken(r.states[i].air)
  {
    hide Enabled, Next;
    if i > 0 {
      PresentedNonEmpty(r, i - 1);
      CarriesStep(r.states[i - 1], r.actions[i - 1]);
    }
  }

  /** Between logins a held refresh token stays non-empty and no flight ends for want of one. */
  lemma {:induction false} RefreshTokenKept(r: Run, i: nat, j: nat)
    requires IsRun(r) && i <= j < |r.states| && Token(r.states[i].core.current) != ""
    requires forall k | i <= k < j :: !IsLogin(r.actions[k])
    ensures Token(r.states[j].core.current) != ""
    ensures forall f <- r.states[j].air.outcomes ::
              f !in r.states[i].air.outcomes ==>
                  r.states[j].air.outcomes[f] != EmptyToken && r.states[j].air.outcomes[f] != NoToken
    decreases j
  {
    hide Next, Enabled, Start, CarriesToken, Token, IsLogin;
    if j > i {
      RefreshTokenKept(r, i, j - 1);
      PresentedNonEmpty(r, j - 1);
      KeptStep(r.states[j - 1], r.actions[j - 1]);
    }
  }

  lemma KeptStep(s: State, a: Action)
    requires Enabled(s, a) && CarriesToken(s.air) && Token(s.core.current) != "" && !IsLogin(a)
    ensures Token(Next(s, a).core.current) != ""
    ensures forall f <- Next(s, a).air.outcomes ::
              (f in s.air.outcomes && Next(s, a).air.outcomes[f] == s.air.outcomes[f])
              || (Next(s, a).air.outcomes[f] != EmptyToken && Next(s, a).air.outcomes[f] != NoToken)
  {
    if a.FlightStep? {
      FlightCurrent(s, a.reply);
      hide StepCore;
    } else {
      GroundCurrent(s, a);
      GroundSteps(s, a);
      hide Next;
    }
  }

  // ------------------------------------------------------------------ Flights report what they did

  /** Step k of a run stores the entry that flight f received as the current one. */
  predicate Installs(s: State, a: Action, f: nat, e: Entry) {
    a.FlightStep? && s.air.flight == Some(Flight(f, Received(e)))
  }

  ghost predicate InstalledBy(r: Run, j: nat, f: nat, e: Entry)
    requires IsRun(r) && j < |r.states|
  {
    exists k: nat :: k < j && Installs(r.states[k], r.actions[k], f, e)
  }

  /** Flight f has stored e and has not landed yet, or has landed with e. */
  ghost predicate Holds(air: Air, f: nat, e: Entry) {
    || (f in air.outcomes && air.outcomes[f] == Refreshed(e))
    || (air.flight.Some? && air.flight.value.id == f
        && air.flight.value.phase in {Stored(e), Persisted(e), CounterReset(e)})
  }

  lemma HoldsStep(s: State, a: Action, f: nat, e: Entry)
    requires Enabled(s, a) && Numbered(s.air)
    ensures Holds(Next(s, a).air, f, e) <==> Holds(s.air, f, e) || Installs(s, a, f, e)
  {
    if a.FlightStep? {
      hide StepCore;
    } else {
      GroundSteps(s, a);
      hide Next;
    }
  }

  lemma {:induction false} HoldsInstalled(r: Run, j: nat, f: nat, e: Entry)
    requires IsRun(r) && j < |r.states|
    ensures Holds(r.states[j].air, f, e) <==> InstalledBy(r, j, f, e)
  {
    hide Enabled, Next, Holds, Installs;
    if j == 0 {
      StartHoldsNothing(r.states[0], f, e);
    } else {
      HoldsInstalled(r, j - 1, f, e);
      assert Numbered(r.states[j - 1].air) by { InvRun(r, j - 1); }
      HoldsStep(r.states[j - 1], r.actions[j - 1], f, e);
      if InstalledBy(r, j - 1, f, e) {
        var k: nat :| k < j - 1 && Installs(r.states[k], r.actions[k], f, e);
        assert InstalledBy(r, j, f, e);
      }
      if Installs(r.states[j - 1], r.actions[j - 1], f, e) {
        assert InstalledBy(r, j, f, e);
      }
    }
  }

  lemma StartHoldsNothing(s: State, f: nat, e: Entry)
    requires s == Start(s.core.settings, s.now)
    ensures !Holds(s.air, f, e)
  {
  }

  /**
   * A flight that has landed succeeded with an entry exactly when it installed that entry. So all
   * callers that joined it get what it installed, and a failed flight installed nothing.
   */
  lemma LandedFlightExact(r: Run, j: nat, f: nat, e: Entry)
    requires IsRun(r) && j < |r.states| && f in r.states[j].air.outcomes
    ensures r.states[j].air.outcomes[f] == Refreshed(e) <==> InstalledBy(r, j, f, e)
  {
    HoldsInstalled(r, j, f, e);
    InvRun(r, j);
  }

  /** The current entry changes only by a login or by a flight installing what it received. */
  lemma CurrentChanges(r: Run, k: nat)
    requires IsRun(r) && k < |r.actions|
    ensures var s, a, n := r.states[k], r.actions[k], r.states[k + 1];
            || n.core.current == s.core.current
            || (IsLogin(a) && n.core.current == Some(a.request.entry))
            || (s.air.flight.Some? && n.core.current.Some?
                && Installs(s, a, s.air.flight.value.id, n.core.current.value))
  {
    var s, a := r.states[k], r.actions[k];
    if a.FlightStep? {
      FlightCurrent(s, a.reply);
      hide StepCore, StepAir;
    } else {
      GroundCurrent(s, a);
      hide Next;
    }
  }

  /** An outcome, once recorded, is the same for every caller that reads it later. */
  lemma {:induction false} OutcomeIsStable(r: Run, i: nat, j: nat, f: nat)
    requires IsRun(r) && i <= j < |r.states| && f in r.states[i].air.outcomes
    ensures f in r.states[j].air.outcomes && r.states[j].air.outcomes[f] == r.states[i].air.outcomes[f]
    decreases j
  {
    hide Next, Enabled, Start;
    if j > i {
      OutcomeIsStable(r, i, j - 1, f);
      assert Numbered(r.states[j - 1].air) by { InvRun(r, j - 1); }
      OutcomesGrow(r.states[j - 1], r.actions[j - 1], f);
    }
  }

  lemma OutcomesGrow(s: State, a: Action, f: nat)
    requires Enabled(s, a) && Numbered(s.air) && f in s.air.outcomes
    ensures f in Next(s, a).air.outcomes && Next(s, a).air.outcomes[f] == s.air.outcomes[f]
  {
    if a.FlightStep? {
      hide StepCore;
    } else {
      GroundSteps(s, a);
      hide Next;
    }
  }

  // ------------------------------------------------------------------ The retry schedule over a run

  predicate CountsRetry(s: State, a: Action) {
    a.CallbackStep? && a.t in s.callbacks && s.callbacks[a.t].Retrying? && !s.core.stopped
  }

  predicate ResetsRetries(s: State, a: Action) {
    a.FlightStep? && s.air.flight.Some? && s.air.flight.value.phase.Persisted?
  }

  /** Failed attempts since the last success, as the run's actions tell. */
  function FailuresSince(r: Run, i: nat): nat
    requires i < |r.states| && |r.states| == |r.actions| + 1
  {
    if i == 0 || ResetsRetries(r.states[i - 1], r.actions[i - 1]) then 0
    else FailuresSince(r, i - 1) + if CountsRetry(r.states[i - 1], r.actions[i - 1]) then 1 else 0
  }

  lemma CounterStep(s: State, a: Action)
    requires Enabled(s, a)
    ensures Next(s, a).core.retryCount ==
            if ResetsRetries(s, a) then 0 else if CountsRetry(s, a) then Bump(s.core.retryCount) else s.core.retryCount
  {
    hide RefreshDelay, RetryDelay, Board, AfterOutcome, AfterLoad, StepAir;
  }

  /** The counter is the number of consecutive failures modulo 2^64. */
  lemma {:induction false} CounterExact(r: Run, i: nat)
    requires IsRun(r) && i < |r.states|
    ensures r.states[i].core.retryCount == FailuresSince(r, i) % UINT_MODULUS
  {
    hide Next, Enabled, Bump, CountsRetry, ResetsRetries;
    if i > 0 {
      CounterExact(r, i - 1);
      CounterStep(r.states[i - 1], r.actions[i - 1]);
      BumpExact(FailuresSince(r, i - 1));
    }
  }

  /**
   * The n-th consecutive failure of a live token arms one retry timer whose wait lies in the
   * quarter band around min(2^(n-1), 30) seconds, or ends with the token's life.
   */
  lemma RetrySchedule(r: Run, i: nat, n: nat)
    requires IsRun(r) && i < |r.actions| && CountsRetry(r.states[i], r.actions[i])
    requires n == FailuresSince(r, i) + 1 && (n <= UINT_MODULUS || (n - 1) % UINT_MODULUS >= 5)
    requires 0 < r.states[i].callbacks[r.actions[i].t].entry.expiry - r.states[i].now < INT64_LIMIT
    ensures var c, d := r.states[i].core, r.states[i + 1].core;
            var base := Min(1_000_000_000 * Pow2(n - 1), 30_000_000_000);
            var remaining := r.states[i].callbacks[r.actions[i].t].entry.expiry - r.states[i].now;
            && d.refreshTimer == Some(c.nextTimer) && c.nextTimer in d.pending && d.pending[c.nextTimer].work == Retry
            && var wait := d.pending[c.nextTimer].due - r.states[i].now;
               0 < wait <= remaining && 4 * wait < 5 * base && (4 * wait < 3 * base ==> wait == remaining)
  {
    var s, a := r.states[i], r.actions[i];
    var e := s.callbacks[a.t].entry;
    CounterExact(r, i);
    var count := Bump(s.core.retryCount);
    BumpExact(FailuresSince(r, i));
    BackoffExact(n);
    RetryDelayBounds(count, a.draw, e.expiry - s.now);
    hide RetryDelay, Base, Pow2;
  }

  lemma BumpExact(n: nat)
    ensures Bump(n % UINT_MODULUS) == (n + 1) % UINT_MODULUS
  {
  }
}
