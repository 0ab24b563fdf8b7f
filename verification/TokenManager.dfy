/**
 * The token manager object of pkg/daemon/token_manager.go.
 *
 * A token manager owns a current token entry, a refresh timer, a persist watchdog timer, a
 * wait group that counts timer callbacks, a retry counter and a stop flag. `Core` is the value
 * of all of these together with the timers the runtime still holds; the class performs the
 * locked sections statement by statement and is proved to compute the functions on `Core`.
 */
module TokenManagers {
  import opened Common

  // Durations and instants are nanoseconds.
  const SECOND: int := 1_000_000_000
  const DEFAULT_MARGIN: real := 0.8
  const DEFAULT_MIN_REFRESH: int := 10 * SECOND
  const DEFAULT_PERSIST_INTERVAL: int := 300 * SECOND
  const RETRY_CAP: int := 30 * SECOND
  const UINT_MODULUS: nat := 0x1_0000_0000_0000_0000
  const INT64_LIMIT: int := 0x8000_0000_0000_0000

  /** The 64-bit unsigned counter of consecutive failures. */
  type Counter = n: nat | n < UINT_MODULUS

  datatype Entry = Entry(idToken: string, refreshToken: string, expiry: int)

  /** What a timer's callback does: refresh for a captured entry, retry, or re-persist. */
  datatype Work = Proactive(entry: Entry) | Retry | Watchdog

  datatype Timer = Timer(due: int, work: Work)

  datatype Settings = Settings(refreshMargin: real, minRefreshInterval: int, persistInterval: int)

  /** `pending` holds exactly the timers that have neither fired nor been stopped. */
  datatype Core = Core(
    settings: Settings,
    current: Option<Entry>,
    refreshTimer: Option<nat>,
    persistTimer: Option<nat>,
    retryCount: Counter,
    stopped: bool,
    cancelled: bool,
    wg: int,
    pending: map<nat, Timer>,
    nextTimer: nat)

  /** Out-of-range settings are replaced by the defaults, as the constructor does. */
  function Normalize(s: Settings): (r: Settings)
    ensures 0.0 < r.refreshMargin < 1.0 && r.minRefreshInterval > 0 && r.persistInterval > 0
    ensures r.refreshMargin == if 0.0 < s.refreshMargin < 1.0 then s.refreshMargin else 0.8
    ensures r.minRefreshInterval == if s.minRefreshInterval > 0 then s.minRefreshInterval else 10_000_000_000
    ensures r.persistInterval == if s.persistInterval > 0 then s.persistInterval else 300_000_000_000
  {
    Settings(
      if s.refreshMargin <= 0.0 || s.refreshMargin >= 1.0 then DEFAULT_MARGIN else s.refreshMargin,
      if s.minRefreshInterval <= 0 then DEFAULT_MIN_REFRESH else s.minRefreshInterval,
      if s.persistInterval <= 0 then DEFAULT_PERSIST_INTERVAL else s.persistInterval)
  }

  function Fresh(s: Settings): Core {
    Core(Normalize(s), None, None, None, 0, false, false, 0, map[], 0)
  }

  /** `Timer.Stop` on the timer a field points to: true, with a slot released, only while pending. */
  function StopTimer(c: Core, t: Option<nat>): Core {
    if t.Some? && t.value in c.pending
    then c.(pending := c.pending - {t.value}, wg := c.wg - 1)
    else c
  }

  function Arm(c: Core, due: int, work: Work): Core {
    c.(pending := c.pending[c.nextTimer := Timer(due, work)], wg := c.wg + 1, nextTimer := c.nextTimer + 1)
  }

  function RefreshDelay(s: Settings, lifetime: int): int {
    var delay := (lifetime as real * s.refreshMargin).Floor;
    if delay < s.minRefreshInterval then s.minRefreshInterval else delay
  }

  /** Replaces the refresh timer by a new one, or only stops it when the token's life is over. */
  function Replace(c: Core, alive: bool, due: int, work: Work): Core {
    var idle := StopTimer(c, c.refreshTimer);
    if alive then Arm(idle, due, work).(refreshTimer := Some(c.nextTimer)) else idle
  }

  function Schedule(c: Core, now: int, e: Entry): Core {
    if c.stopped then c else
      Replace(c, e.expiry - now > 0, now + RefreshDelay(c.settings, e.expiry - now), Proactive(e))
  }

  function Bump(n: Counter): Counter {
    if n + 1 == UINT_MODULUS then 0 else n + 1
  }

  function Pow2(n: nat): (r: nat)
    ensures r >= 1
  {
    if n == 0 then 1 else 2 * Pow2(n - 1)
  }

  /** The exponent of the backoff, computed on the unsigned counter after its increment. */
  function Shift(retryCount: Counter): nat
  {
    var shift := if retryCount == 0 then UINT_MODULUS - 1 else retryCount - 1;
    if shift > 5 then 5 else shift
  }

  function Base(retryCount: Counter): int
  {
    var delay := SECOND * Pow2(Shift(retryCount));
    if delay > RETRY_CAP then RETRY_CAP else delay
  }

  lemma BaseRange(retryCount: Counter)
    ensures Base(retryCount) in {1_000_000_000, 2_000_000_000, 4_000_000_000, 8_000_000_000, 16_000_000_000,
                                 30_000_000_000}
    ensures SECOND * Pow2(Shift(retryCount)) <= 32 * SECOND < INT64_LIMIT
  {
    assert Pow2(1) == 2 && Pow2(2) == 4 && Pow2(3) == 8;
    assert Pow2(4) == 16 && Pow2(5) == 32;
  }

  /** The wait before a retry: the base, jittered by a quarter, cut at the token's remaining life. */
  function RetryDelay(retryCount: Counter, draw: nat, remaining: int): int
  {
    BaseRange(retryCount);
    var base := Base(retryCount);
    var delay := base / 2 + base / 4 + draw % (base / 2);
    if delay > remaining then remaining else delay
  }

  /**
   * Every retry delay is positive, within the token's life, below 37.5 seconds and inside the
   * jitter band unless the token's life cuts it; every intermediate product fits an int64.
   */
  lemma RetryDelayBounds(retryCount: Counter, draw: nat, remaining: int)
    requires 0 < remaining < INT64_LIMIT
    ensures 0 < RetryDelay(retryCount, draw, remaining) <= remaining
    ensures 2 * RetryDelay(retryCount, draw, remaining) < 75 * SECOND
    ensures 4 * RetryDelay(retryCount, draw, remaining) < 5 * Base(retryCount)
    ensures 4 * RetryDelay(retryCount, draw, remaining) < 3 * Base(retryCount)
            ==> RetryDelay(retryCount, draw, remaining) == remaining
    ensures SECOND <= Base(retryCount) <= SECOND * Pow2(Shift(retryCount)) < INT64_LIMIT
    ensures Base(retryCount) / 2 + Base(retryCount) / 4 + draw % (Base(retryCount) / 2) < INT64_LIMIT
  {
    BaseRange(retryCount);
  }

  function Min(a: int, b: int): int { if a <= b then a else b }

  lemma Pow2AtLeast32(n: nat)
    requires n >= 5
    ensures Pow2(n) >= 32
    decreases n
  {
    if n == 5 {
      assert Pow2(1) == 2 && Pow2(2) == 4 && Pow2(3) == 8 && Pow2(4) == 16;
    } else {
      Pow2AtLeast32(n - 1);
    }
  }

  /**
   * The counter after n failures is n modulo 2^64. Its base equals min(2^(n-1), 30) seconds up to
   * the wrap-around, and after it exactly when the wrapped exponent has again reached its cap.
   */
  lemma BackoffExact(n: nat)
    requires n >= 1
    ensures Base(n % UINT_MODULUS) == Min(1_000_000_000 * Pow2(n - 1), 30_000_000_000)
            <==> n <= 0x1_0000_0000_0000_0000 || (n - 1) % 0x1_0000_0000_0000_0000 >= 5
  {
    var k := (n - 1) % UINT_MODULUS;
    ShiftExact(n);
    BaseByShift(n % UINT_MODULUS);
    hide Base, Shift, Pow2;
    if k < 5 { SmallPowers(k); }
    if n > 5 { Pow2AtLeast32(n - 1); }
    if n <= UINT_MODULUS { assert k == n - 1; }
  }

  lemma ShiftExact(n: nat)
    requires n >= 1
    ensures Shift(n % UINT_MODULUS) == Min((n - 1) % UINT_MODULUS, 5)
  {
  }

  lemma BaseByShift(count: Counter)
    ensures Base(count) == if Shift(count) >= 5 then 30_000_000_000 else 1_000_000_000 * Pow2(Shift(count))
  {
    hide Pow2;
    if Shift(count) < 5 { SmallPowers(Shift(count)); } else { Pow2AtLeast32(Shift(count)); }
  }

  lemma SmallPowers(k: nat)
    requires k < 5
    ensures Pow2(k) <= 16
  {
    assert Pow2(1) == 2 && Pow2(2) == 4 && Pow2(3) == 8 && Pow2(4) == 16;
  }

  function Reschedule(c: Core, now: int, e: Entry, draw: nat): Core {
    if c.stopped then c else
      var count := Bump(c.retryCount);
      Replace(c.(retryCount := count), e.expiry - now > 0, now + RetryDelay(count, draw, e.expiry - now), Retry)
  }

  function StartWatchdog(c: Core, now: int): Core {
    if c.stopped || c.persistTimer.Some? then c else
      Arm(c, now + c.settings.persistInterval, Watchdog).(persistTimer := Some(c.nextTimer))
  }

  function RearmWatchdog(c: Core, now: int): Core {
    if c.stopped || c.cancelled then c else
      Arm(c, now + c.settings.persistInterval, Watchdog).(persistTimer := Some(c.nextTimer))
  }

  function StopLocked(c: Core): Core {
    if c.stopped then c else
      StopTimer(StopTimer(c.(stopped := true, cancelled := true), c.refreshTimer), c.persistTimer)
  }

  // ------------------------------------------------------------------ What scheduling arms

  /** The wait is the margin's share of the lifetime, rounded down, or the minimum if that is longer. */
  lemma RefreshDelayExact(s: Settings, lifetime: int)
    ensures var wait, share := RefreshDelay(s, lifetime), lifetime as real * s.refreshMargin;
            && wait >= s.minRefreshInterval
            && share < (wait + 1) as real
            && (wait as real <= share || wait == s.minRefreshInterval)
  {
  }

  /** The only pending timer for refreshes is t, with this work, due after this wait. */
  predicate OnlyRefresh(c: Core, t: nat, work: Work, due: int) {
    && c.refreshTimer == Some(t) && t in c.pending && c.pending[t] == Timer(due, work)
    && forall u <- c.pending :: c.pending[u].work.Watchdog? || u == t
  }

  predicate NoRefresh(c: Core) {
    forall u <- c.pending :: c.pending[u].work.Watchdog?
  }

  /** Any pending refresh timer is the one the field names. */
  predicate RefreshNamed(c: Core) {
    && (forall u <- c.pending :: u < c.nextTimer && (c.pending[u].work.Watchdog? || c.refreshTimer == Some(u)))
    && (c.refreshTimer.Some? && c.refreshTimer.value in c.pending ==> !c.pending[c.refreshTimer.value].work.Watchdog?)
  }

  predicate SameWatchdogs(c: Core, n: Core) {
    && c.persistTimer == n.persistTimer
    && (forall u <- c.pending :: c.pending[u].work.Watchdog? ==> u in n.pending && n.pending[u] == c.pending[u])
    && (forall u <- n.pending :: n.pending[u].work.Watchdog? ==> u in c.pending && c.pending[u] == n.pending[u])
  }

  /**
   * On a running manager a live token gets one proactive refresh, at the margin's share of its
   * lifetime or after the minimum interval, and a dead token gets none; the watchdog is left alone.
   */
  lemma ScheduleExact(c: Core, now: int, e: Entry)
    requires RefreshNamed(c)
    ensures var n := Schedule(c, now, e);
            && (c.stopped ==> n == c)
            && (!c.stopped && e.expiry > now ==>
                  OnlyRefresh(n, c.nextTimer, Proactive(e), now + RefreshDelay(c.settings, e.expiry - now)))
            && (!c.stopped && e.expiry <= now ==> NoRefresh(n))
            && SameWatchdogs(c, n)
  {
    hide RefreshDelay;
  }

  /** The same for a retry, whose entry need not be the current one. */
  lemma RescheduleExact(c: Core, now: int, e: Entry, draw: nat)
    requires RefreshNamed(c)
    ensures var n := Reschedule(c, now, e, draw);
            && (c.stopped ==> n == c)
            && (!c.stopped && e.expiry > now ==>
                  OnlyRefresh(n, c.nextTimer, Retry, now + RetryDelay(Bump(c.retryCount), draw, e.expiry - now)))
            && (!c.stopped && e.expiry <= now ==> NoRefresh(n))
            && SameWatchdogs(c, n)
  {
    hide RetryDelay;
  }

  /** The backoff arithmetic of a retry. */
  method BackoffDelay(retryCount: Counter, draw: nat, remaining: int) returns (delay: int)
    ensures delay == RetryDelay(retryCount, draw, remaining)
  {
    var shift := if retryCount == 0 then UINT_MODULUS - 1 else retryCount - 1;
    if shift > 5 {
      shift := 5;
    }
    delay := SECOND * Pow2(shift);
    if delay > RETRY_CAP {
      delay := RETRY_CAP;
    }
    BaseRange(retryCount);
    var jitter := draw % (delay / 2);
    delay := delay / 2 + delay / 4 + jitter;
    if delay > remaining {
      delay := remaining;
    }
  }

  class TokenManager {
    const settings: Settings
    var current: Option<Entry>
    var refreshTimer: Option<nat>
    var persistTimer: Option<nat>
    var retryCount: Counter
    var stopped: bool
    var cancelled: bool
    // The wait group and the runtime's timers.
    var wg: int
    var pending: map<nat, Timer>
    var nextTimer: nat

    ghost function Value(): Core
      reads this
    {
      Core(settings, current, refreshTimer, persistTimer, retryCount, stopped, cancelled, wg, pending, nextTimer)
    }

    constructor (s: Settings)
      ensures Value() == Fresh(s)
    {
      settings := Normalize(s);
      current, refreshTimer, persistTimer := None, None, None;
      retryCount, stopped, cancelled, wg := 0, false, false, 0;
      pending, nextTimer := map[], 0;
    }

    /** Stops a pending timer and reports whether its callback was prevented. */
    method TimerStop(t: nat) returns (prevented: bool)
      modifies this`pending
      ensures prevented == (t in old(pending))
      ensures pending == old(pending) - {t}
    {
      prevented := t in pending;
      pending := pending - {t};
    }

    /** Stops the timer a field names; a timer stopped before it fired gives its slot back. */
    method StopAndRelease(timer: Option<nat>)
      modifies this
      ensures Value() == StopTimer(old(Value()), timer)
    {
      if timer.Some? {
        var prevented := TimerStop(timer.value);
        if prevented {
          wg := wg - 1;
        } else {
          assert pending == old(pending);
        }
      }
    }

    method AfterFunc(due: int, work: Work) returns (t: nat)
      modifies this`pending, this`nextTimer
      ensures t == old(nextTimer) && nextTimer == t + 1
      ensures pending == old(pending)[t := Timer(due, work)]
    {
      t := nextTimer;
      pending := pending[t := Timer(due, work)];
      nextTimer := nextTimer + 1;
    }

    method ScheduleProactiveRefresh(now: int, e: Entry)
      modifies this
      ensures Value() == Schedule(old(Value()), now, e)
    {
      if stopped {
        return;
      }
      StopAndRelease(refreshTimer);
      var lifetime := e.expiry - now;
      if lifetime <= 0 {
        return;
      }
      var delay := (lifetime as real * settings.refreshMargin).Floor;
      if delay < settings.minRefreshInterval {
        delay := settings.minRefreshInterval;
      }
      wg := wg + 1;
      var t := AfterFunc(now + delay, Proactive(e));
      refreshTimer := Some(t);
    }

    method ScheduleRetry(now: int, e: Entry, draw: nat)
      modifies this
      ensures Value() == Reschedule(old(Value()), now, e, draw)
    {
      hide RetryDelay;
      if stopped {
        return;
      }
      StopAndRelease(refreshTimer);
      retryCount := if retryCount + 1 == UINT_MODULUS then 0 else retryCount + 1;
      var remaining := e.expiry - now;
      if remaining <= 0 {
        return;
      }
      var delay := BackoffDelay(retryCount, draw, remaining);
      wg := wg + 1;
      var t := AfterFunc(now + delay, Retry);
      refreshTimer := Some(t);
    }

    method StartPersistWatchdog(now: int)
      modifies this
      ensures Value() == StartWatchdog(old(Value()), now)
    {
      if stopped {
        return;
      }
      if persistTimer.Some? {
        return;
      }
      wg := wg + 1;
      var t := AfterFunc(now + settings.persistInterval, Watchdog);
      persistTimer := Some(t);
    }

    /** The deferred section of the watchdog callback. */
    method RearmPersistWatchdog(now: int)
      modifies this
      ensures Value() == RearmWatchdog(old(Value()), now)
    {
      if stopped || cancelled {
        return;
      }
      wg := wg + 1;
      var t := AfterFunc(now + settings.persistInterval, Watchdog);
      persistTimer := Some(t);
    }

    /** The locked section of Stop; the stopping call then waits for `wg` to reach zero. */
    method StopUnderLock() returns (stopping: bool)
      modifies this
      ensures stopping == !old(stopped) && Value() == StopLocked(old(Value()))
    {
      if stopped {
        return false;
      }
      stopped := true;
      cancelled := true;
      StopAndRelease(refreshTimer);
      StopAndRelease(persistTimer);
      return true;
    }

    /** SetInitialToken with no other goroutine in between; its two sections read the clock by turns. */
    method SetInitialToken(now: int, later: int, e: Entry)
      modifies this
      ensures Value() == StartWatchdog(Schedule(old(Value()).(current := Some(e)), now, e), later)
    {
      current := Some(e);
      ScheduleProactiveRefresh(now, e);
      StartPersistWatchdog(later);
    }
  }
}
