/**
 * The per-key login state machine of pkg/daemon/state.go.
 *
 * `Apply` gives each operation's new map and answer; the class updates its map in place and is
 * proved to compute it. Clock readings are positive nanoseconds and 0 is Go's zero time.
 */
module LoginStates {
  import opened Common

  const LOGIN_TTL: int := 300_000_000_000
  const MAX_ENTRIES: nat := 1024

  datatype AuthState = Valid | Refreshing | NeedsLogin | LoginInProgress

  datatype StateEntry = StateEntry(state: AuthState, loginStarted: int)

  type Entries = map<string, StateEntry>

  const IDLE := StateEntry(NeedsLogin, 0)

  datatype Op =
    | GetState(key: string)
    | SetState(key: string, state: AuthState)
    | BeginLogin(key: string, started: int)
    | CancelLogin(key: string)
    | CompleteLogin(key: string)
    | DeleteEntry(key: string)
    | EvictStale(order: seq<string>)

  datatype Answer = Reported(entry: StateEntry) | Began(ok: bool, loginStarted: int) | Silent

  predicate Expired(e: StateEntry, now: int) {
    e.state == LoginInProgress && e.loginStarted != 0 && now - e.loginStarted > LOGIN_TTL
  }

  /** What a key looks like to a reader: absent keys and lapsed logins need a login. */
  function Seen(m: Entries, k: string, now: int): StateEntry {
    if k !in m || Expired(m[k], now) then IDLE else m[k]
  }

  function Settle(m: Entries, k: string, now: int): Entries {
    if k in m && Expired(m[k], now) then m[k := IDLE] else m
  }

  /** What each of the two locked sections of GetState reads; between them the map may change. */
  function FirstRead(m: Entries, k: string): StateEntry { if k in m then m[k] else IDLE }

  function SecondRead(m: Entries, k: string, now: int, read: StateEntry): StateEntry {
    if k in m then Seen(m, k, now) else read
  }

  function DropIdle(m: Entries): Entries {
    map k | k in m && m[k].state != NeedsLogin :: m[k]
  }

  function DropLapsed(m: Entries, now: int): Entries {
    map k | k in m && !Expired(m[k], now) :: m[k]
  }

  predicate Derivable(e: StateEntry) { e.state == Valid || e.state == Refreshing }

  /** The third pass: derivable entries go one by one, in iteration order, until the map fits. */
  function DropDerivable(m: Entries, order: seq<string>): Entries
    decreases order
  {
    if order == [] then m
    else if order[0] in m && Derivable(m[order[0]]) then
      var left := m - {order[0]};
      if |left| <= MAX_ENTRIES then left else DropDerivable(left, order[1..])
    else DropDerivable(m, order[1..])
  }

  function Evict(m: Entries, now: int, order: seq<string>): Entries {
    if |m| <= MAX_ENTRIES then m else
      var busy := DropIdle(m);
      if |busy| <= MAX_ENTRIES then busy else
        var live := DropLapsed(busy, now);
        if |live| <= MAX_ENTRIES then live else DropDerivable(live, order)
  }

  function Apply(m: Entries, op: Op, now: int): (Entries, Answer) {
    match op
    case GetState(k) => (Settle(m, k, now), Reported(Seen(m, k, now)))
    case SetState(k, state) => (m[k := StateEntry(state, if state == LoginInProgress then now else 0)], Silent)
    case BeginLogin(k, started) =>
      if Seen(m, k, now).state == LoginInProgress then (m, Began(false, m[k].loginStarted))
      else (m[k := StateEntry(LoginInProgress, started)], Began(true, started))
    case CancelLogin(k) => (if k in m && m[k].state == LoginInProgress then m[k := IDLE] else m, Silent)
    case CompleteLogin(k) => (m[k := StateEntry(Valid, 0)], Silent)
    case DeleteEntry(k) => (m - {k}, Silent)
    case EvictStale(order) => (Evict(m, now, order), Silent)
  }

  // ------------------------------------------------------------------ The state manager object

  class StateManager {
    var entries: Entries

    constructor ()
      ensures entries == map[]
    {
      entries := map[];
    }

    /** The section of GetState under the read lock, and whether the second one is needed. */
    method ReadEntry(k: string, now: int) returns (entry: StateEntry, lapsed: bool)
      ensures entry == FirstRead(entries, k) && (lapsed <==> Expired(entry, now))
    {
      if k !in entries {
        return StateEntry(NeedsLogin, 0), false;
      }
      entry := entries[k];
      lapsed := entry.state == LoginInProgress && entry.loginStarted != 0 && now - entry.loginStarted > LOGIN_TTL;
    }

    /** The section of GetState under the write lock. */
    method SettleEntry(k: string, now: int, read: StateEntry) returns (entry: StateEntry)
      modifies this
      ensures entries == Settle(old(entries), k, now) && entry == SecondRead(old(entries), k, now, read)
    {
      entry := read;
      if k in entries {
        entry := entries[k];
        if entry.state == LoginInProgress && entry.loginStarted != 0 && now - entry.loginStarted > LOGIN_TTL {
          entry := StateEntry(NeedsLogin, 0);
          entries := entries[k := entry];
        }
      }
    }

    /** GetState with nothing between its two locked sections. */
    method Get(k: string, now: int) returns (state: AuthState, loginStarted: int)
      modifies this
      ensures (entries, Reported(StateEntry(state, loginStarted))) == Apply(old(entries), GetState(k), now)
    {
      var entry, lapsed := ReadEntry(k, now);
      if lapsed {
        entry := SettleEntry(k, now, entry);
      }
      state, loginStarted := entry.state, entry.loginStarted;
    }

    method Set(k: string, state: AuthState, now: int)
      modifies this
      ensures entries == Apply(old(entries), SetState(k, state), now).0
    {
      var entry := if k in entries then entries[k] else StateEntry(NeedsLogin, 0);
      entry := entry.(state := state);
      if state == LoginInProgress {
        entry := entry.(loginStarted := now);
      } else {
        entry := entry.(loginStarted := 0);
      }
      entries := entries[k := entry];
    }

    /** The clock is read once for the check and again for the start. */
    method Begin(k: string, now: int, started: int) returns (ok: bool, loginStarted: int)
      modifies this
      ensures (entries, Began(ok, loginStarted)) == Apply(old(entries), BeginLogin(k, started), now)
    {
      var entry := if k in entries then entries[k] else StateEntry(NeedsLogin, 0);
      if entry.state == LoginInProgress && entry.loginStarted != 0 && now - entry.loginStarted > LOGIN_TTL {
        entry := StateEntry(NeedsLogin, 0);
      }
      if entry.state == LoginInProgress {
        return false, entry.loginStarted;
      }
      entry := StateEntry(LoginInProgress, started);
      entries := entries[k := entry];
      return true, started;
    }

    method Cancel(k: string)
      modifies this
      ensures entries == Apply(old(entries), CancelLogin(k), 0).0
    {
      if k !in entries {
        return;
      }
      if entries[k].state == LoginInProgress {
        entries := entries[k := StateEntry(NeedsLogin, 0)];
      }
    }

    method Complete(k: string)
      modifies this
      ensures entries == Apply(old(entries), CompleteLogin(k), 0).0
    {
      entries := entries[k := StateEntry(Valid, 0)];
    }

    method Delete(k: string)
      modifies this
      ensures entries == Apply(old(entries), DeleteEntry(k), 0).0
    {
      entries := entries - {k};
    }

    method FirstPass(order: seq<string>)
      requires forall k <- entries :: k in order
      modifies this
      ensures entries == DropIdle(old(entries))
    {
      ghost var before := entries;
      for i := 0 to |order|
        invariant entries == map k | k in before && (before[k].state != NeedsLogin || k !in order[..i]) :: before[k]
      {
        if order[i] in entries && entries[order[i]].state == NeedsLogin {
          entries := entries - {order[i]};
        }
      }
    }

    method SecondPass(now: int, order: seq<string>)
      requires forall k <- entries :: k in order
      modifies this
      ensures entries == DropLapsed(old(entries), now)
    {
      ghost var before := entries;
      for i := 0 to |order|
        invariant entries == map k | k in before && (!Expired(before[k], now) || k !in order[..i]) :: before[k]
      {
        if order[i] in entries {
          var entry := entries[order[i]];
          if entry.state == LoginInProgress && entry.loginStarted != 0 && now - entry.loginStarted > LOGIN_TTL {
            entries := entries - {order[i]};
          }
        }
      }
    }

    method ThirdPass(order: seq<string>)
      modifies this
      ensures entries == DropDerivable(old(entries), order)
    {
      ghost var before := entries;
      for i := 0 to |order|
        invariant DropDerivable(entries, order[i..]) == DropDerivable(before, order)
      {
        assert order[i..][1..] == order[i + 1..];
        if order[i] in entries && (entries[order[i]].state == Valid || entries[order[i]].state == Refreshing) {
          entries := entries - {order[i]};
          if |entries| <= MAX_ENTRIES {
            return;
          }
        }
      }
    }

    /** Three deleting loops, each over its own iteration order of the keys. */
    method EvictStaleEntries(now: int, first: seq<string>, second: seq<string>, third: seq<string>)
      requires forall k <- entries :: k in first && k in second
      modifies this
      ensures entries == Apply(old(entries), EvictStale(third), now).0
    {
      if |entries| <= MAX_ENTRIES {
        return;
      }
      FirstPass(first);
      if |entries| <= MAX_ENTRIES {
        return;
      }
      SecondPass(now, second);
      if |entries| <= MAX_ENTRIES {
        return;
      }
      ThirdPass(third);
    }
  }

  // ------------------------------------------------------------------ Runs

  /** A login is in progress exactly when its start time is recorded. */
  ghost predicate WellFormed(m: Entries) {
    forall k <- m :: m[k].state == LoginInProgress <==> m[k].loginStarted != 0
  }

  datatype Step = Step(op: Op, now: int) {
    /** The step's last clock reading. */
    function End(): int { if op.BeginLogin? then op.started else now }
  }

  datatype Run = Run(maps: seq<Entries>, steps: seq<Step>)

  /** Any operations by any callers, in the order they take the lock, on a monotone clock. */
  ghost predicate IsRun(r: Run) {
    && |r.maps| == |r.steps| + 1
    && (forall i {:trigger r.steps[i]} | 0 <= i < |r.steps| ::
          0 < r.steps[i].now <= r.steps[i].End() && r.maps[i + 1] == Apply(r.maps[i], r.steps[i].op, r.steps[i].now).0)
    && (forall i, j | 0 <= i < j < |r.steps| :: r.steps[i].End() <= r.steps[j].now)
  }

  lemma {:induction false} DropDerivableFacts(m: Entries, order: seq<string>)
    ensures var left := DropDerivable(m, order);
            && left.Keys <= m.Keys
            && (forall k <- left :: left[k] == m[k])
            && (forall k <- m :: !Derivable(m[k]) ==> k in left)
            && (|m| > MAX_ENTRIES ==> |left| <= MAX_ENTRIES || forall k <- left :: Derivable(left[k]) ==> k !in order)
    decreases order
  {
    if order != [] {
      var k := order[0];
      if k in m && Derivable(m[k]) {
        RemoveCard(m, k);
        if |m - {k}| > MAX_ENTRIES { DropDerivableFacts(m - {k}, order[1..]); }
      } else {
        DropDerivableFacts(m, order[1..]);
      }
    }
  }

  /**
   * After an eviction the map fits, or every entry left is a login still in progress. What is left
   * is unchanged, and a login that has not lapsed is never evicted.
   */
  lemma EvictionBounded(m: Entries, now: int, order: seq<string>)
    requires WellFormed(m) && forall k <- m :: k in order
    ensures var left := Evict(m, now, order);
            && (|left| <= 1024 || forall k <- left :: left[k].state == LoginInProgress && !Expired(left[k], now))
            && left.Keys <= m.Keys
            && (forall k <- left :: left[k] == m[k])
            && (forall k <- m :: m[k].state == LoginInProgress && !Expired(m[k], now) ==> k in left)
  {
    var live := DropLapsed(DropIdle(m), now);
    LiveFacts(m, now);
    DropDerivableFacts(live, order);
    hide DropDerivable, DropLapsed, DropIdle, Expired;
  }

  /** The first two passes leave what is neither idle nor lapsed, unchanged. */
  lemma LiveFacts(m: Entries, now: int)
    ensures var busy := DropIdle(m); busy.Keys <= m.Keys && (forall k <- busy :: busy[k] == m[k])
    ensures forall k <- m :: m[k].state != NeedsLogin ==> k in DropIdle(m)
    ensures var live := DropLapsed(DropIdle(m), now); live.Keys <= m.Keys && (forall k <- live :: live[k] == m[k])
    ensures forall k <- m :: m[k].state != NeedsLogin && !Expired(m[k], now) <==> k in DropLapsed(DropIdle(m), now)
  {
  }

  lemma WellFormedStep(m: Entries, op: Op, now: int)
    requires WellFormed(m) && now > 0 && (op.BeginLogin? ==> op.started > 0)
    ensures WellFormed(Apply(m, op, now).0)
  {
    if op.EvictStale? {
      DropDerivableFacts(DropLapsed(DropIdle(m), now), op.order);
    }
  }

  lemma {:induction false} WellFormedRun(r: Run, i: nat)
    requires IsRun(r) && i < |r.maps| && WellFormed(r.maps[0])
    ensures WellFormed(r.maps[i])
  {
    if i > 0 {
      WellFormedRun(r, i - 1);
      WellFormedStep(r.maps[i - 1], r.steps[i - 1].op, r.steps[i - 1].now);
    }
  }

  /**
   * GetState with anything between its sections, which change the map from m to n: an answer after
   * the first section alone is right for m, and one after the second is right for n exactly when
   * the key is still there. Otherwise it reports the lapsed login.
   */
  lemma SplitGetExact(m: Entries, n: Entries, k: string, now: int, later: int)
    ensures var read := FirstRead(m, k);
            if !Expired(read, now) then read == Seen(m, k, now)
            else SecondRead(n, k, later, read) == Seen(n, k, later) <==> k in n
  {
  }

  /** Completing a login that is not in progress is a no-op exactly when the key is VALID already. */
  lemma CompleteIsNoOpIff(m: Entries, k: string, now: int)
    requires WellFormed(m) && (k in m ==> m[k].state != LoginInProgress)
    ensures Apply(m, CompleteLogin(k), now).0 == m <==> k in m && m[k].state == Valid
  {
    var after := Apply(m, CompleteLogin(k), now).0;
    assert k in after && after[k] == StateEntry(Valid, 0);
    if k in m && m[k].state == Valid {
      assert m[k] == StateEntry(Valid, 0);
    }
  }

  // ------------------------------------------------------------------ What each operation leaves to be read

  /** A key is reported as recorded, unless it is absent or its login is over five minutes old. */
  lemma ReportedExact(m: Entries, k: string, now: int)
    ensures var answer := Apply(m, GetState(k), now).1;
            && answer.Reported? && (k in m ==> Apply(m, GetState(k), now).0 == m[k := answer.entry])
            && (k !in m ==> Apply(m, GetState(k), now).0 == m)
            && (k !in m ==> answer.entry == StateEntry(NeedsLogin, 0))
            && (k in m && m[k].state == LoginInProgress && 0 != m[k].loginStarted < now - 300_000_000_000 ==>
                  answer.entry == StateEntry(NeedsLogin, 0))
            && (k in m && (m[k].state != LoginInProgress || now <= m[k].loginStarted + 300_000_000_000) ==>
                  answer.entry == m[k])
  {
  }

  /** The state a key is reported in right after an operation on it. */
  lemma ReadBack(m: Entries, k: string, state: AuthState, now: int, started: int)
    requires 0 < now <= started
    ensures var n := Apply(m, SetState(k, state), now).0;
            Seen(n, k, now) == StateEntry(state, if state == LoginInProgress then now else 0)
    ensures Seen(Apply(m, CompleteLogin(k), now).0, k, now) == StateEntry(Valid, 0)
    ensures Seen(Apply(m, DeleteEntry(k), now).0, k, now) == StateEntry(NeedsLogin, 0)
    ensures Seen(Apply(m, CancelLogin(k), now).0, k, now) ==
            if Seen(m, k, now).state == LoginInProgress then StateEntry(NeedsLogin, 0) else Seen(m, k, now)
    ensures var (n, answer) := Apply(m, BeginLogin(k, started), now);
            && answer.Began? && (answer.ok <==> Seen(m, k, now).state != LoginInProgress)
            && (answer.ok ==>
                  answer.loginStarted == started && Seen(n, k, started) == StateEntry(LoginInProgress, started))
            && (!answer.ok ==> n == m && answer.loginStarted == Seen(m, k, now).loginStarted)
  {
  }

  /** No operation but an eviction touches another key. */
  lemma OtherKeysKept(m: Entries, op: Op, now: int, other: string)
    requires !op.EvictStale? && op.key != other
    ensures var n := Apply(m, op, now).0;
            (other in n <==> other in m) && (other in m ==> n[other] == m[other])
  {
  }

  /** Cancelling a login frees the key for the next one, at once. */
  lemma CancelFrees(m: Entries, k: string, now: int, started: int, later: int, restarted: int)
    requires 0 < now <= started <= later <= restarted
    ensures var begun := Apply(m, BeginLogin(k, started), now).0;
            var cancelled := Apply(begun, CancelLogin(k), later).0;
            Apply(cancelled, BeginLogin(k, restarted), later).1 == Began(true, restarted)
  {
  }

  /**
   * Eviction goes no further than it must: a map that fits is left alone, lapsed logins go only
   * while more than 1024 entries are busy, and a live entry goes only while more than 1024 are live,
   * down to 1024 and no further.
   */
  lemma EvictionStaged(m: Entries, now: int, order: seq<string>)
    ensures var left, busy, live := Evict(m, now, order), DropIdle(m), DropLapsed(DropIdle(m), now);
            && (|m| <= 1024 ==> left == m)
            && (forall k <- m :: k !in left && m[k].state != NeedsLogin ==> |busy| > 1024)
            && (forall k <- m :: k !in left && m[k].state != NeedsLogin && !Expired(m[k], now) ==> |live| > 1024)
            && (|live| > 1024 ==> |left| >= 1024)
  {
    LiveFacts(m, now);
    DropDerivableFacts(DropLapsed(DropIdle(m), now), order);
    SubsetCard(DropIdle(m), m);
    SubsetCard(DropLapsed(DropIdle(m), now), DropIdle(m));
    if |DropLapsed(DropIdle(m), now)| > MAX_ENTRIES { StopsAtLimit(DropLapsed(DropIdle(m), now), order); }
    hide DropDerivable, DropLapsed, DropIdle, Expired;
  }

  lemma {:induction false} StopsAtLimit(m: Entries, order: seq<string>)
    requires |m| > MAX_ENTRIES
    ensures |DropDerivable(m, order)| >= MAX_ENTRIES
    decreases order
  {
    if order != [] {
      if order[0] in m && Derivable(m[order[0]]) {
        RemoveCard(m, order[0]);
        if |m - {order[0]}| > MAX_ENTRIES { StopsAtLimit(m - {order[0]}, order[1..]); }
      } else {
        StopsAtLimit(m, order[1..]);
      }
    }
  }

  // ------------------------------------------------------------------ The first two passes cannot be seen

  ghost predicate Alike(m: Entries, n: Entries, now: int) {
    forall k :: Seen(m, k, now) == Seen(n, k, now)
  }

  lemma AlikeLater(m: Entries, n: Entries, now: int, later: int)
    requires Alike(m, n, now) && now <= later
    ensures Alike(m, n, later)
  {
    forall k ensures Seen(m, k, later) == Seen(n, k, later) {
      assert Seen(m, k, now) == Seen(n, k, now);
    }
  }

  lemma AlikeStep(m: Entries, n: Entries, op: Op, now: int)
    requires Alike(m, n, now) && !op.EvictStale?
    ensures Apply(m, op, now).1 == Apply(n, op, now).1
    ensures Alike(Apply(m, op, now).0, Apply(n, op, now).0, now)
  {
    var m', n' := Apply(m, op, now).0, Apply(n, op, now).0;
    assert Seen(m, op.key, now) == Seen(n, op.key, now);
    forall k ensures Seen(m', k, now) == Seen(n', k, now) {
      assert Seen(m, k, now) == Seen(n, k, now);
    }
  }

  /** The answers a sequence of calls gets. */
  function Answers(m: Entries, steps: seq<Step>): seq<Answer>
    decreases steps
  {
    if steps == [] then [] else
      var (m', answer) := Apply(m, steps[0].op, steps[0].now);
      [answer] + Answers(m', steps[1..])
  }

  /** Calls other than evictions, none before `start`, on a monotone clock. */
  ghost predicate Calls(steps: seq<Step>, start: int) {
    && (forall i | 0 <= i < |steps| :: !steps[i].op.EvictStale? && start <= steps[i].now)
    && (forall i, j | 0 <= i < j < |steps| :: steps[i].now <= steps[j].now)
  }

  lemma {:induction false} AlikeAnswers(m: Entries, n: Entries, steps: seq<Step>, start: int)
    requires Alike(m, n, start) && Calls(steps, start)
    ensures Answers(m, steps) == Answers(n, steps)
    decreases steps
  {
    if steps != [] {
      var op, now := steps[0].op, steps[0].now;
      AlikeLater(m, n, start, now);
      AlikeStep(m, n, op, now);
      AlikeAnswers(Apply(m, op, now).0, Apply(n, op, now).0, steps[1..], now);
    }
  }

  /** Dropping idle entries and lapsed logins changes no later answer, for any calls on any keys. */
  lemma FirstTwoPassesInvisible(m: Entries, now: int, steps: seq<Step>)
    requires WellFormed(m) && Calls(steps, now)
    ensures Answers(DropIdle(m), steps) == Answers(m, steps)
    ensures Answers(DropLapsed(DropIdle(m), now), steps) == Answers(m, steps)
  {
    AlikeAnswers(m, DropIdle(m), steps, now);
    AlikeAnswers(m, DropLapsed(DropIdle(m), now), steps, now);
  }

  // ------------------------------------------------------------------ Logins on one key are spaced by the TTL

  predicate Resets(op: Op, k: string) {
    (op.SetState? || op.CancelLogin? || op.CompleteLogin? || op.DeleteEntry?) && op.key == k
  }

  ghost predicate Begins(r: Run, i: nat, k: string)
    requires IsRun(r) && i < |r.steps|
  {
    && r.steps[i].op.BeginLogin? && r.steps[i].op.key == k
    && Apply(r.maps[i], r.steps[i].op, r.steps[i].now).1 == Began(true, r.steps[i].End())
  }

  lemma LoginSurvives(m: Entries, op: Op, now: int, k: string, started: int)
    requires k in m && m[k] == StateEntry(LoginInProgress, started) && started > 0
    requires now - started <= LOGIN_TTL && !Resets(op, k)
    ensures var n := Apply(m, op, now).0; k in n && n[k] == m[k]
  {
    if op.EvictStale? {
      DropDerivableFacts(DropLapsed(DropIdle(m), now), op.order);
    }
  }

  /** A begun login stays put while its TTL runs, whatever else is called. */
  lemma {:induction false} LoginHeld(r: Run, i: nat, k: string, j: nat)
    requires IsRun(r) && i < j < |r.maps| && Begins(r, i, k)
    requires forall l | i < l < j :: !Resets(r.steps[l].op, k)
    requires r.steps[j - 1].now - r.steps[i].End() <= LOGIN_TTL
    ensures k in r.maps[j] && r.maps[j][k] == StateEntry(LoginInProgress, r.steps[i].End())
    decreases j
  {
    hide Apply;
    assert r.maps[j] == Apply(r.maps[j - 1], r.steps[j - 1].op, r.steps[j - 1].now).0;
    assert 0 < r.steps[i].now <= r.steps[i].End();
    if j == i + 1 {
      BegunEntry(r.maps[i], k, r.steps[i].End(), r.steps[i].now);
    } else {
      assert r.steps[j - 2].now <= r.steps[j - 2].End() <= r.steps[j - 1].now;
      LoginHeld(r, i, k, j - 1);
      LoginSurvives(r.maps[j - 1], r.steps[j - 1].op, r.steps[j - 1].now, k, r.steps[i].End());
    }
  }

  lemma BegunEntry(m: Entries, k: string, started: int, now: int)
    requires Apply(m, BeginLogin(k, started), now).1 == Began(true, started)
    ensures var n := Apply(m, BeginLogin(k, started), now).0; k in n && n[k] == StateEntry(LoginInProgress, started)
  {
  }

  /** Two successful begins of a key, with nothing resetting it in between, are over a TTL apart. */
  lemma LoginsSpaced(r: Run, i: nat, j: nat, k: string)
    requires IsRun(r) && i < j < |r.steps| && Begins(r, i, k) && Begins(r, j, k)
    requires forall l | i < l < j :: !Resets(r.steps[l].op, k)
    ensures r.steps[j].now - r.steps[i].End() > 300_000_000_000
  {
    if r.steps[j].now - r.steps[i].End() <= LOGIN_TTL {
      assert r.steps[j - 1].now <= r.steps[j - 1].End() <= r.steps[j].now;
      LoginHeld(r, i, k, j);
      assert false;
    }
  }

  /** A begin that is refused while a begun login holds returns the start of that login. */
  lemma RefusedBeginExact(r: Run, i: nat, j: nat, k: string)
    requires IsRun(r) && i < j < |r.steps| && Begins(r, i, k) && r.steps[j].op.BeginLogin? && r.steps[j].op.key == k
    requires forall l | i < l < j :: !Resets(r.steps[l].op, k)
    requires r.steps[j].now - r.steps[i].End() <= LOGIN_TTL
    ensures Apply(r.maps[j], r.steps[j].op, r.steps[j].now).1 == Began(false, r.steps[i].End())
  {
    assert r.steps[j - 1].now <= r.steps[j - 1].End() <= r.steps[j].now;
    LoginHeld(r, i, k, j);
  }
}
