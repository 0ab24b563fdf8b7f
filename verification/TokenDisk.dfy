/**
 * What the runs of one token manager leave on disk. Four kinds of goroutine write the token file: a
 * refresh after installing what it received, a login after installing its token, the persist
 * watchdog, and an eviction. Each loads or installs an entry first and writes it later, so writes
 * can overtake each other; a write itself is atomic.
 */
module TokenDisk {
  import opened Common
  import opened CacheKeys
  import opened TokenManagers
  import opened TokenRuns
  import opened RefreshTokens
  import ManagerCache

  function RecordOf(e: Entry): Record { ManagerCache.RecordOf(e) }

  /** The record a step writes, if it is a write. */
  function WriteOf(s: State, a: Action): Option<Record> {
    match a
    case FlightStep(_) =>
      var phase := if s.air.flight.Some? then s.air.flight.value.phase else Loading;
      if phase.Stored? then Some(RecordOf(phase.entry)) else None
    case CallbackStep(t, _) =>
      if t in s.callbacks && s.callbacks[t].WatchdogWriting? then Some(RecordOf(s.callbacks[t].entry)) else None
    case CallerStep(c) =>
      if c !in s.callers then None
      else
        (match s.callers[c]
         case LoginPersisting(e) => Some(RecordOf(e))
         case EvictWriting(idToken, refreshToken) => Some(Record(idToken, refreshToken))
         case _ => None)
    case _ => None
  }

  /** The token file after i steps, when the writes of the steps in `failed` fail. */
  function DiskAt(r: Run, start: Option<Record>, failed: set<nat>, i: nat): Option<Record>
    requires i <= |r.actions| < |r.states|
  {
    if i == 0 then start
    else
      var write := Write(r, failed, i - 1);
      if write.Some? then write else DiskAt(r, start, failed, i - 1)
  }

  function Write(r: Run, failed: set<nat>, i: nat): Option<Record>
    requires i < |r.actions| < |r.states|
  {
    if i in failed then None else WriteOf(r.states[i], r.actions[i])
  }

  // ------------------------------------------------------------------ What is on disk

  /** Step m writes the record, in the range from lo to hi. */
  ghost predicate Written(r: Run, failed: set<nat>, lo: nat, hi: nat, record: Record)
    requires hi <= |r.actions| < |r.states|
  {
    exists m: nat :: lo <= m < hi && Write(r, failed, m) == Some(record)
  }

  /** Every write of another record is followed by one of this record. */
  ghost predicate LastWord(r: Run, failed: set<nat>, i: nat, record: Record)
    requires i <= |r.actions| < |r.states|
  {
    forall w: nat | w < i && Write(r, failed, w).Some? && Write(r, failed, w) != Some(record) ::
      Written(r, failed, w + 1, i, record)
  }

  /** The file holds a record if and only if it was there or written, and no other has been written since. */
  lemma {:induction false} DiskExact(r: Run, start: Option<Record>, failed: set<nat>, i: nat, record: Record)
    requires i <= |r.actions| < |r.states|
    ensures DiskAt(r, start, failed, i) == Some(record) <==>
            && (start == Some(record) || Written(r, failed, 0, i, record))
            && LastWord(r, failed, i, record)
    decreases i
  {
    if i > 0 {
      DiskExact(r, start, failed, i - 1, record);
      hide Write;
      var write := Write(r, failed, i - 1);
      if write == Some(record) {
        forall lo: nat | lo < i ensures Written(r, failed, lo, i, record) {}
        assert Written(r, failed, 0, i, record);
      } else if write.Some? {
        assert !Written(r, failed, i, i, record);
      } else {
        SameRange(r, failed, i, record);
      }
    }
  }

  lemma SameRange(r: Run, failed: set<nat>, i: nat, record: Record)
    requires 0 < i <= |r.actions| < |r.states| && Write(r, failed, i - 1).None?
    ensures forall lo: nat :: Written(r, failed, lo, i, record) <==> Written(r, failed, lo, i - 1, record)
  {
    hide Write;
    forall lo: nat ensures Written(r, failed, lo, i, record) <==> Written(r, failed, lo, i - 1, record) {
      if Written(r, failed, lo, i, record) {
        var m: nat :| lo <= m < i && Write(r, failed, m) == Some(record);
        assert lo <= m < i - 1;
      }
      if Written(r, failed, lo, i - 1, record) {
        var m: nat :| lo <= m < i - 1 && Write(r, failed, m) == Some(record);
        assert lo <= m < i;
      }
    }
  }

  // ------------------------------------------------------------------ Installs and their own writes

  /** The entry a step makes the current one, if any. */
  function Installed(s: State, a: Action): Option<Entry> {
    if IsLogin(a) then Some(a.request.entry)
    else if a.FlightStep? && s.air.flight.Some? && s.air.flight.value.phase.Received? then
      Some(s.air.flight.value.phase.entry)
    else None
  }

  lemma InstallStep(s: State, a: Action)
    requires Enabled(s, a)
    ensures Next(s, a).core.current == if Installed(s, a).Some? then Installed(s, a) else s.core.current
  {
    if a.FlightStep? {
      FlightCurrent(s, a.reply);
      hide StepCore, StepAir;
    } else {
      GroundCurrent(s, a);
      hide Next;
    }
  }

  /** A login that has installed the entry and has not written it yet. */
  predicate InLogin(pc: Caller, e: Entry) { pc in {LoginScheduling(e), LoginWatchdog(e), LoginPersisting(e)} }

  /** Somebody has installed the entry and has not written it yet. */
  ghost predicate Owes(s: State, e: Entry) {
    || (s.air.flight.Some? && s.air.flight.value.phase == Stored(e))
    || exists c :: c in s.callers && InLogin(s.callers[c], e)
  }

  lemma InstallOwes(s: State, a: Action, e: Entry)
    requires Enabled(s, a) && Installed(s, a) == Some(e)
    ensures Owes(Next(s, a), e)
  {
    hide Schedule, StepCore;
    if IsLogin(a) { assert a.c in Next(s, a).callers; }
  }

  /** Whoever owes a write goes on owing it until it writes. */
  lemma OwesStep(s: State, a: Action, e: Entry)
    requires Enabled(s, a) && Owes(s, e)
    ensures Owes(Next(s, a), e) || WriteOf(s, a) == Some(RecordOf(e))
  {
    if s.air.flight.Some? && s.air.flight.value.phase == Stored(e) {
      if a.FlightStep? {
        hide StepCore;
      } else {
        GroundSteps(s, a);
        hide Next;
      }
    } else {
      var c :| c in s.callers && InLogin(s.callers[c], e);
      LoginStays(s, a, c, e);
      hide Next;
    }
  }

  lemma LoginStays(s: State, a: Action, c: nat, e: Entry)
    requires Enabled(s, a) && c in s.callers && InLogin(s.callers[c], e)
    ensures (c in Next(s, a).callers && InLogin(Next(s, a).callers[c], e))
            || WriteOf(s, a) == Some(RecordOf(e))
  {
    hide Schedule, Reschedule, StartWatchdog, RearmWatchdog, StopLocked, StepAir, StepCore, Board;
  }

  /** Step m makes the entry current, and no later step before i makes any entry current. */
  ghost predicate LastInstall(r: Run, m: nat, i: nat, e: Entry)
    requires i <= |r.actions| < |r.states|
  {
    && m < i && Installed(r.states[m], r.actions[m]) == Some(e)
    && forall k: nat | m < k < i :: Installed(r.states[k], r.actions[k]).None?
  }

  /** The current entry was installed by a last install. */
  lemma {:induction false} FindInstall(r: Run, i: nat) returns (m: nat)
    requires IsRun(r) && i < |r.states| && r.states[i].core.current.Some?
    ensures LastInstall(r, m, i, r.states[i].core.current.value)
    decreases i
  {
    hide Enabled, Next, Installed;
    NothingInstalled(r.states[0]);
    InstallStep(r.states[i - 1], r.actions[i - 1]);
    if Installed(r.states[i - 1], r.actions[i - 1]).Some? {
      m := i - 1;
    } else {
      m := FindInstall(r, i - 1);
    }
  }

  lemma NothingInstalled(s: State)
    requires s == Start(s.core.settings, s.now)
    ensures s.core.current.None?
  {
  }

  /** After its last install the current entry stays the same. */
  lemma {:induction false} CurrentSince(r: Run, m: nat, j: nat, i: nat, e: Entry)
    requires IsRun(r) && i < |r.states| && LastInstall(r, m, i, e) && m < j <= i
    ensures r.states[j].core.current == Some(e)
    decreases j
  {
    hide Enabled, Next, Installed;
    InstallStep(r.states[j - 1], r.actions[j - 1]);
    if j > m + 1 { CurrentSince(r, m, j - 1, i, e); }
  }

  /** An entry that was installed and is owed by nobody any more has been written. */
  lemma {:induction false} OwnWrite(r: Run, m: nat, i: nat, e: Entry) returns (p: nat)
    requires IsRun(r) && m < i < |r.states| && Installed(r.states[m], r.actions[m]) == Some(e) && !Owes(r.states[i], e)
    ensures m < p < i && WriteOf(r.states[p], r.actions[p]) == Some(RecordOf(e))
    decreases i
  {
    hide Enabled, Next, Installed, Owes, WriteOf;
    if i == m + 1 {
      InstallOwes(r.states[m], r.actions[m], e);
    }
    if Owes(r.states[i - 1], e) {
      OwesStep(r.states[i - 1], r.actions[i - 1], e);
      p := i - 1;
    } else {
      p := OwnWrite(r, m, i - 1, e);
    }
  }

  // ------------------------------------------------------------------ How long a writer holds what it loaded

  /** The goroutines that write. */
  datatype Thread = TheFlight | OfCallback(t: nat) | OfCaller(c: nat)

  /** What a writer has loaded or installed and not written yet; an eviction loads in two halves. */
  datatype Loaded = Half(idToken: string) | Full(record: Record) {
    function Id(): string { if Half? then idToken else record.idToken }
  }

  function LoadedBy(s: State, h: Thread): Option<Loaded> {
    match h
    case TheFlight =>
      var phase := if s.air.flight.Some? then s.air.flight.value.phase else Loading;
      if phase.Stored? then Some(Full(RecordOf(phase.entry))) else None
    case OfCallback(t) =>
      if t in s.callbacks && s.callbacks[t].WatchdogWriting? then Some(Full(RecordOf(s.callbacks[t].entry))) else None
    case OfCaller(c) =>
      if c !in s.callers then None
      else
        (match s.callers[c]
         case LoginScheduling(e) => Some(Full(RecordOf(e)))
         case LoginWatchdog(e) => Some(Full(RecordOf(e)))
         case LoginPersisting(e) => Some(Full(RecordOf(e)))
         case Evicting(idToken) => Some(Half(idToken))
         case EvictWriting(idToken, refreshToken) => Some(Full(Record(idToken, refreshToken)))
         case _ => None)
  }

  /** The goroutine whose step this is. */
  function ThreadOf(a: Action): Thread {
    match a
    case CallbackStep(t, _) => OfCallback(t)
    case CallerStep(c) => OfCaller(c)
    case _ => TheFlight
  }

  lemma WritesLoaded(s: State, a: Action)
    requires WriteOf(s, a).Some?
    ensures LoadedBy(s, ThreadOf(a)) == Some(Full(WriteOf(s, a).value))
  {
  }

  /** A goroutine comes to hold the current entry, or the other half of it, or holds what it held. */
  ghost predicate LoadsCurrent(before: Option<Loaded>, after: Loaded, current: Option<Entry>) {
    || before == Some(after)
    || (before.None? && current.Some? && after == Full(RecordOf(current.value)))
    || (before.None? && current.Some? && after == Half(current.value.idToken))
    || (before.Some? && before.value.Half? && after == Full(Record(before.value.idToken, Token(current))))
  }

  lemma CallerLoads(s: State, a: Action, c: nat)
    requires Enabled(s, a) && LoadedBy(Next(s, a), OfCaller(c)).Some?
    ensures LoadsCurrent(LoadedBy(s, OfCaller(c)), LoadedBy(Next(s, a), OfCaller(c)).value, Next(s, a).core.current)
  {
    if a.CallerStep? && a.c == c {
      GroundCurrent(s, a);
      hide Schedule, StartWatchdog, StopLocked;
    } else if a.Call? && a.c == c {
      hide StopLocked, Board;
    } else {
      OtherCallers(s, a, c);
      hide Next;
    }
  }

  lemma OtherCallers(s: State, a: Action, c: nat)
    requires Enabled(s, a) && !((a.CallerStep? || a.Call?) && a.c == c)
    ensures c in Next(s, a).callers <==> c in s.callers
    ensures c in s.callers ==> Next(s, a).callers[c] == s.callers[c]
  {
    hide Schedule, Reschedule, StartWatchdog, RearmWatchdog, StopLocked, StepAir, StepCore, Board, AfterOutcome,
      AfterLoad;
  }

  lemma CallbackLoads(s: State, a: Action, t: nat)
    requires Enabled(s, a) && LoadedBy(Next(s, a), OfCallback(t)).Some?
    ensures LoadsCurrent(LoadedBy(s, OfCallback(t)), LoadedBy(Next(s, a), OfCallback(t)).value, Next(s, a).core.current)
  {
    if a.CallbackStep? { GroundCurrent(s, a); }
    hide Schedule, Reschedule, StartWatchdog, RearmWatchdog, StopLocked, StepAir, StepCore, Board;
  }

  lemma FlightLoads(s: State, a: Action)
    requires Enabled(s, a) && LoadedBy(Next(s, a), TheFlight).Some?
    ensures LoadsCurrent(LoadedBy(s, TheFlight), LoadedBy(Next(s, a), TheFlight).value, Next(s, a).core.current)
  {
    if a.FlightStep? {
      FlightCurrent(s, a.reply);
      hide StepCore;
    } else {
      GroundSteps(s, a);
      hide Next;
    }
  }

  /**
   * What a goroutine holds was current when it came to hold it: the ID token at state x, since when
   * it has been holding, and the refresh token at state y.
   */
  lemma {:induction false} HeldSince(r: Run, j: nat, h: Thread) returns (x: nat, y: nat)
    requires IsRun(r) && j < |r.states| && LoadedBy(r.states[j], h).Some?
    ensures x <= y <= j && forall k: nat | x <= k <= j :: LoadedBy(r.states[k], h).Some?
    ensures r.states[x].core.current.Some?
            && r.states[x].core.current.value.idToken == LoadedBy(r.states[j], h).value.Id()
    ensures LoadedBy(r.states[j], h).value.Full? ==>
              LoadedBy(r.states[j], h).value.record.refreshToken == Token(r.states[y].core.current)
    decreases j
  {
    hide Enabled, Next, LoadedBy;
    NobodyHolds(r.states[0], h);
    var s, a := r.states[j - 1], r.actions[j - 1];
    match h {
      case TheFlight => FlightLoads(s, a);
      case OfCallback(t) => CallbackLoads(s, a, t);
      case OfCaller(c) => CallerLoads(s, a, c);
    }
    if LoadedBy(s, h).None? {
      x, y := j, j;
    } else {
      x, y := HeldSince(r, j - 1, h);
      if LoadedBy(s, h) != LoadedBy(r.states[j], h) { y := j; }
    }
  }

  lemma NobodyHolds(s: State, h: Thread)
    requires s == Start(s.core.settings, s.now)
    ensures LoadedBy(s, h).None?
  {
  }

  // ------------------------------------------------------------------ When the disk agrees with memory

  /** Whoever has installed an entry has written it. */
  ghost predicate Settled(s: State) {
    forall e :: !Owes(s, e)
  }

  /**
   * Once every install has been written, the disk agrees with the current entry if and only if
   * every write of another record has been followed by one of the current record.
   */
  lemma DiskAgreesIff(r: Run, start: Option<Record>, i: nat)
    requires IsRun(r) && i < |r.states| && r.states[i].core.current.Some? && Settled(r.states[i])
    ensures var record := RecordOf(r.states[i].core.current.value);
            DiskAt(r, start, {}, i) == Some(record) <==> LastWord(r, {}, i, record)
  {
    hide Enabled, Next, Owes, WriteOf;
    var e := r.states[i].core.current.value;
    var m := FindInstall(r, i);
    var p := OwnWrite(r, m, i, e);
    assert Write(r, {}, p) == Some(RecordOf(e));
    assert Written(r, {}, 0, i, RecordOf(e));
    DiskExact(r, start, {}, i, RecordOf(e));
  }

  /** Step w is the last write. */
  lemma {:induction false} FindWrite(r: Run, start: Option<Record>, i: nat, p: nat) returns (w: nat)
    requires p < i <= |r.actions| < |r.states| && Write(r, {}, p).Some?
    ensures p <= w < i && Write(r, {}, w).Some? && DiskAt(r, start, {}, i) == Write(r, {}, w)
    ensures forall k: nat | w < k < i :: Write(r, {}, k).None?
    decreases i
  {
    hide Write;
    if Write(r, {}, i - 1).Some? {
      w := i - 1;
    } else {
      w := FindWrite(r, start, i - 1, p);
    }
  }

  /**
   * The only way for a settled disk to disagree: a goroutine that came to hold its entry before the
   * current one was installed, at m, has held it until after the write of the current one, at p,
   * and has written it last, at w.
   */
  lemma StaleWriteOverlaps(r: Run, start: Option<Record>, i: nat) returns (x: nat, m: nat, p: nat, w: nat)
    requires IsRun(r) && i < |r.states| && r.states[i].core.current.Some? && Settled(r.states[i])
    requires DiskAt(r, start, {}, i) != Some(RecordOf(r.states[i].core.current.value))
    ensures x <= m < p < w < i && LastInstall(r, m, i, r.states[i].core.current.value)
    ensures WriteOf(r.states[p], r.actions[p]) == Some(RecordOf(r.states[i].core.current.value))
    ensures WriteOf(r.states[w], r.actions[w]) == DiskAt(r, start, {}, i)
    ensures forall k: nat | w < k < i :: WriteOf(r.states[k], r.actions[k]).None?
    ensures forall k: nat | x <= k <= w :: LoadedBy(r.states[k], ThreadOf(r.actions[w])).Some?
  {
    hide Enabled, Next, Owes, WriteOf, LoadedBy, Installed;
    var e := r.states[i].core.current.value;
    m := FindInstall(r, i);
    p := OwnWrite(r, m, i, e);
    w := FindWrite(r, start, i, p);
    WritesLoaded(r.states[w], r.actions[w]);
    var y;
    x, y := HeldSince(r, w, ThreadOf(r.actions[w]));
    forall k: nat | w < k < i ensures WriteOf(r.states[k], r.actions[k]).None? {
      assert Write(r, {}, k).None?;
    }
    if x > m {
      CurrentSince(r, m, x, i, e);
      CurrentSince(r, m, y, i, e);
    }
  }

  // ------------------------------------------------------------------ A spent token can come back

  function Last(r: Run): State
    requires r.states != []
  {
    r.states[|r.states| - 1]
  }

  ghost predicate Extends(r: Run, longer: Run) {
    && |r.actions| < |r.states| <= |longer.states| && |r.actions| <= |longer.actions| < |longer.states|
    && longer.actions[..|r.actions|] == r.actions && longer.states[..|r.states|] == r.states
  }

  /** One more step, from a run with a known disk. */
  lemma Extend(r: Run, a: Action, next: State, disk: Option<Record>) returns (longer: Run)
    requires IsRun(r) && Enabled(Last(r), a) && Next(Last(r), a) == next && DiskAt(r, None, {}, |r.actions|) == disk
    ensures IsRun(longer) && Last(longer) == next && |longer.actions| == |r.actions| + 1
    ensures DiskAt(longer, None, {}, |longer.actions|) ==
            if WriteOf(Last(r), a).Some? then WriteOf(Last(r), a) else disk
    ensures Extends(r, longer) && longer.actions[|r.actions|] == a && longer.states[|r.actions|] == Last(r)
  {
    longer := Run(r.states + [next], r.actions + [a]);
    hide Next, Enabled, Start, WriteOf;
    forall i | 0 <= i < |longer.actions|
      ensures Enabled(longer.states[i], longer.actions[i])
              && longer.states[i + 1] == Next(longer.states[i], longer.actions[i])
    {
      if i < |r.actions| { assert longer.actions[i] == r.actions[i]; }
    }
    SameDisk(r, longer, |r.actions|);
    assert longer.states[|r.actions|] == Last(r);
  }

  lemma {:induction false} SameDisk(r: Run, longer: Run, i: nat)
    requires i <= |r.actions| && Extends(r, longer)
    ensures DiskAt(longer, None, {}, i) == DiskAt(r, None, {}, i)
    decreases i
  {
    hide WriteOf;
    if i > 0 {
      assert longer.actions[i - 1] == longer.actions[..|r.actions|][i - 1];
      assert longer.states[i - 1] == longer.states[..|r.states|][i - 1];
      SameDisk(r, longer, i - 1);
    }
  }

  lemma StepKept(r: Run, longer: Run, k: nat)
    requires Extends(r, longer) && k < |r.actions|
    ensures longer.actions[k] == r.actions[k] && longer.states[k] == r.states[k]
  {
    assert longer.actions[k] == longer.actions[..|r.actions|][k] && longer.states[k] == longer.states[..|r.states|][k];
  }

  /** A manager with a token and a watchdog timer, and nobody but a watchdog callback at work. */
  function Scene(settings: Settings, e: Entry, pending: map<nat, Timer>, callbacks: map<nat, Callback>, now: int)
    : State
  {
    State(Fresh(settings).(current := Some(e), persistTimer := Some(0), wg := 1, pending := pending, nextTimer := 1),
          callbacks, map[], Air(None, map[], 0), now, false)
  }

  /** A login with a token that has expired, installed and persisted. */
  lemma LoginPersists(settings: Settings, now: int, e: Entry) returns (r: Run)
    requires e.expiry <= now
    ensures IsRun(r) && DiskAt(r, None, {}, |r.actions|) == Some(RecordOf(e))
    ensures Last(r) == Scene(settings, e, map[0 := Timer(now + Normalize(settings).persistInterval, Watchdog)], map[],
                             now)
  {
    hide Extends;
    var s0 := Start(settings, now);
    r := Run([s0], []);
    var core := s0.core.(current := Some(e));
    var s1 := s0.(core := core, callers := map[0 := LoginScheduling(e)]);
    r := Extend(r, Call(0, LoginRequest(e)), s1, None);
    var s2 := s1.(callers := map[0 := LoginWatchdog(e)]);
    assert s1.callers[0 := LoginWatchdog(e)] == s2.callers;
    r := Extend(r, CallerStep(0), s2, None);
    var last := Scene(settings, e, map[0 := Timer(now + Normalize(settings).persistInterval, Watchdog)], map[], now);
    var s3 := s2.(core := last.core, callers := map[0 := LoginPersisting(e)]);
    assert s2.callers[0 := LoginPersisting(e)] == s3.callers;
    r := Extend(r, CallerStep(0), s3, None);
    assert s3.callers - {0} == map[];
    r := Extend(r, CallerStep(0), last, None);
  }

  /** The watchdog fires and loads the entry. */
  lemma WatchdogLoads(r: Run, settings: Settings, now: int, e: Entry) returns (longer: Run)
    requires IsRun(r) && DiskAt(r, None, {}, |r.actions|) == Some(RecordOf(e)) && e.refreshToken != ""
    requires Last(r) == Scene(settings, e, map[0 := Timer(now + Normalize(settings).persistInterval, Watchdog)],
                              map[], now)
    ensures IsRun(longer) && DiskAt(longer, None, {}, |longer.actions|) == Some(RecordOf(e))
    ensures Last(longer) == Scene(settings, e, map[], map[0 := WatchdogWriting(e)],
                                  now + Normalize(settings).persistInterval)
  {
    hide Extends;
    var later := now + Normalize(settings).persistInterval;
    var timer := Timer(later, Watchdog);
    longer := Extend(r, Tick(Normalize(settings).persistInterval), Scene(settings, e, map[0 := timer], map[], later),
                     Some(RecordOf(e)));
    assert map[0 := timer] - {0} == map[];
    longer := Extend(longer, Fire(0), Scene(settings, e, map[], map[0 := WatchdogFired], later), Some(RecordOf(e)));
    assert map[0 := WatchdogFired][0 := WatchdogWriting(e)] == map[0 := WatchdogWriting(e)];
    longer := Extend(longer, CallbackStep(0, 0), Scene(settings, e, map[], map[0 := WatchdogWriting(e)], later),
                     Some(RecordOf(e)));
  }

  /** A request refreshes: the provider takes the token, and the new one is installed and persisted. */
  lemma RefreshPersists(r: Run, settings: Settings, now: int, e: Entry, reply: Reply) returns (longer: Run, k: nat)
    requires IsRun(r) && DiskAt(r, None, {}, |r.actions|) == Some(RecordOf(e)) && e.refreshToken != ""
    requires Last(r) == Scene(settings, e, map[], map[0 := WatchdogWriting(e)], now) && reply.Granted?
    ensures var newer := Entry(reply.idToken, Preserve(e.refreshToken, reply.refreshToken), reply.expiry);
            && IsRun(longer) && DiskAt(longer, None, {}, |longer.actions|) == Some(RecordOf(newer))
            && Last(longer) == Scene(settings, newer, map[], map[0 := WatchdogWriting(e)], now).(
                                 callers := map[1 := Joined(0)],
                                 air := Air(Some(Flight(0, Persisted(newer))), map[], 1))
    ensures k < |longer.actions| && IsPresenting(longer.states[k], e.refreshToken)
            && longer.actions[k] == FlightStep(reply)
  {
    var newer := Entry(reply.idToken, Preserve(e.refreshToken, reply.refreshToken), reply.expiry);
    var disk := Some(RecordOf(e));
    var s0 := Last(r);
    var s1 := s0.(callers := map[1 := Joined(0)], air := Air(Some(Flight(0, Loading)), map[], 1));
    var r1 := Extend(r, Call(1, RefreshRequest), s1, disk);
    var s2 := s1.(air := Air(Some(Flight(0, Presenting(e.refreshToken))), map[], 1));
    var r2 := Extend(r1, FlightStep(reply), s2, disk);
    var s3 := s2.(air := Air(Some(Flight(0, Received(newer))), map[], 1));
    var r3 := Extend(r2, FlightStep(reply), s3, disk);
    k := |r2.actions|;
    var s4 := s3.(core := s3.core.(current := Some(newer)), air := Air(Some(Flight(0, Stored(newer))), map[], 1));
    var r4 := Extend(r3, FlightStep(reply), s4, disk);
    var s5 := s4.(air := Air(Some(Flight(0, Persisted(newer))), map[], 1));
    longer := Extend(r4, FlightStep(reply), s5, disk);
    StepKept(r3, r4, k);
    StepKept(r4, longer, k);
  }

  /**
   * For every entry with a refresh token, and every rotating answer to it, there is a run that ends
   * settled, with the new entry current, and with the spent refresh token back on disk: the
   * watchdog loaded the old entry before the refresh and wrote it afterwards.
   */
  lemma SpentTokenReturns(settings: Settings, now: int, e: Entry, reply: Reply) returns (r: Run, k: nat)
    requires e.refreshToken != "" && e.expiry <= now && reply.Granted? && reply.refreshToken !in {"", e.refreshToken}
    ensures IsRun(r) && Settled(Last(r)) && DiskAt(r, None, {}, |r.actions|) == Some(RecordOf(e))
    ensures Last(r).core.current == Some(Entry(reply.idToken, reply.refreshToken, reply.expiry))
    ensures k < |r.actions| && IsPresenting(r.states[k], e.refreshToken) && Succeeds(r.states[k], r.actions[k])
  {
    var newer := Entry(reply.idToken, reply.refreshToken, reply.expiry);
    var later := now + Normalize(settings).persistInterval;
    var persisted := LoginPersists(settings, now, e);
    var loaded := WatchdogLoads(persisted, settings, now, e);
    var refreshed, step := RefreshPersists(loaded, settings, later, e, reply);
    k := step;
    var s := Last(refreshed);
    var end := s.(callbacks := map[0 := WatchdogRearming]);
    assert s.callbacks[0 := WatchdogRearming] == end.callbacks;
    r := Extend(refreshed, CallbackStep(0, 0), end, Some(RecordOf(newer)));
    StepKept(refreshed, r, k);
  }
}
