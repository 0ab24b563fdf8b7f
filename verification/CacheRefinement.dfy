/**
 * The bounded cache with its disk behaves as an unbounded map from keys to tokens.
 */
module CacheRefinement {
  import opened Common
  import opened LoginStates
  import opened TokenManagers
  import opened ManagerCache
  import opened CacheKeys

  /** One atomic handler or background action; `victim` is the pick of the eviction scan, if it runs. */
  datatype Request =
    | Store(key: string, record: Record, now: int, victim: string)
    | Get(key: string, force: bool, now: int, grant: Grant, victim: string)
    | BackgroundRefresh(key: string, grant: Grant)
    | Watchdog(key: string)
    | CheckKey(key: string, now: int)
    | Begin(key: string, now: int, started: int)
    | Cancel(key: string)
    | EvictStates(now: int, order: seq<string>)

  datatype Answer = Replied(reply: Reply) | Checked(status: Option<CheckReply>) | Quiet

  function Next(s: Server, op: Request, jwt: Jwt): (Server, Answer) {
    match op
    case Store(k, r, now, v) => var (t, reply) := StoreToken(s, k, r, now, jwt, v); (t, Replied(reply))
    case Get(k, force, now, g, v) => var (t, reply) := GetToken(s, k, force, now, g, jwt, v); (t, Replied(reply))
    case BackgroundRefresh(k, g) => (if k in s.managers then Refresh(s, k, g).0 else s, Quiet)
    case Watchdog(k) => (WatchdogWrite(s, k), Quiet)
    case CheckKey(k, now) => var (t, status) := Check(s, k, now, jwt); (t, Checked(status))
    case Begin(k, now, started) => var (t, reply) := BeginLoginOn(s, k, now, started); (t, Replied(reply))
    case Cancel(k) => var (t, reply) := CancelLoginOn(s, k); (t, Replied(reply))
    case EvictStates(now, order) => (s.(states := Evict(s.states, now, order)), Quiet)
  }

  /** The server's own records hold an ID token with an expiry; the refresh token may be empty. */
  predicate Sound(r: Record, jwt: Jwt) {
    r.idToken != "" && jwt(r.idToken).Some?
  }

  /** The victim of an eviction is a least recently used manager. */
  predicate Picks(s: Server, op: Request) {
    op.Store? || op.Get? ==> MayEvict(s, op.victim)
  }

  /** Refreshers return verified tokens, so with an expiry. */
  predicate Allowed(s: Server, op: Request, jwt: Jwt) {
    Picks(s, op) && (op.Get? || op.BackgroundRefresh? ==> GrantSound(op.grant, jwt))
  }

  predicate GrantSound(g: Grant, jwt: Jwt) {
    g.Granted? ==> g.idToken != "" && jwt(g.idToken) == Some(g.expiry)
  }

  ghost predicate EntrySound(e: Entry, jwt: Jwt) {
    Sound(RecordOf(e), jwt) && jwt(e.idToken) == Some(e.expiry)
  }

  ghost predicate Stocked(managers: map<string, Manager>, disk: map<string, Record>, jwt: Jwt) {
    && (forall k <- managers :: EntrySound(managers[k].entry, jwt))
    && (forall k <- disk :: Sound(disk[k], jwt))
  }

  ghost predicate Inv(s: Server, jwt: Jwt) {
    CountExact(s) && Stocked(s.managers, s.disk, jwt)
  }

  /** What is held for every key, wherever it is held: memory wins over disk. */
  function Overlay(managers: map<string, Manager>, disk: map<string, Record>): map<string, Record> {
    disk + (map k | k in managers :: RecordOf(managers[k].entry))
  }

  function Tokens(s: Server): map<string, Record> { Overlay(s.managers, s.disk) }

  /** Keys that are held on disk alone and without a refresh token: those are not reloaded. */
  predicate Lost(s: Server, k: string) {
    k !in s.managers && k in s.disk && s.disk[k].refreshToken == ""
  }

  // ------------------------------------------------------------------ The unbounded map

  function Renewed(r: Record, g: Grant): Record
    requires g.Granted?
  {
    Record(g.idToken, TokenRuns.Preserve(r.refreshToken, g.refreshToken))
  }

  predicate Acceptable(key: string, r: Record, jwt: Jwt) {
    ValidCacheKey(key) && r.idToken != "" && |r.idToken| <= 1_048_576 && |r.refreshToken| <= 1_048_576
    && jwt(r.idToken).Some?
  }

  /** What a get yields from the map alone: the token, a refresh, or the need to log in. */
  ghost predicate SpecGet(t: map<string, Record>, resident: bool, op: Request, jwt: Jwt, reply: Reply,
                          t': map<string, Record>)
    requires op.Get?
  {
    var k, g := op.key, op.grant;
    if !ValidCacheKey(k) then reply == BadRequest && t' == t
    else if reply.LoginBusy? then t' == t
    else if k !in t || (!resident && t[k].refreshToken == "") then reply == NeedsAuth && t' == t
    else if !op.force && jwt(t[k].idToken).Some? && op.now <= jwt(t[k].idToken).value then
      reply == Token(t[k].idToken, jwt(t[k].idToken).value) && t' == t
    else if t[k].refreshToken == "" then reply == RefreshError(RefreshFailed) && t' == t
    else if g.Granted? then reply == Token(g.idToken, g.expiry) && t' == t[k := Renewed(t[k], g)]
    else reply == RefreshError(CodeOf(g.cause)) && t' == t
  }

  ghost predicate SpecRefresh(t: map<string, Record>, resident: bool, k: string, g: Grant, t': map<string, Record>) {
    t' == if resident && k in t && t[k].refreshToken != "" && g.Granted? then t[k := Renewed(t[k], g)] else t
  }

  ghost predicate SpecStep(t: map<string, Record>, resident: bool, op: Request, jwt: Jwt, answer: Answer,
                           t': map<string, Record>)
  {
    match op
    case Store(k, r, _, _) =>
      if Acceptable(k, r, jwt) then answer == Replied(Token(r.idToken, jwt(r.idToken).value)) && t' == t[k := r]
      else answer == Replied(BadRequest) && t' == t
    case Get(_, _, _, _, _) => answer.Replied? && SpecGet(t, resident, op, jwt, answer.reply, t')
    case BackgroundRefresh(k, g) => answer == Quiet && SpecRefresh(t, resident, k, g, t')
    case CheckKey(_, _) => answer.Checked? && t' == t
    case Watchdog(_) => answer == Quiet && t' == t
    case EvictStates(_, _) => answer == Quiet && t' == t
    case Begin(k, _, _) =>
      && t' == t && answer.Replied? && (answer.reply.LoginBegun? || answer.reply.LoginBusy? || answer.reply.BadRequest?)
      && (answer.reply.BadRequest? <==> !ValidCacheKey(k))
    case Cancel(k) => answer == Replied(if ValidCacheKey(k) then LoginCancelled else BadRequest) && t' == t
  }

  /** A check is ready exactly for a key whose token has not expired and, in memory, whose state is VALID. */
  ghost predicate CheckReady(s: Server, key: string, now: int, jwt: Jwt) {
    && ValidCacheKey(key) && key in Tokens(s)
    && jwt(Tokens(s)[key].idToken).Some? && now <= jwt(Tokens(s)[key].idToken).value
    && (key in s.managers ==> Seen(s.states, key, now).state == Valid)
  }

  ghost predicate CheckExact(s: Server, key: string, now: int, jwt: Jwt, status: Option<CheckReply>) {
    && (status.None? <==> key != "" && !ValidCacheKey(key))
    && (status.Some? ==>
          && (status.value.ready <==> CheckReady(s, key, now, jwt))
          && (status.value.ready ==> status.value.expiry == jwt(Tokens(s)[key].idToken)
                                     && status.value.refreshTokenValid == Some(Tokens(s)[key].refreshToken != "")))
  }

  ghost predicate Busy(s: Server, key: string, now: int) {
    ValidCacheKey(key) && Seen(s.states, key, now).state == LoginInProgress
  }

  /** Login states decide which gets and begins are put off, and whether a check is ready. */
  ghost predicate StatesExact(s: Server, op: Request, answer: Answer, jwt: Jwt) {
    && (op.Get? || op.Begin? ==> (answer.Replied? && answer.reply.LoginBusy? <==> Busy(s, op.key, op.now)))
    && (op.CheckKey? ==> answer.Checked? && CheckExact(s, op.key, op.now, jwt, answer.status))
  }

  // ------------------------------------------------------------------ Eviction and admission change no key's tokens

  lemma OverlayAt(managers: map<string, Manager>, disk: map<string, Record>, k: string)
    ensures k in Overlay(managers, disk) <==> k in managers || k in disk
    ensures k in managers ==> Overlay(managers, disk)[k] == RecordOf(managers[k].entry)
    ensures k in disk && k !in managers ==> Overlay(managers, disk)[k] == disk[k]
  {
  }

  /** Writing a manager back before dropping it loses nothing. */
  lemma WriteBackSilent(managers: map<string, Manager>, disk: map<string, Record>, k: string, jwt: Jwt)
    requires k in managers && Stocked(managers, disk, jwt)
    ensures Overlay(managers - {k}, disk[k := RecordOf(managers[k].entry)]) == Overlay(managers, disk)
    ensures Stocked(managers - {k}, disk[k := RecordOf(managers[k].entry)], jwt)
  {
  }

  /** A manager that repeats what is already held for its key adds nothing. */
  lemma RepeatSilent(managers: map<string, Manager>, disk: map<string, Record>, k: string, m: Manager, jwt: Jwt)
    requires Stocked(managers, disk, jwt) && EntrySound(m.entry, jwt)
    requires k in Overlay(managers, disk) && Overlay(managers, disk)[k] == RecordOf(m.entry)
    ensures Overlay(managers[k := m], disk) == Overlay(managers, disk) && Stocked(managers[k := m], disk, jwt)
  {
  }

  lemma PutRefines(managers: map<string, Manager>, disk: map<string, Record>, k: string, m: Manager, jwt: Jwt)
    requires Stocked(managers, disk, jwt) && EntrySound(m.entry, jwt)
    ensures Overlay(managers[k := m], disk[k := RecordOf(m.entry)]) == Overlay(managers, disk)[k := RecordOf(m.entry)]
    ensures Stocked(managers[k := m], disk[k := RecordOf(m.entry)], jwt)
  {
    PutOverlay(managers, disk, k, m);
    hide Overlay;
  }

  lemma PutOverlay(managers: map<string, Manager>, disk: map<string, Record>, k: string, m: Manager)
    ensures Overlay(managers[k := m], disk[k := RecordOf(m.entry)]) == Overlay(managers, disk)[k := RecordOf(m.entry)]
  {
  }

  lemma MakeRoomSilent(s: Server, victim: string, jwt: Jwt)
    requires Inv(s, jwt) && MayEvict(s, victim)
    ensures var room := MakeRoom(s, victim);
            room.Some? && Inv(room.value, jwt) && room.value.count < MAX_MANAGERS && Tokens(room.value) == Tokens(s)
    ensures MakeRoom(s, victim).value.managers.Keys <= s.managers.Keys
  {
    hide Overlay, Stocked, Apply;
    MakeRoomExact(s, victim);
    if s.count >= MAX_MANAGERS {
      WriteBackSilent(s.managers, s.disk, victim, jwt);
    }
  }

  lemma GetOrCreateSilent(s: Server, key: string, now: int, jwt: Jwt, victim: string)
    requires Inv(s, jwt) && MayEvict(s, victim)
    ensures var (t, ok) := GetOrCreate(s, key, now, jwt, victim);
            && Inv(t, jwt) && Tokens(t) == Tokens(s) && ok == (key in Tokens(s) && !Lost(s, key))
            && (ok ==> key in t.managers && RecordOf(t.managers[key].entry) == Tokens(s)[key])
  {
    hide Overlay, Stocked, Apply, LoadedEntry, Oldest, EntrySound;
    OverlayAt(s.managers, s.disk, key);
    if key !in s.managers && key in s.disk && s.disk[key].refreshToken != "" {
      SoundOnDisk(s, key, jwt);
      LoadedSound(s.disk[key], now, jwt);
      MakeRoomSilent(s, victim, jwt);
      var room := MakeRoom(s, victim).value;
      var m := Manager(LoadedEntry(s.disk[key], now, jwt), Unix(now));
      InsertCard(room.managers, key, m);
      RepeatSilent(room.managers, room.disk, key, m, jwt);
      hide MakeRoom;
    }
  }

  lemma SoundOnDisk(s: Server, key: string, jwt: Jwt)
    requires Inv(s, jwt) && key in s.disk
    ensures Sound(s.disk[key], jwt)
  {
  }

  /** A reloaded record gets its expiry from the token, as it had in memory. */
  lemma LoadedSound(r: Record, now: int, jwt: Jwt)
    requires Sound(r, jwt)
    ensures EntrySound(LoadedEntry(r, now, jwt), jwt) && RecordOf(LoadedEntry(r, now, jwt)) == r
  {
  }

  lemma TouchSilent(s: Server, key: string, now: int, jwt: Jwt)
    requires Inv(s, jwt) && key in s.managers
    ensures Inv(Touch(s, key, now), jwt) && Tokens(Touch(s, key, now)) == Tokens(s)
    ensures key in Touch(s, key, now).managers && Touch(s, key, now).managers[key].entry == s.managers[key].entry
  {
    var m := s.managers[key].(lastAccess := Unix(now));
    InsertCard(s.managers, key, m);
    OverlayAt(s.managers, s.disk, key);
    assert EntrySound(m.entry, jwt);
    RepeatSilent(s.managers, s.disk, key, m, jwt);
    hide Overlay, Stocked;
  }

  lemma RefreshRefines(s: Server, key: string, g: Grant, jwt: Jwt)
    requires Inv(s, jwt) && key in s.managers && GrantSound(g, jwt)
    ensures key in Tokens(s) && Inv(Refresh(s, key, g).0, jwt)
    ensures if Tokens(s)[key].refreshToken == "" then Refresh(s, key, g) == (s, RefreshError(RefreshFailed))
            else if g.Failed? then Refresh(s, key, g) == (s, RefreshError(CodeOf(g.cause)))
            else Tokens(Refresh(s, key, g).0) == Tokens(s)[key := Renewed(Tokens(s)[key], g)]
                 && Refresh(s, key, g).1 == Token(g.idToken, g.expiry)
  {
    OverlayAt(s.managers, s.disk, key);
    assert EntrySound(s.managers[key].entry, jwt);
    if g.Granted? {
      var e := Entry(g.idToken, TokenRuns.Preserve(s.managers[key].entry.refreshToken, g.refreshToken), g.expiry);
      var m := s.managers[key].(entry := e);
      InsertCard(s.managers, key, m);
      PutRefines(s.managers, s.disk, key, m, jwt);
    }
    hide Overlay, Stocked;
  }

  lemma StatesIrrelevant(s: Server, states: Entries, jwt: Jwt)
    requires Inv(s, jwt)
    ensures Inv(s.(states := states), jwt) && Tokens(s.(states := states)) == Tokens(s)
  {
  }

  lemma GetRefines(s: Server, op: Request, jwt: Jwt)
    requires op.Get? && Inv(s, jwt) && Allowed(s, op, jwt)
    ensures var (t, reply) := GetToken(s, op.key, op.force, op.now, op.grant, jwt, op.victim);
            Inv(t, jwt) && SpecGet(Tokens(s), op.key in s.managers, op, jwt, reply, Tokens(t))
    ensures GetToken(s, op.key, op.force, op.now, op.grant, jwt, op.victim).1.LoginBusy? <==> Busy(s, op.key, op.now)
  {
    hide Overlay, Stocked, Apply, Seen, Settle, GetOrCreate, Touch, Refresh, ValidCacheKey, Oldest;
    var key, now := op.key, op.now;
    var settled := s.(states := Settle(s.states, key, now));
    StatesIrrelevant(s, settled.states, jwt);
    OverlayAt(s.managers, s.disk, key);
    if ValidCacheKey(key) && Seen(s.states, key, now).state != LoginInProgress {
      GetOrCreateSilent(settled, key, now, jwt, op.victim);
      var (found, ok) := GetOrCreate(settled, key, now, jwt, op.victim);
      if ok {
        HeldEntry(found, key, jwt);
        TouchSilent(found, key, now, jwt);
        var touched := Touch(found, key, now);
        var busy := SetKeyState(touched, key, Refreshing, now);
        StatesIrrelevant(touched, busy.states, jwt);
        RefreshRefines(busy, key, op.grant, jwt);
      }
    }
  }

  lemma HeldEntry(s: Server, key: string, jwt: Jwt)
    requires Inv(s, jwt) && key in s.managers
    ensures jwt(s.managers[key].entry.idToken) == Some(s.managers[key].entry.expiry)
  {
    assert EntrySound(s.managers[key].entry, jwt);
  }

  lemma StoreRefines(s: Server, key: string, r: Record, now: int, jwt: Jwt, victim: string)
    requires Inv(s, jwt) && MayEvict(s, victim)
    ensures var (t, reply) := StoreToken(s, key, r, now, jwt, victim);
            && Inv(t, jwt)
            && (if Acceptable(key, r, jwt) then
                  reply == Token(r.idToken, jwt(r.idToken).value) && Tokens(t) == Tokens(s)[key := r]
                else reply == BadRequest && t == s)
  {
    hide Overlay, Stocked, Apply, ValidCacheKey, Oldest;
    if Acceptable(key, r, jwt) {
      var m := Manager(Entry(r.idToken, r.refreshToken, jwt(r.idToken).value), Unix(now));
      if key in s.managers {
        var kept := s.managers[key].(entry := m.entry);
        InsertCard(s.managers, key, kept);
        PutRefines(s.managers, s.disk, key, kept, jwt);
      } else {
        MakeRoomSilent(s, victim, jwt);
        var room := MakeRoom(s, victim).value;
        InsertCard(room.managers, key, m);
        PutRefines(room.managers, room.disk, key, m, jwt);
        hide MakeRoom;
      }
    }
  }

  lemma CheckRefines(s: Server, key: string, now: int, jwt: Jwt)
    requires Inv(s, jwt)
    ensures var (t, status) := Check(s, key, now, jwt);
            Inv(t, jwt) && Tokens(t) == Tokens(s) && CheckExact(s, key, now, jwt, status)
  {
    hide Overlay, Stocked, Apply, Seen, Settle, CheckMemory, ValidCacheKey, CountExact;
    OverlayAt(s.managers, s.disk, key);
    if key in s.disk { SoundOnDisk(s, key, jwt); }
    CheckMemoryRefines(s, key, now, jwt);
    NoKeyIsValid();
  }

  lemma NoKeyIsValid()
    ensures !ValidCacheKey("")
  {
  }

  lemma CheckMemoryRefines(s: Server, key: string, now: int, jwt: Jwt)
    requires Inv(s, jwt)
    ensures var (t, reply) := CheckMemory(s, key, now);
            && Inv(t, jwt) && Tokens(t) == Tokens(s)
            && (reply.ready <==>
                  && key in s.managers && Seen(s.states, key, now).state == Valid
                  && now <= s.managers[key].entry.expiry)
            && (reply.ready ==> reply.expiry == Some(s.managers[key].entry.expiry)
                                && reply.refreshTokenValid == Some(s.managers[key].entry.refreshToken != ""))
    ensures key in s.managers ==> key in Tokens(s) && Tokens(s)[key] == RecordOf(s.managers[key].entry)
                                  && jwt(Tokens(s)[key].idToken) == Some(s.managers[key].entry.expiry)
  {
    hide Overlay, Stocked, Apply, Seen, Settle, Touch, ValidCacheKey;
    if key in s.managers {
      var settled := s.(states := Settle(s.states, key, now));
      StatesIrrelevant(s, settled.states, jwt);
      TouchSilent(settled, key, now, jwt);
      HeldEntry(s, key, jwt);
      OverlayAt(s.managers, s.disk, key);
    }
  }

  lemma WatchdogRefines(s: Server, key: string, jwt: Jwt)
    requires Inv(s, jwt)
    ensures Inv(WatchdogWrite(s, key), jwt) && Tokens(WatchdogWrite(s, key)) == Tokens(s)
  {
    if key in s.managers {
      OverlayAt(s.managers, s.disk, key);
      assert EntrySound(s.managers[key].entry, jwt);
      PutRefines(s.managers, s.disk, key, s.managers[key], jwt);
      assert s.managers[key := s.managers[key]] == s.managers;
      assert Tokens(s)[key := Tokens(s)[key]] == Tokens(s);
    }
    hide Overlay, Stocked;
  }

  /** Every step of the bounded server is a step of the unbounded map, with the same answer. */
  lemma StepRefines(s: Server, op: Request, jwt: Jwt)
    requires Inv(s, jwt) && Allowed(s, op, jwt)
    ensures Inv(Next(s, op, jwt).0, jwt)
    ensures SpecStep(Tokens(s), KeyOf(op) in s.managers, op, jwt, Next(s, op, jwt).1, Tokens(Next(s, op, jwt).0))
    ensures StatesExact(s, op, Next(s, op, jwt).1, jwt)
  {
    hide Inv, Tokens, StoreToken, GetToken, Refresh, WatchdogWrite, Check, SpecGet, Acceptable, GrantSound, MayEvict,
      CheckExact, Lost, Evict, ValidCacheKey;
    match op
    case Store(k, r, now, v) => StoreRefines(s, k, r, now, jwt, v);
    case Get(_, _, _, _, _) => GetRefines(s, op, jwt);
    case BackgroundRefresh(k, g) => if k in s.managers { RefreshRefines(s, k, g, jwt); }
    case Watchdog(k) => WatchdogRefines(s, k, jwt);
    case CheckKey(k, now) => CheckRefines(s, k, now, jwt);
    case Begin(k, now, started) =>
      BeginBusy(s, k, now, started);
      StatesIrrelevant(s, Next(s, op, jwt).0.states, jwt);
    case Cancel(k) => StatesIrrelevant(s, Next(s, op, jwt).0.states, jwt);
    case EvictStates(now, order) => StatesIrrelevant(s, Evict(s.states, now, order), jwt);
  }

  function KeyOf(op: Request): string { if op.EvictStates? then "" else op.key }

  lemma BeginBusy(s: Server, key: string, now: int, started: int)
    ensures BeginLoginOn(s, key, now, started).1.LoginBusy? <==> Busy(s, key, now)
  {
  }

  datatype ServerRun = ServerRun(servers: seq<Server>, ops: seq<Request>, answers: seq<Answer>)

  /** Any handlers and background actions, with any eviction picking a least recently used manager. */
  ghost predicate IsServerRun(r: ServerRun, jwt: Jwt) {
    && |r.servers| == |r.ops| + 1 == |r.answers| + 1
    && forall i {:trigger r.ops[i]} | 0 <= i < |r.ops| ::
         Picks(r.servers[i], r.ops[i]) && (r.servers[i + 1], r.answers[i]) == Next(r.servers[i], r.ops[i], jwt)
  }

  /** A daemon that has just started on a directory of records it could have written. */
  ghost predicate Starts(s: Server, jwt: Jwt) {
    s.managers == map[] && s.count == 0 && forall k <- s.disk :: Sound(s.disk[k], jwt)
  }

  /**
   * In every run the answers are those of the unbounded map. Where the cache shows through is stated
   * exactly: a key that is on disk alone is not reloaded without a refresh token, only keys in
   * memory are refreshed in the background, and login states put gets off and decide which checks
   * are ready.
   */
  lemma {:induction false} CacheRefinesMap(r: ServerRun, jwt: Jwt, i: nat)
    requires IsServerRun(r, jwt) && i < |r.servers| && Starts(r.servers[0], jwt)
    requires forall m | 0 <= m < |r.ops| :: Allowed(r.servers[m], r.ops[m], jwt)
    ensures Inv(r.servers[i], jwt)
    ensures i < |r.ops| ==>
              && SpecStep(Tokens(r.servers[i]), KeyOf(r.ops[i]) in r.servers[i].managers, r.ops[i], jwt, r.answers[i],
                          Tokens(r.servers[i + 1]))
              && StatesExact(r.servers[i], r.ops[i], r.answers[i], jwt)
  {
    hide Next, Picks, Allowed, Tokens, SpecStep, Inv, StatesExact, Lost;
    if i == 0 { StartsInv(r.servers[0], jwt); }
    if i > 0 {
      CacheRefinesMap(r, jwt, i - 1);
      assert Allowed(r.servers[i - 1], r.ops[i - 1], jwt);
      StepRefines(r.servers[i - 1], r.ops[i - 1], jwt);
    }
    if i < |r.ops| {
      assert Allowed(r.servers[i], r.ops[i], jwt);
      StepRefines(r.servers[i], r.ops[i], jwt);
    }
  }

  lemma StartsInv(s: Server, jwt: Jwt)
    requires Starts(s, jwt)
    ensures Inv(s, jwt)
  {
  }
}
