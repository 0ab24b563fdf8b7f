/**
 * The daemon's manager cache of pkg/daemon/server.go: at most 256 token managers in memory,
 * written back to disk when evicted and reloaded on demand.
 *
 * Handlers are atomic, writes to disk succeed, and `jwt` stands for parseTokenExpiry: the `exp`
 * claim of section 4.1.4 of RFC 7519 when the token has a usable one.
 */
module ManagerCache {
  import opened Common
  import opened LoginStates
  import opened TokenManagers
  import TokenRuns
  import opened CacheKeys

  const MAX_MANAGERS: nat := 256
  const MAX_TOKEN_SIZE: nat := 0x10_0000

  type Jwt = string -> Option<int>

  /** A cached token manager: its current entry and its last access in Unix seconds. */
  datatype Manager = Manager(entry: Entry, lastAccess: int)

  datatype Server = Server(managers: map<string, Manager>, count: int, disk: map<string, Record>, states: Entries)

  /** What the text of a refresh error says. */
  datatype Cause = RevokedGrant | ProviderDown | OtherCause

  /** How a refresh with the provider ends. */
  datatype Grant = Granted(idToken: string, refreshToken: string, expiry: int) | Failed(cause: Cause)

  datatype ErrorCode = TokenRevoked | ProviderUnreachable | RefreshFailed | LoginNeeded | LoginPending

  datatype Reply =
    | Token(idToken: string, expiry: int)
    | LoginBusy(loginStarted: int)
    | NeedsAuth
    | RefreshError(code: ErrorCode)
    | Rejected
    | BadRequest
    | LoginBegun
    | LoginCancelled

  function Unix(now: int): int { now / SECOND }

  function RecordOf(e: Entry): Record { Record(e.idToken, e.refreshToken) }

  // ------------------------------------------------------------------ Critical sections

  /** No other manager was used less recently. */
  predicate Oldest(managers: map<string, Manager>, k: string) {
    k in managers && forall other <- managers :: managers[k].lastAccess <= managers[other].lastAccess
  }

  function EvictManager(s: Server, victim: string): Server
    requires victim in s.managers
  {
    s.(managers := s.managers - {victim},
       count := s.count - 1,
       disk := s.disk[victim := RecordOf(s.managers[victim].entry)],
       states := Apply(s.states, DeleteEntry(victim), 0).0)
  }

  /** Makes room at the cap; None is the "nothing evictable" rejection. */
  function MakeRoom(s: Server, victim: string): Option<Server> {
    if s.count < MAX_MANAGERS then Some(s)
    else if victim in s.managers then Some(EvictManager(s, victim))
    else None
  }

  /** The victim the eviction scan may pick; irrelevant while there is room. */
  predicate MayEvict(s: Server, victim: string) {
    s.count >= MAX_MANAGERS ==> (if s.managers == map[] then victim !in s.managers else Oldest(s.managers, victim))
  }

  /** Stores a manager unless one is there already. */
  function LoadOrStore(s: Server, key: string, m: Manager): Server {
    if key in s.managers then s else s.(managers := s.managers[key := m], count := s.count + 1)
  }

  /** The locked section that admits a manager loaded from disk. */
  function AdmitLoaded(s: Server, key: string, m: Manager, victim: string): Option<Server> {
    var room := MakeRoom(s, victim);
    if room.None? then None else Some(LoadOrStore(room.value, key, m))
  }

  /** The locked section that admits a freshly stored token, and the update of a manager in place. */
  function AdmitStored(s: Server, key: string, m: Manager, victim: string): Option<Server> {
    if key in s.managers then Some(s.(managers := s.managers[key := s.managers[key].(entry := m.entry)]))
    else AdmitLoaded(s, key, m, victim)
  }

  // ------------------------------------------------------------------ Handlers

  function LoadedEntry(r: Record, now: int, jwt: Jwt): Entry {
    var exp := if r.idToken == "" then None else jwt(r.idToken);
    Entry(r.idToken, r.refreshToken, if exp.Some? then exp.value else now)
  }

  function GetOrCreate(s: Server, key: string, now: int, jwt: Jwt, victim: string): (r: (Server, bool))
    ensures r.1 ==> key in r.0.managers
  {
    if key in s.managers then (s, true)
    else if key !in s.disk || s.disk[key].refreshToken == "" then (s, false)
    else
      var admitted := AdmitLoaded(s, key, Manager(LoadedEntry(s.disk[key], now, jwt), Unix(now)), victim);
      if admitted.None? then (s, false) else (admitted.value, true)
  }

  /** The code of a failed refresh, classifyRefreshError. */
  function CodeOf(cause: Cause): ErrorCode {
    match cause
    case RevokedGrant => TokenRevoked
    case ProviderDown => ProviderUnreachable
    case OtherCause => RefreshFailed
  }

  /** Refresh of a cached manager, with the write to disk that follows a success. */
  function Refresh(s: Server, key: string, g: Grant): (Server, Reply)
    requires key in s.managers
  {
    var rt := s.managers[key].entry.refreshToken;
    if rt == "" then (s, RefreshError(RefreshFailed))
    else if g.Failed? then (s, RefreshError(CodeOf(g.cause)))
    else
      var e := Entry(g.idToken, TokenRuns.Preserve(rt, g.refreshToken), g.expiry);
      (s.(managers := s.managers[key := s.managers[key].(entry := e)], disk := s.disk[key := RecordOf(e)]),
       Token(e.idToken, e.expiry))
  }

  function SetKeyState(s: Server, key: string, state: AuthState, now: int): Server {
    s.(states := Apply(s.states, SetState(key, state), now).0)
  }

  function Touch(s: Server, key: string, now: int): Server
    requires key in s.managers
  {
    s.(managers := s.managers[key := s.managers[key].(lastAccess := Unix(now))])
  }

  function GetToken(s: Server, key: string, force: bool, now: int, g: Grant, jwt: Jwt, victim: string)
    : (Server, Reply)
  {
    if !ValidCacheKey(key) then (s, BadRequest) else
      var seen := Seen(s.states, key, now);
      var settled := s.(states := Settle(s.states, key, now));
      if seen.state == LoginInProgress then (settled, LoginBusy(seen.loginStarted)) else
        var (found, ok) := GetOrCreate(settled, key, now, jwt, victim);
        if !ok then (SetKeyState(found, key, NeedsLogin, now), NeedsAuth) else
          var touched := Touch(found, key, now);
          var e := touched.managers[key].entry;
          if now <= e.expiry && !force then (SetKeyState(touched, key, Valid, now), Token(e.idToken, e.expiry)) else
            var (refreshed, reply) := Refresh(SetKeyState(touched, key, Refreshing, now), key, g);
            (SetKeyState(refreshed, key, if reply.Token? then Valid else NeedsLogin, now), reply)
  }

  function StoreToken(s: Server, key: string, r: Record, now: int, jwt: Jwt, victim: string): (Server, Reply) {
    if !ValidCacheKey(key) || r.idToken == "" || |r.idToken| > MAX_TOKEN_SIZE || |r.refreshToken| > MAX_TOKEN_SIZE
       || jwt(r.idToken).None?
    then (s, BadRequest)
    else
      var exp := jwt(r.idToken).value;
      var admitted := AdmitStored(s, key, Manager(Entry(r.idToken, r.refreshToken, exp), Unix(now)), victim);
      if admitted.None? then (s, Rejected) else
        var t := admitted.value;
        (t.(disk := t.disk[key := r], states := Apply(t.states, CompleteLogin(key), now).0), Token(r.idToken, exp))
  }

  function BeginLoginOn(s: Server, key: string, now: int, started: int): (Server, Reply) {
    if !ValidCacheKey(key) then (s, BadRequest) else
      var (states, answer) := Apply(s.states, BeginLogin(key, started), now);
      (s.(states := states), if answer.ok then LoginBegun else LoginBusy(answer.loginStarted))
  }

  function CancelLoginOn(s: Server, key: string): (Server, Reply) {
    if !ValidCacheKey(key) then (s, BadRequest)
    else (s.(states := Apply(s.states, CancelLogin(key), 0).0), LoginCancelled)
  }

  /** The persist watchdog of a cached manager. */
  function WatchdogWrite(s: Server, key: string): Server {
    if key in s.managers && !(s.managers[key].entry.idToken == "" && s.managers[key].entry.refreshToken == "")
    then s.(disk := s.disk[key := RecordOf(s.managers[key].entry)])
    else s
  }

  datatype CheckState = Known(state: AuthState) | NeedsRefresh

  datatype CheckReply = CheckReply(
    ready: bool, state: CheckState, expiry: Option<int>, refreshTokenValid: Option<bool>, loginStarted: Option<int>,
    code: Option<ErrorCode>)

  const NO_KEY := CheckReply(false, Known(NeedsLogin), None, None, None, None)

  function Started(e: StateEntry): Option<int> { if e.loginStarted != 0 then Some(e.loginStarted) else None }

  function Ready(expiry: int, refreshToken: string): CheckReply {
    CheckReply(true, Known(Valid), Some(expiry), Some(refreshToken != ""), None, None)
  }

  /** The answer for a key that is not ready, by its login state. */
  function NotReady(e: StateEntry): CheckReply {
    CheckReply(
      false, Known(e.state), None, None, Started(e),
      match e.state
      case NeedsLogin => Some(LoginNeeded)
      case LoginInProgress => Some(LoginPending)
      case _ => None)
  }

  function CheckDisk(r: Record, now: int, jwt: Jwt): Option<CheckReply> {
    var exp := if r.idToken == "" then None else jwt(r.idToken);
    if r.idToken == "" && r.refreshToken == "" then None
    // An unreadable expiry stays at the zero time, which every clock reading is after.
    else if exp.Some? && now <= exp.value then Some(Ready(exp.value, r.refreshToken))
    else if r.refreshToken != "" then Some(CheckReply(false, NeedsRefresh, None, Some(true), None, None))
    else None
  }

  function CheckMemory(s: Server, key: string, now: int): (Server, CheckReply) {
    var seen := Seen(s.states, key, now);
    var settled := s.(states := Settle(s.states, key, now));
    if seen.state != Valid then (settled, NotReady(seen))
    else if key !in s.managers then (SetKeyState(settled, key, NeedsLogin, now), NotReady(seen.(state := NeedsLogin)))
    else
      var touched := Touch(settled, key, now);
      var e := s.managers[key].entry;
      if now <= e.expiry then (touched, Ready(e.expiry, e.refreshToken).(loginStarted := Started(seen)))
      else (SetKeyState(touched, key, NeedsLogin, now), NotReady(seen.(state := NeedsLogin)))
  }

  /** None is the rejection of a malformed key. */
  function Check(s: Server, key: string, now: int, jwt: Jwt): (Server, Option<CheckReply>) {
    if key == "" then (s, Some(NO_KEY))
    else if !ValidCacheKey(key) then (s, None)
    else
      var found := if key !in s.managers && key in s.disk then CheckDisk(s.disk[key], now, jwt) else None;
      if found.Some? then (s, found) else
        var (t, reply) := CheckMemory(s, key, now);
        (t, Some(reply))
  }

  // ------------------------------------------------------------------ The count and the cap

  ghost predicate CountExact(s: Server) {
    s.count == |s.managers| <= 256
  }

  lemma MakeRoomExact(s: Server, victim: string)
    requires CountExact(s) && MayEvict(s, victim)
    ensures var room := MakeRoom(s, victim); room.Some? && CountExact(room.value) && room.value.count < MAX_MANAGERS
    ensures s.count >= MAX_MANAGERS ==> victim in s.managers
  {
    if s.count >= MAX_MANAGERS {
      EmptyCard(s.managers);
      assert s.managers != map[];
      RemoveCard(s.managers, victim);
    }
  }

  /**
   * Both admitting sections keep the count exact and within the cap, and neither can meet the
   * "nothing evictable" rejection; also when another request admitted the key first.
   */
  lemma AdmissionExact(s: Server, key: string, m: Manager, victim: string)
    requires CountExact(s) && MayEvict(s, victim)
    ensures AdmitLoaded(s, key, m, victim).Some? && CountExact(AdmitLoaded(s, key, m, victim).value)
    ensures AdmitStored(s, key, m, victim).Some? && CountExact(AdmitStored(s, key, m, victim).value)
    ensures key in AdmitLoaded(s, key, m, victim).value.managers
    ensures key in AdmitStored(s, key, m, victim).value.managers
  {
    MakeRoomExact(s, victim);
    var room := MakeRoom(s, victim).value;
    InsertCard(room.managers, key, m);
    if key in s.managers {
      InsertCard(s.managers, key, s.managers[key].(entry := m.entry));
    }
  }
}
