/**
 * The rest of what a client of the daemon sees: the login state each request leaves, the replies
 * that are no tokens, which manager counts as least recently used, and what a restart keeps.
 */
module CacheStates {
  import opened Common
  import opened LoginStates
  import opened TokenManagers
  import opened ManagerCache
  import opened CacheKeys
  import opened CacheRefinement

  // ------------------------------------------------------------------ Stores and logins

  /** A stored token is served and reported ready for as long as it lives, whatever login was in progress. */
  lemma StoredIsServed(s: Server, key: string, r: Record, now: int, later: int, g: Grant, jwt: Jwt, victim: string,
                       other: string)
    requires CountExact(s) && MayEvict(s, victim) && Acceptable(key, r, jwt) && later <= jwt(r.idToken).value
    ensures var (t, reply) := StoreToken(s, key, r, now, jwt, victim);
            && reply == Token(r.idToken, jwt(r.idToken).value)
            && GetToken(t, key, false, later, g, jwt, other).1 == Token(r.idToken, jwt(r.idToken).value)
            && Check(t, key, later, jwt).1.Some? && Check(t, key, later, jwt).1.value.ready
            && Check(t, key, later, jwt).1.value.expiry == jwt(r.idToken)
            && Check(t, key, later, jwt).1.value.refreshTokenValid == Some(r.refreshToken != "")
  {
    var m := Manager(Entry(r.idToken, r.refreshToken, jwt(r.idToken).value), Unix(now));
    AdmissionExact(s, key, m, victim);
    AdmitsEntry(s, key, m, victim);
    hide AdmitStored, CountExact, MayEvict, Touch;
    var t := StoreToken(s, key, r, now, jwt, victim).0;
    assert key in t.managers && t.managers[key].entry == m.entry && Seen(t.states, key, later) == StateEntry(Valid, 0);
    hide StoreToken, Acceptable, AdmitStored;
    ServedFromMemory(t, key, later, g, jwt, other);
  }

  lemma AdmitsEntry(s: Server, key: string, m: Manager, victim: string)
    requires AdmitStored(s, key, m, victim).Some?
    ensures var t := AdmitStored(s, key, m, victim).value; key in t.managers && t.managers[key].entry == m.entry
  {
  }

  lemma ServedFromMemory(t: Server, key: string, now: int, g: Grant, jwt: Jwt, other: string)
    requires ValidCacheKey(key) && key in t.managers && now <= t.managers[key].entry.expiry
    requires Seen(t.states, key, now) == StateEntry(Valid, 0)
    ensures var e := t.managers[key].entry;
            && GetToken(t, key, false, now, g, jwt, other).1 == Token(e.idToken, e.expiry)
            && Check(t, key, now, jwt).1 == Some(CheckReply(true, Known(Valid), Some(e.expiry),
                                                            Some(e.refreshToken != ""), None, None))
  {
    hide Apply;
  }

  /** No login of the key is recorded. */
  predicate NoLogin(states: Entries, key: string) {
    key in states ==> states[key].state != LoginInProgress
  }

  lemma NoLoginApply(m: Entries, op: Op, now: int, key: string)
    requires NoLogin(m, key) && !(op.BeginLogin? && op.key == key)
    requires !(op.SetState? && op.state == LoginInProgress)
    ensures NoLogin(Apply(m, op, now).0, key)
  {
    if op.EvictStale? { DropDerivableFacts(DropLapsed(DropIdle(m), now), op.order); }
    hide DropDerivable;
  }

  lemma NoLoginStep(s: Server, op: Request, jwt: Jwt, key: string)
    requires NoLogin(s.states, key) && !(op.Begin? && op.key == key)
    ensures NoLogin(Next(s, op, jwt).0.states, key)
  {
    match op
    case Get(_, _, _, _, _) =>
      NoLoginGet(s, op, jwt, key);
      hide GetToken, NoLogin;
    case Store(k, r, now, v) =>
      NoLoginStore(s, op, jwt, key);
      hide StoreToken, NoLogin;
    case CheckKey(k, now) =>
      NoLoginCheck(s, k, now, jwt, key);
      hide Check, NoLogin;
    case EvictStates(now, order) =>
      NoLoginApply(s.states, EvictStale(order), now, key);
      hide Evict, NoLogin;
    case Begin(k, now, started) =>
      NoLoginApply(s.states, BeginLogin(k, started), now, key);
      hide Apply, NoLogin;
    case Cancel(k) =>
      NoLoginApply(s.states, CancelLogin(k), 0, key);
      hide Apply, NoLogin;
    case BackgroundRefresh(_, _) => hide NoLogin;
    case Watchdog(_) => hide NoLogin;
  }

  lemma NoLoginStore(s: Server, op: Request, jwt: Jwt, key: string)
    requires op.Store? && NoLogin(s.states, key)
    ensures NoLogin(StoreToken(s, op.key, op.record, op.now, jwt, op.victim).0.states, key)
  {
    hide ValidCacheKey;
  }

  lemma NoLoginCheck(s: Server, k: string, now: int, jwt: Jwt, key: string)
    requires NoLogin(s.states, key)
    ensures NoLogin(Check(s, k, now, jwt).0.states, key)
  {
    hide ValidCacheKey, CheckDisk, NotReady;
  }

  lemma NoLoginGet(s: Server, op: Request, jwt: Jwt, key: string)
    requires op.Get? && NoLogin(s.states, key)
    ensures NoLogin(GetToken(s, op.key, op.force, op.now, op.grant, jwt, op.victim).0.states, key)
  {
    hide GetOrCreate, CodeOf, ValidCacheKey, Seen, Oldest;
    NoLoginLoad(s.(states := Settle(s.states, op.key, op.now)), op.key, op.now, jwt, op.victim, key);
  }

  lemma NoLoginLoad(s: Server, k: string, now: int, jwt: Jwt, victim: string, key: string)
    requires NoLogin(s.states, key)
    ensures NoLogin(GetOrCreate(s, k, now, jwt, victim).0.states, key)
  {
    hide LoadedEntry;
  }

  /** Storing a token ends the login: gets are put off again only after the next begin of the key. */
  lemma {:induction false} StoreEndsLogin(r: ServerRun, jwt: Jwt, i: nat, j: nat)
    requires IsServerRun(r, jwt) && i < j < |r.servers| && r.ops[i].Store? && r.answers[i] != Replied(BadRequest)
    requires r.answers[i] != Replied(Rejected)
    requires forall m | i < m < j :: !(r.ops[m].Begin? && r.ops[m].key == r.ops[i].key)
    ensures forall now :: !Busy(r.servers[j], r.ops[i].key, now)
    decreases j
  {
    NoLoginSince(r, jwt, i, j);
    hide IsServerRun, Next;
  }

  lemma {:induction false} NoLoginSince(r: ServerRun, jwt: Jwt, i: nat, j: nat)
    requires IsServerRun(r, jwt) && i < j < |r.servers| && r.ops[i].Store? && r.answers[i] != Replied(BadRequest)
    requires r.answers[i] != Replied(Rejected)
    requires forall m | i < m < j :: !(r.ops[m].Begin? && r.ops[m].key == r.ops[i].key)
    ensures NoLogin(r.servers[j].states, r.ops[i].key)
    decreases j
  {
    if j == i + 1 {
      StoreCompletes(r.servers[i], r.ops[i], jwt);
      hide Next;
    } else {
      hide Next, NoLogin, Picks;
      NoLoginSince(r, jwt, i, j - 1);
      NoLoginStep(r.servers[j - 1], r.ops[j - 1], jwt, r.ops[i].key);
    }
  }

  lemma StoreCompletes(s: Server, op: Request, jwt: Jwt)
    requires op.Store? && Next(s, op, jwt).1 != Replied(BadRequest) && Next(s, op, jwt).1 != Replied(Rejected)
    ensures var t := Next(s, op, jwt).0; op.key in t.states && t.states[op.key] == StateEntry(Valid, 0)
  {
    hide AdmitStored;
  }

  /** Beginning a login puts gets off, with its start, until it lapses, is cancelled or is completed. */
  lemma BegunLoginHolds(s: Server, key: string, now: int, started: int, later: int, force: bool, g: Grant, jwt: Jwt,
                        victim: string)
    requires ValidCacheKey(key) && 0 < now <= started <= later <= started + 300_000_000_000
    requires BeginLoginOn(s, key, now, started).1 == LoginBegun
    ensures var t := BeginLoginOn(s, key, now, started).0;
            && GetToken(t, key, force, later, g, jwt, victim).1 == LoginBusy(started)
            && BeginLoginOn(t, key, later, later).1 == LoginBusy(started)
            && t.managers == s.managers && t.disk == s.disk
  {
    hide GetOrCreate, Touch, Refresh;
  }

  /** After a cancel a login can begin at once, and a cancel touches no tokens. */
  lemma CancelledLoginFrees(s: Server, key: string, now: int, started: int)
    requires ValidCacheKey(key) && 0 < now <= started
    ensures var (t, reply) := CancelLoginOn(s, key);
            && reply == LoginCancelled && t.managers == s.managers && t.disk == s.disk
            && BeginLoginOn(t, key, now, started).1 == LoginBegun
            && NoLogin(t.states, key)
  {
  }

  // ------------------------------------------------------------------ Replies that are no tokens

  /** The code of a failed get, by its cause. */
  lemma FailureCodes(s: Server, key: string, g: Grant)
    requires key in s.managers
    ensures var (t, reply) := Refresh(s, key, g);
            && (reply.RefreshError? ==> t == s)
            && (s.managers[key].entry.refreshToken == "" ==> reply == RefreshError(RefreshFailed))
            && (s.managers[key].entry.refreshToken != "" ==>
                  match g
                  case Granted(idToken, _, expiry) => reply == Token(idToken, expiry)
                  case Failed(RevokedGrant) => reply == RefreshError(TokenRevoked)
                  case Failed(ProviderDown) => reply == RefreshError(ProviderUnreachable)
                  case Failed(OtherCause) => reply == RefreshError(RefreshFailed))
  {
  }

  /** The login state of the key after a get, by the reply. */
  lemma StateAfterGet(s: Server, key: string, force: bool, now: int, g: Grant, jwt: Jwt, victim: string)
    requires now > 0
    ensures var (t, reply) := GetToken(s, key, force, now, g, jwt, victim);
            match reply
            case BadRequest => t == s && !ValidCacheKey(key)
            case LoginBusy(started) =>
              Seen(t.states, key, now) == Seen(s.states, key, now) == StateEntry(LoginInProgress, started)
            case Token(_, _) => Seen(t.states, key, now) == StateEntry(Valid, 0)
            case NeedsAuth => Seen(t.states, key, now) == StateEntry(NeedsLogin, 0)
            case RefreshError(_) => Seen(t.states, key, now) == StateEntry(NeedsLogin, 0)
            case _ => false
  {
    hide GetOrCreate, Touch, CodeOf;
  }

  /** A get touches the login states of its own key and, if it evicts, of the victim. */
  lemma GetSparesStates(s: Server, key: string, force: bool, now: int, g: Grant, jwt: Jwt, victim: string,
                        other: string)
    requires other != key && other != victim
    ensures var t := GetToken(s, key, force, now, g, jwt, victim).0;
            (other in t.states <==> other in s.states) && (other in s.states ==> t.states[other] == s.states[other])
  {
    hide GetOrCreate, CodeOf, ValidCacheKey, Seen, Oldest;
    LoadSparesStates(s.(states := Settle(s.states, key, now)), key, now, jwt, victim, other);
  }

  lemma LoadSparesStates(s: Server, key: string, now: int, jwt: Jwt, victim: string, other: string)
    requires other != victim
    ensures var t := GetOrCreate(s, key, now, jwt, victim).0;
            (other in t.states <==> other in s.states) && (other in s.states ==> t.states[other] == s.states[other])
  {
    hide LoadedEntry;
  }

  /** The answer of a check that is not ready, case by case. */
  lemma NotReadyExact(s: Server, key: string, now: int, jwt: Jwt)
    requires ValidCacheKey(key) && WellFormed(s.states)
    requires Check(s, key, now, jwt).1.Some? && !Check(s, key, now, jwt).1.value.ready
    ensures var (t, status) := Check(s, key, now, jwt);
            var reply, seen := status.value, Seen(s.states, key, now);
            && reply.expiry == None
            && (if key !in s.managers && key in s.disk && s.disk[key].refreshToken != "" then
                  reply == CheckReply(false, NeedsRefresh, None, Some(true), None, None) && t == s
                else
                  match seen.state
                  case Valid =>
                    && reply == CheckReply(false, Known(NeedsLogin), None, None, None, Some(LoginNeeded))
                    && Seen(t.states, key, now) == StateEntry(NeedsLogin, 0)
                  case NeedsLogin =>
                    && reply == CheckReply(false, Known(NeedsLogin), None, None, None, Some(LoginNeeded))
                    && Seen(t.states, key, now) == seen
                  case LoginInProgress =>
                    && reply == CheckReply(false, Known(LoginInProgress), None, None, Some(seen.loginStarted),
                                           Some(LoginPending))
                    && Seen(t.states, key, now) == seen
                  case Refreshing =>
                    && reply == CheckReply(false, Known(Refreshing), None, None, None, None)
                    && Seen(t.states, key, now) == seen)
  {
    hide Touch;
  }

  /** A malformed key is refused by every request and changes nothing; a check without a key says so. */
  lemma BadKeysRefused(s: Server, key: string, op: Request, jwt: Jwt)
    requires !ValidCacheKey(key) && (op.Get? || op.Store? || op.Begin? || op.Cancel? || op.CheckKey?) && op.key == key
    ensures var (t, answer) := Next(s, op, jwt);
            && t == s
            && (!op.CheckKey? ==> answer == Replied(BadRequest))
            && (op.CheckKey? && key != "" ==> answer == Checked(None))
            && (op.CheckKey? && key == "" ==>
                  answer == Checked(Some(CheckReply(false, Known(NeedsLogin), None, None, None, None))))
  {
    hide ValidCacheKey, Apply, GetOrCreate, AdmitStored, CheckMemory;
  }

  /** A reloaded token whose expiry cannot be read counts as expired at any later clock reading. */
  lemma UnreadableExpires(r: Record, now: int, later: int, jwt: Jwt)
    requires now < later && (r.idToken == "" || jwt(r.idToken).None?)
    ensures LoadedEntry(r, now, jwt).idToken == r.idToken && LoadedEntry(r, now, jwt).refreshToken == r.refreshToken
    ensures LoadedEntry(r, now, jwt).expiry < later
  {
  }

  // ------------------------------------------------------------------ Which manager is least recently used

  /** The second in which a request uses the manager of a key, if it does. */
  function Uses(s: Server, op: Request, jwt: Jwt, k: string): Option<int> {
    match op
    case Get(key, _, now, _, _) =>
      var reply := Next(s, op, jwt).1;
      var found := reply.Replied? && (reply.reply.Token? || reply.reply.RefreshError?);
      if key == k && found then Some(now / 1_000_000_000) else None
    case Store(key, r, now, _) =>
      var reply := Next(s, op, jwt).1;
      if key == k && k !in s.managers && reply.Replied? && reply.reply.Token? then Some(now / 1_000_000_000) else None
    case CheckKey(key, now) =>
      if key == k && ValidCacheKey(k) && k in s.managers && Seen(s.states, k, now).state == Valid then
        Some(now / 1_000_000_000)
      else None
    case _ => None
  }

  lemma UseStep(s: Server, op: Request, jwt: Jwt, k: string)
    requires k in Next(s, op, jwt).0.managers
    ensures var t := Next(s, op, jwt).0;
            if Uses(s, op, jwt, k).Some? then Some(t.managers[k].lastAccess) == Uses(s, op, jwt, k)
            else k in s.managers && t.managers[k].lastAccess == s.managers[k].lastAccess
  {
    match op
    case Get(_, _, _, _, _) => GetUses(s, op, jwt, k);
    case Store(_, _, _, _) => StoreUses(s, op, jwt, k);
    case _ => hide GetToken, StoreToken, Apply, Seen, Settle, Evict, CheckDisk, NotReady, LoadedEntry;
  }

  lemma StoreUses(s: Server, op: Request, jwt: Jwt, k: string)
    requires op.Store? && k in Next(s, op, jwt).0.managers
    ensures var t := Next(s, op, jwt).0;
            if Uses(s, op, jwt, k).Some? then Some(t.managers[k].lastAccess) == Uses(s, op, jwt, k)
            else k in s.managers && t.managers[k].lastAccess == s.managers[k].lastAccess
  {
    hide Apply, GetToken, Oldest;
  }

  lemma GetUses(s: Server, op: Request, jwt: Jwt, k: string)
    requires op.Get? && k in Next(s, op, jwt).0.managers
    ensures var t := Next(s, op, jwt).0;
            if Uses(s, op, jwt, k).Some? then Some(t.managers[k].lastAccess) == Uses(s, op, jwt, k)
            else k in s.managers && t.managers[k].lastAccess == s.managers[k].lastAccess
  {
    hide Apply, Seen, Settle, ValidCacheKey, GetOrCreate, StoreToken, Check, CodeOf;
    LoadKeepsAccess(s.(states := Settle(s.states, op.key, op.now)), op.key, op.now, jwt, op.victim, k);
  }

  lemma LoadKeepsAccess(s: Server, key: string, now: int, jwt: Jwt, victim: string, k: string)
    ensures var (t, ok) := GetOrCreate(s, key, now, jwt, victim);
            && (k in t.managers && k != key ==> k in s.managers && t.managers[k] == s.managers[k])
            && (!ok ==> t == s && key !in s.managers)
  {
    hide Apply, LoadedEntry;
  }

  /** Step m is the last use of the key's manager before step i. */
  ghost predicate LastUse(r: ServerRun, jwt: Jwt, m: nat, i: nat, k: string)
    requires i <= |r.ops| < |r.servers|
  {
    && m < i && Uses(r.servers[m], r.ops[m], jwt, k).Some?
    && forall n: nat | m < n < i :: Uses(r.servers[n], r.ops[n], jwt, k).None?
  }

  /** In every run a manager's last access is the second of the last request that used it. */
  lemma {:induction false} LastAccessExact(r: ServerRun, jwt: Jwt, i: nat, k: string) returns (m: nat)
    requires IsServerRun(r, jwt) && i < |r.servers| && r.servers[0].managers == map[] && k in r.servers[i].managers
    ensures LastUse(r, jwt, m, i, k)
    ensures Uses(r.servers[m], r.ops[m], jwt, k) == Some(r.servers[i].managers[k].lastAccess)
    decreases i
  {
    hide Next, Uses, Picks;
    UseStep(r.servers[i - 1], r.ops[i - 1], jwt, k);
    if Uses(r.servers[i - 1], r.ops[i - 1], jwt, k).Some? {
      m := i - 1;
    } else {
      m := LastAccessExact(r, jwt, i - 1, k);
    }
  }

  /** So the manager an eviction picks was last used no later, to the second, than any other. */
  lemma EvictedIsLeastRecent(r: ServerRun, jwt: Jwt, i: nat, k: string) returns (m: nat, n: nat)
    requires IsServerRun(r, jwt) && i < |r.ops| && r.servers[0].managers == map[]
    requires r.ops[i].Store? || r.ops[i].Get?
    requires r.servers[i].count >= 256 && k in r.servers[i].managers
    ensures r.ops[i].victim in r.servers[i].managers
    ensures LastUse(r, jwt, m, i, r.ops[i].victim) && LastUse(r, jwt, n, i, k)
    ensures Uses(r.servers[m], r.ops[m], jwt, r.ops[i].victim).value <= Uses(r.servers[n], r.ops[n], jwt, k).value
  {
    var v := r.ops[i].victim;
    assert Picks(r.servers[i], r.ops[i]) && Oldest(r.servers[i].managers, v);
    hide Next, Uses;
    m := LastAccessExact(r, jwt, i, v);
    n := LastAccessExact(r, jwt, i, k);
  }

  // ------------------------------------------------------------------ What a restart keeps

  /** Whatever is held in memory is on disk too. */
  ghost predicate OnDisk(managers: map<string, Manager>, disk: map<string, Record>) {
    forall k <- managers :: k in disk && disk[k] == RecordOf(managers[k].entry)
  }

  lemma OnDiskStep(s: Server, op: Request, jwt: Jwt)
    requires OnDisk(s.managers, s.disk)
    ensures var t := Next(s, op, jwt).0; OnDisk(t.managers, t.disk)
  {
    if op.Get? {
      OnDiskGet(s, op, jwt);
      hide GetToken, OnDisk;
    } else {
      hide Apply, Seen, Settle, ValidCacheKey, GetToken, Evict, CheckDisk, NotReady, Oldest;
    }
  }

  lemma OnDiskGet(s: Server, op: Request, jwt: Jwt)
    requires op.Get? && OnDisk(s.managers, s.disk)
    ensures var t := GetToken(s, op.key, op.force, op.now, op.grant, jwt, op.victim).0; OnDisk(t.managers, t.disk)
  {
    hide Apply, Seen, Settle, ValidCacheKey, GetOrCreate, CodeOf;
    OnDiskLoad(s.(states := Settle(s.states, op.key, op.now)), op.key, op.now, jwt, op.victim);
  }

  lemma OnDiskLoad(s: Server, key: string, now: int, jwt: Jwt, victim: string)
    requires OnDisk(s.managers, s.disk)
    ensures var t := GetOrCreate(s, key, now, jwt, victim).0; OnDisk(t.managers, t.disk)
  {
    hide Apply;
  }

  /**
   * In every run, as long as writes succeed, a daemon that stops and starts again on its directory
   * holds the tokens it held.
   */
  lemma {:induction false} RestartKeepsTokens(r: ServerRun, jwt: Jwt, i: nat)
    requires IsServerRun(r, jwt) && i < |r.servers| && r.servers[0].managers == map[]
    ensures OnDisk(r.servers[i].managers, r.servers[i].disk)
    ensures Tokens(r.servers[i]) == Tokens(Server(map[], 0, r.servers[i].disk, map[]))
  {
    hide Next, Picks;
    if i > 0 {
      RestartKeepsTokens(r, jwt, i - 1);
      OnDiskStep(r.servers[i - 1], r.ops[i - 1], jwt);
    }
  }

  /** Whatever has become of a key's file, the watchdog puts the token in memory back. */
  lemma WatchdogHeals(s: Server, key: string)
    requires key in s.managers
    ensures var t, e := WatchdogWrite(s, key), s.managers[key].entry;
            && t.managers == s.managers && t.states == s.states && t.count == s.count
            && (e.idToken != "" || e.refreshToken != "" ==> t.disk == s.disk[key := Record(e.idToken, e.refreshToken)])
            && (e.idToken == "" && e.refreshToken == "" ==> t.disk == s.disk)
  {
  }
}
