/**
 * The server object of pkg/daemon/server.go, updating its cache, its count, its state manager and
 * the disk in place. Each handler is proved to compute the function of the same step.
 */
module DaemonServers {
  import opened Common
  import opened LoginStates
  import opened TokenManagers
  import opened ManagerCache
  import opened CacheKeys

  /** A cache that is not empty has a least recently used manager. */
  lemma {:induction false} OldestExists(managers: map<string, Manager>) returns (k: string)
    requires managers != map[]
    ensures Oldest(managers, k)
    decreases |managers|
  {
    k :| k in managers;
    var first, rest := k, managers - {k};
    assert forall other | other in managers && other != first :: other in rest;
    if rest != map[] {
      RemoveCard(managers, first);
      var best := OldestExists(rest);
      if managers[best].lastAccess < managers[first].lastAccess {
        k := best;
      }
    }
  }

  /** `order` is the order in which this range over the cache happens to visit the keys. */
  ghost predicate Ranges(order: seq<string>, managers: map<string, Manager>) {
    forall k :: k in order <==> k in managers
  }

  class DaemonServer {
    var managers: map<string, Manager>
    var managerCount: int
    var disk: map<string, Record>
    const states: StateManager

    ghost function Value(): Server
      reads this, states
    {
      Server(managers, managerCount, disk, states.entries)
    }

    constructor (records: map<string, Record>)
      ensures Value() == Server(map[], 0, records, map[]) && fresh(states)
    {
      managers, managerCount, disk := map[], 0, records;
      states := new StateManager();
    }

    method PersistToken(key: string, idToken: string, refreshToken: string)
      modifies this`disk
      ensures disk == old(disk)[key := Record(idToken, refreshToken)]
    {
      disk := disk[key := Record(idToken, refreshToken)];
    }

    method EvictOldestManagerLocked(order: seq<string>) returns (ok: bool, ghost victim: string)
      requires Ranges(order, managers)
      modifies this, states
      ensures ok == (old(managers) != map[])
      ensures if ok then Oldest(old(managers), victim) && Value() == EvictManager(old(Value()), victim)
              else Value() == old(Value()) && victim !in managers
    {
      var oldest: Option<string> := None;
      var oldestAccess := 0;
      for i := 0 to |order|
        invariant oldest.None? <==> i == 0
        invariant oldest.Some? ==> oldest.value in managers && managers[oldest.value].lastAccess == oldestAccess
        invariant forall k | k in order[..i] :: k in managers && oldestAccess <= managers[k].lastAccess
      {
        var access := managers[order[i]].lastAccess;
        if oldest.None? || access < oldestAccess {
          oldest, oldestAccess := Some(order[i]), access;
        }
      }
      assert order[..|order|] == order;
      if oldest.None? {
        assert managers == map[];
        return false, "";
      }
      var key := oldest.value;
      var entry := managers[key].entry;
      PersistToken(key, entry.idToken, entry.refreshToken);
      managers := managers - {key};
      managerCount := managerCount - 1;
      states.Delete(key);
      return true, key;
    }

    method GetOrCreateTokenManager(key: string, now: int, jwt: Jwt, order: seq<string>)
      returns (found: bool, ghost victim: string)
      requires Ranges(order, managers)
      modifies this, states
      ensures MayEvict(old(Value()), victim)
      ensures (Value(), found) == GetOrCreate(old(Value()), key, now, jwt, victim)
    {
      victim := "";
      if managers != map[] {
        victim := OldestExists(managers);
      }
      if key in managers {
        return true, victim;
      }
      if key !in disk || disk[key].refreshToken == "" {
        return false, victim;
      }
      var idToken, refreshToken := disk[key].idToken, disk[key].refreshToken;
      var expiry := now;
      if idToken != "" {
        var claims := jwt(idToken);
        if claims.Some? {
          expiry := claims.value;
        }
      }
      var tm := Manager(Entry(idToken, refreshToken, expiry), Unix(now));
      if managerCount >= MAX_MANAGERS {
        var evicted;
        evicted, victim := EvictOldestManagerLocked(order);
        if !evicted {
          return false, victim;
        }
      }
      if key in managers {
        return true, victim;
      }
      managers := managers[key := tm];
      managerCount := managerCount + 1;
      return true, victim;
    }

    /** The coalesced refresh of one cached manager. */
    method RefreshManager(key: string, g: Grant) returns (reply: Reply)
      requires key in managers
      modifies this
      ensures (Value(), reply) == Refresh(old(Value()), key, g)
    {
      var held := managers[key].entry.refreshToken;
      if held == "" {
        return RefreshError(RefreshFailed);
      }
      if g.Failed? {
        return RefreshError(CodeOf(g.cause));
      }
      var newRT := g.refreshToken;
      if newRT == "" {
        newRT := held;
      }
      managers := managers[key := managers[key].(entry := Entry(g.idToken, newRT, g.expiry))];
      PersistToken(key, g.idToken, newRT);
      return Token(g.idToken, g.expiry);
    }

    method HandleGetToken(key: string, force: bool, now: int, g: Grant, jwt: Jwt, order: seq<string>)
      returns (reply: Reply, ghost victim: string)
      requires Ranges(order, managers)
      modifies this, states
      ensures MayEvict(old(Value()), victim)
      ensures (Value(), reply) == GetToken(old(Value()), key, force, now, g, jwt, victim)
    {
      hide GetOrCreate, Refresh, Seen, Settle, ValidCacheKey;
      if !ValidCacheKey(key) {
        victim := AnyVictim();
        return BadRequest, victim;
      }
      var state, loginStarted := states.Get(key, now);
      if state == LoginInProgress {
        victim := AnyVictim();
        return LoginBusy(loginStarted), victim;
      }
      var found;
      found, victim := GetOrCreateTokenManager(key, now, jwt, order);
      if !found {
        states.Set(key, NeedsLogin, now);
        return NeedsAuth, victim;
      }
      managers := managers[key := managers[key].(lastAccess := Unix(now))];
      var entry := managers[key].entry;
      if now <= entry.expiry && !force {
        states.Set(key, Valid, now);
        return Token(entry.idToken, entry.expiry), victim;
      }
      states.Set(key, Refreshing, now);
      reply := RefreshManager(key, g);
      if !reply.Token? {
        states.Set(key, NeedsLogin, now);
        return reply, victim;
      }
      states.Set(key, Valid, now);
    }

    lemma AnyVictim() returns (victim: string)
      ensures MayEvict(Value(), victim)
    {
      victim := "";
      if managers != map[] {
        victim := OldestExists(managers);
      }
    }

    method HandleStoreToken(key: string, r: Record, now: int, jwt: Jwt, order: seq<string>)
      returns (reply: Reply, ghost victim: string)
      requires Ranges(order, managers)
      modifies this, states
      ensures MayEvict(old(Value()), victim)
      ensures (Value(), reply) == StoreToken(old(Value()), key, r, now, jwt, victim)
    {
      victim := AnyVictim();
      if !ValidCacheKey(key) {
        return BadRequest, victim;
      }
      if r.idToken == "" {
        return BadRequest, victim;
      }
      if |r.idToken| > MAX_TOKEN_SIZE || |r.refreshToken| > MAX_TOKEN_SIZE {
        return BadRequest, victim;
      }
      var claims := jwt(r.idToken);
      if claims.None? {
        return BadRequest, victim;
      }
      var entry := Entry(r.idToken, r.refreshToken, claims.value);
      if key !in managers && managerCount >= MAX_MANAGERS {
        var evicted;
        evicted, victim := EvictOldestManagerLocked(order);
        if !evicted {
          return Rejected, victim;
        }
      }
      if key in managers {
        managers := managers[key := managers[key].(entry := entry)];
      } else {
        managers := managers[key := Manager(entry, Unix(now))];
        managerCount := managerCount + 1;
      }
      PersistToken(key, r.idToken, r.refreshToken);
      states.Complete(key);
      return Token(r.idToken, claims.value), victim;
    }

    method HandleCheck(key: string, now: int, jwt: Jwt) returns (reply: Option<CheckReply>)
      modifies this, states
      ensures (Value(), reply) == Check(old(Value()), key, now, jwt)
    {
      if key != "" && !ValidCacheKey(key) {
        return None;
      }
      if key == "" {
        return Some(NO_KEY);
      }
      if key !in managers && key in disk && (disk[key].idToken != "" || disk[key].refreshToken != "") {
        var expiry := None;
        if disk[key].idToken != "" {
          expiry := jwt(disk[key].idToken);
        }
        var hasValidToken := expiry.Some? && now <= expiry.value;
        var hasRefreshToken := disk[key].refreshToken != "";
        if hasValidToken {
          return Some(CheckReply(true, Known(Valid), expiry, Some(hasRefreshToken), None, None));
        } else if hasRefreshToken {
          return Some(CheckReply(false, NeedsRefresh, None, Some(hasRefreshToken), None, None));
        }
      }
      var state, loginStarted := states.Get(key, now);
      var started := if loginStarted != 0 then Some(loginStarted) else None;
      if state == Valid {
        if key in managers {
          managers := managers[key := managers[key].(lastAccess := Unix(now))];
          var entry := managers[key].entry;
          if now <= entry.expiry {
            var rtValid := entry.refreshToken != "";
            return Some(CheckReply(true, Known(Valid), Some(entry.expiry), Some(rtValid), started, None));
          }
        }
        states.Set(key, NeedsLogin, now);
        return Some(CheckReply(false, Known(NeedsLogin), None, None, started, Some(LoginNeeded)));
      }
      var code := None;
      if state == NeedsLogin {
        code := Some(LoginNeeded);
      } else if state == LoginInProgress {
        code := Some(LoginPending);
      }
      return Some(CheckReply(false, Known(state), None, None, started, code));
    }

    method HandleBeginLogin(key: string, now: int, started: int) returns (reply: Reply)
      modifies states
      ensures (Value(), reply) == BeginLoginOn(old(Value()), key, now, started)
    {
      if !ValidCacheKey(key) {
        return BadRequest;
      }
      var ok, loginStarted := states.Begin(key, now, started);
      if !ok {
        return LoginBusy(loginStarted);
      }
      return LoginBegun;
    }

    method HandleCancelLogin(key: string) returns (reply: Reply)
      modifies states
      ensures (Value(), reply) == CancelLoginOn(old(Value()), key)
    {
      if !ValidCacheKey(key) {
        return BadRequest;
      }
      states.Cancel(key);
      return LoginCancelled;
    }
  }
}
