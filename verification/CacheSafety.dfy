/**
 * What the bounded cache keeps in every run whatever the tokens are, and exactly when a caller can
 * tell that a manager has been evicted.
 */
module CacheSafety {
  import opened Common
  import opened LoginStates
  import opened TokenManagers
  import opened ManagerCache
  import opened CacheKeys
  import opened CacheRefinement

  // ------------------------------------------------------------------ The count, over all runs

  lemma GetOrCreateCount(s: Server, key: string, now: int, jwt: Jwt, victim: string)
    requires CountExact(s) && MayEvict(s, victim)
    ensures CountExact(GetOrCreate(s, key, now, jwt, victim).0)
  {
    hide MayEvict, LoadedEntry, AdmitLoaded, CountExact;
    if key in s.disk {
      AdmissionExact(s, key, Manager(LoadedEntry(s.disk[key], now, jwt), Unix(now)), victim);
    }
  }

  lemma EntryCount(s: Server, key: string, m: Manager, disk: map<string, Record>, states: Entries)
    requires CountExact(s) && key in s.managers
    ensures CountExact(s.(managers := s.managers[key := m], disk := disk, states := states))
  {
    InsertCard(s.managers, key, m);
  }

  lemma GetCount(s: Server, op: Request, jwt: Jwt)
    requires op.Get? && CountExact(s) && Picks(s, op)
    ensures CountExact(GetToken(s, op.key, op.force, op.now, op.grant, jwt, op.victim).0)
  {
    hide GetOrCreate, Apply, Seen, Settle, ValidCacheKey, Oldest;
    var settled := s.(states := Settle(s.states, op.key, op.now));
    GetOrCreateCount(settled, op.key, op.now, jwt, op.victim);
    var (found, ok) := GetOrCreate(settled, op.key, op.now, jwt, op.victim);
    if ok {
      TouchCount(found, op.key, op.now);
      var touched := Touch(found, op.key, op.now);
      RefreshCount(SetKeyState(touched, op.key, Refreshing, op.now), op.key, op.grant);
      hide Touch, Refresh;
    }
  }

  lemma TouchCount(s: Server, key: string, now: int)
    requires CountExact(s) && key in s.managers
    ensures CountExact(Touch(s, key, now)) && key in Touch(s, key, now).managers
  {
    EntryCount(s, key, s.managers[key].(lastAccess := Unix(now)), s.disk, s.states);
  }

  lemma RefreshCount(s: Server, key: string, g: Grant)
    requires CountExact(s) && key in s.managers
    ensures CountExact(Refresh(s, key, g).0)
  {
    var m := Refresh(s, key, g).0.managers[key];
    EntryCount(s, key, m, Refresh(s, key, g).0.disk, s.states);
    assert s.managers[key := s.managers[key]] == s.managers;
  }

  lemma StoreCount(s: Server, op: Request, jwt: Jwt)
    requires op.Store? && CountExact(s) && Picks(s, op)
    ensures CountExact(StoreToken(s, op.key, op.record, op.now, jwt, op.victim).0)
    ensures StoreToken(s, op.key, op.record, op.now, jwt, op.victim).1 != Rejected
  {
    hide AdmitStored, Apply, ValidCacheKey, MayEvict;
    if jwt(op.record.idToken).Some? {
      var entry := Entry(op.record.idToken, op.record.refreshToken, jwt(op.record.idToken).value);
      AdmissionExact(s, op.key, Manager(entry, Unix(op.now)), op.victim);
    }
  }

  lemma CheckCount(s: Server, key: string, now: int, jwt: Jwt)
    requires CountExact(s)
    ensures CountExact(Check(s, key, now, jwt).0)
  {
    hide Apply, Seen, Settle, ValidCacheKey, CheckDisk, NotReady;
    if key in s.managers { TouchCount(s, key, now); }
  }

  lemma CountStep(s: Server, op: Request, jwt: Jwt)
    requires CountExact(s) && Picks(s, op)
    ensures CountExact(Next(s, op, jwt).0) && Next(s, op, jwt).1 != Replied(Rejected)
  {
    hide CountExact, Picks, StoreToken, GetToken, Refresh, Check, Evict, Apply;
    match op
    case Store(_, _, _, _) => StoreCount(s, op, jwt);
    case Get(_, _, _, _, _) =>
      GetCount(s, op, jwt);
      GetNeverRejects(s, op, jwt);
    case BackgroundRefresh(k, g) => if k in s.managers { RefreshCount(s, k, g); }
    case CheckKey(k, now) => CheckCount(s, k, now, jwt);
    case _ => SameCount(s, Next(s, op, jwt).0);
  }

  lemma SameCount(s: Server, t: Server)
    requires CountExact(s) && t.managers == s.managers && t.count == s.count
    ensures CountExact(t)
  {
  }

  lemma GetNeverRejects(s: Server, op: Request, jwt: Jwt)
    requires op.Get?
    ensures GetToken(s, op.key, op.force, op.now, op.grant, jwt, op.victim).1 != Rejected
  {
    hide GetOrCreate, Apply, Seen, Settle, ValidCacheKey;
  }

  /**
   * Whatever the requests, the tokens and the files: in every reachable state the count is the
   * number of managers and at most 256, there is always room or a manager to evict, and no request
   * is rejected for want of one.
   */
  lemma {:induction false} CountRun(r: ServerRun, jwt: Jwt, i: nat)
    requires IsServerRun(r, jwt) && i < |r.servers| && CountExact(r.servers[0])
    ensures CountExact(r.servers[i])
    ensures i < |r.ops| ==> r.answers[i] != Replied(Rejected)
    ensures i < |r.ops| && (r.ops[i].Store? || r.ops[i].Get?) ==> MakeRoom(r.servers[i], r.ops[i].victim).Some?
  {
    hide Next, CountExact, MayEvict, MakeRoom;
    if i > 0 {
      CountRun(r, jwt, i - 1);
      CountStep(r.servers[i - 1], r.ops[i - 1], jwt);
    }
    if i < |r.ops| {
      assert Picks(r.servers[i], r.ops[i]);
      CountStep(r.servers[i], r.ops[i], jwt);
      if r.ops[i].Store? || r.ops[i].Get? { MakeRoomExact(r.servers[i], r.ops[i].victim); }
    }
  }

  // ------------------------------------------------------------------ The count, section by section

  /**
   * What the handlers do in one piece: the two admissions under the manager mutex, and the accesses
   * to single managers, the disk and the login states around them. Any number of handlers take
   * these in any order, so an admission meets whatever the others have made of the cache.
   */
  datatype Section =
    | AdmitFromDisk(key: string, manager: Manager, victim: string)
    | AdmitFromStore(key: string, manager: Manager, victim: string)
    | Install(key: string, entry: Entry)
    | Access(key: string, now: int)
    | Write(key: string, record: Record)
    | SetStates(states: Entries)

  /** None is the rejection for want of an evictable manager. */
  function Perform(s: Server, x: Section): Option<Server> {
    match x
    case AdmitFromDisk(k, m, victim) => AdmitLoaded(s, k, m, victim)
    case AdmitFromStore(k, m, victim) => if k in s.managers then Some(s) else AdmitLoaded(s, k, m, victim)
    case Install(k, e) =>
      Some(if k in s.managers then s.(managers := s.managers[k := s.managers[k].(entry := e)]) else s)
    case Access(k, now) => Some(if k in s.managers then Touch(s, k, now) else s)
    case Write(k, r) => Some(s.(disk := s.disk[k := r]))
    case SetStates(states) => Some(s.(states := states))
  }

  /** An admission that evicts picks a least recently used manager. */
  predicate PicksIn(s: Server, x: Section) {
    x.AdmitFromDisk? || x.AdmitFromStore? ==> MayEvict(s, x.victim)
  }

  lemma SectionCount(s: Server, x: Section)
    requires CountExact(s) && PicksIn(s, x)
    ensures Perform(s, x).Some? && CountExact(Perform(s, x).value)
    ensures x.AdmitFromDisk? || x.AdmitFromStore? ==> x.key in Perform(s, x).value.managers
  {
    hide CountExact, MayEvict, AdmitLoaded, Touch;
    match x
    case AdmitFromDisk(k, m, victim) => AdmissionExact(s, k, m, victim);
    case AdmitFromStore(k, m, victim) => AdmissionExact(s, k, m, victim);
    case Install(k, e) => if k in s.managers { EntryCount(s, k, s.managers[k].(entry := e), s.disk, s.states); }
    case Access(k, now) => if k in s.managers { TouchCount(s, k, now); }
    case _ => SameCount(s, Perform(s, x).value);
  }

  datatype SectionRun = SectionRun(servers: seq<Server>, sections: seq<Section>)

  ghost predicate IsSectionRun(r: SectionRun) {
    && |r.servers| == |r.sections| + 1
    && forall i {:trigger r.sections[i]} | 0 <= i < |r.sections| ::
         && PicksIn(r.servers[i], r.sections[i])
         && r.servers[i + 1] == (var next := Perform(r.servers[i], r.sections[i]);
                                 if next.Some? then next.value else r.servers[i])
  }

  /**
   * However the sections of any number of handlers interleave, the count is the number of managers
   * and at most 256, no admission is rejected, and each leaves its key in the cache.
   */
  lemma {:induction false} CountBySections(r: SectionRun, i: nat)
    requires IsSectionRun(r) && i < |r.servers| && CountExact(r.servers[0])
    ensures CountExact(r.servers[i])
    ensures i < |r.sections| ==> Perform(r.servers[i], r.sections[i]).Some?
    ensures i < |r.sections| && (r.sections[i].AdmitFromDisk? || r.sections[i].AdmitFromStore?) ==>
              r.sections[i].key in r.servers[i + 1].managers
  {
    hide CountExact, Perform, PicksIn;
    if i > 0 {
      CountBySections(r, i - 1);
      assert PicksIn(r.servers[i - 1], r.sections[i - 1]);
      SectionCount(r.servers[i - 1], r.sections[i - 1]);
    }
    if i < |r.sections| {
      assert PicksIn(r.servers[i], r.sections[i]);
      SectionCount(r.servers[i], r.sections[i]);
    }
  }

  /** Performs sections one after the other; a rejection ends the handler. */
  function PerformAll(s: Server, xs: seq<Section>): Server
    decreases |xs|
  {
    if xs == [] || Perform(s, xs[0]).None? then s else PerformAll(Perform(s, xs[0]).value, xs[1..])
  }

  /** The store handler of the atomic model is its sections in a row. */
  lemma StoreIsSections(s: Server, key: string, r: Record, now: int, jwt: Jwt, victim: string)
    requires CountExact(s) && MayEvict(s, victim) && Acceptable(key, r, jwt)
    ensures var e := Entry(r.idToken, r.refreshToken, jwt(r.idToken).value);
            var t := StoreToken(s, key, r, now, jwt, victim).0;
            var admit := AdmitFromStore(key, Manager(e, Unix(now)), victim);
            && Perform(s, admit).Some?
            && t == PerformAll(s, [admit, Install(key, e), Write(key, r),
                                   SetStates(Perform(s, admit).value.states[key := StateEntry(Valid, 0)])])
  {
    var e := Entry(r.idToken, r.refreshToken, jwt(r.idToken).value);
    var m := Manager(e, Unix(now));
    var t := StoreToken(s, key, r, now, jwt, victim).0;
    StoredInTwo(s, key, m, victim);
    hide CountExact, MayEvict, ValidCacheKey, AdmitStored, AdmitLoaded;
    var one := Perform(s, AdmitFromStore(key, m, victim)).value;
    var two := Perform(one, Install(key, e)).value;
    FourSections(s, AdmitFromStore(key, m, victim), Install(key, e), Write(key, r), SetStates(t.states), one, two,
                 two.(disk := two.disk[key := r]), t);
  }

  /** Admitting a stored token is the locked section, then the update of the manager that is there. */
  lemma StoredInTwo(s: Server, key: string, m: Manager, victim: string)
    requires CountExact(s) && MayEvict(s, victim)
    ensures var one := Perform(s, AdmitFromStore(key, m, victim));
            one.Some? && AdmitStored(s, key, m, victim) == Perform(one.value, Install(key, m.entry))
  {
    AdmissionExact(s, key, m, victim);
    if key !in s.managers { AdmittedManager(s, key, m, victim); }
    hide CountExact, MayEvict, AdmitLoaded;
    var one := Perform(s, AdmitFromStore(key, m, victim)).value;
    if key !in s.managers {
      assert one.managers[key := one.managers[key].(entry := m.entry)] == one.managers;
    }
  }

  lemma AdmittedManager(s: Server, key: string, m: Manager, victim: string)
    requires AdmitLoaded(s, key, m, victim).Some? && key !in s.managers
    ensures var t := AdmitLoaded(s, key, m, victim).value; key in t.managers && t.managers[key] == m
  {
  }

  lemma FourSections(s: Server, a: Section, b: Section, c: Section, d: Section, s1: Server, s2: Server, s3: Server,
                     s4: Server)
    requires Perform(s, a) == Some(s1) && Perform(s1, b) == Some(s2) && Perform(s2, c) == Some(s3)
             && Perform(s3, d) == Some(s4)
    ensures PerformAll(s, [a, b, c, d]) == s4
  {
    hide Perform;
    assert [a, b, c, d][1..] == [b, c, d] && [b, c, d][1..] == [c, d] && [c, d][1..] == [d] && [d][1..] == [];
    assert PerformAll(s3, [d]) == PerformAll(s4, []) == s4;
    assert PerformAll(s2, [c, d]) == PerformAll(s3, [d]);
    assert PerformAll(s1, [b, c, d]) == PerformAll(s2, [c, d]);
  }

  // ------------------------------------------------------------------ Nothing is lost without empty refresh tokens

  ghost predicate Rich(managers: map<string, Manager>, disk: map<string, Record>) {
    && (forall k <- managers :: managers[k].entry.refreshToken != "")
    && (forall k <- disk :: disk[k].refreshToken != "")
  }

  lemma RichGet(s: Server, op: Request, jwt: Jwt)
    requires op.Get? && Rich(s.managers, s.disk)
    ensures var t := GetToken(s, op.key, op.force, op.now, op.grant, jwt, op.victim).0; Rich(t.managers, t.disk)
  {
    hide Apply, Seen, Settle, ValidCacheKey, GetOrCreate;
    var settled := s.(states := Settle(s.states, op.key, op.now));
    RichLoad(settled, op.key, op.now, jwt, op.victim);
  }

  lemma RichLoad(s: Server, key: string, now: int, jwt: Jwt, victim: string)
    requires Rich(s.managers, s.disk)
    ensures var t := GetOrCreate(s, key, now, jwt, victim).0; Rich(t.managers, t.disk)
  {
    hide Apply;
  }

  lemma RichStep(s: Server, op: Request, jwt: Jwt)
    requires Rich(s.managers, s.disk) && (op.Store? ==> op.record.refreshToken != "")
    ensures var t := Next(s, op, jwt).0; Rich(t.managers, t.disk)
  {
    if op.Get? {
      RichGet(s, op, jwt);
      hide GetToken, Rich;
    } else {
      hide Apply, Seen, Settle, ValidCacheKey, GetToken, Evict, CheckDisk, NotReady;
    }
  }

  /** If no empty refresh token is on disk at the start or stored, no key is ever lost: the map alone decides. */
  lemma {:induction false} NothingLost(r: ServerRun, jwt: Jwt, i: nat)
    requires IsServerRun(r, jwt) && i < |r.servers| && Rich(r.servers[0].managers, r.servers[0].disk)
    requires forall m | 0 <= m < i :: r.ops[m].Store? ==> r.ops[m].record.refreshToken != ""
    ensures Rich(r.servers[i].managers, r.servers[i].disk) && forall k :: !Lost(r.servers[i], k)
  {
    hide Next, Picks;
    if i > 0 {
      NothingLost(r, jwt, i - 1);
      RichStep(r.servers[i - 1], r.ops[i - 1], jwt);
    }
  }

  // ------------------------------------------------------------------ Who can tell that a manager is gone

  /**
   * A ready check with a valid refresh token is kept by a get at the same clock reading: it
   * answers with the same expiry, from memory or from disk, and even when it must evict.
   */
  lemma ReadyMeansToken(s: Server, key: string, now: int, g: Grant, jwt: Jwt, victim: string)
    requires CountExact(s) && MayEvict(Check(s, key, now, jwt).0, victim)
    requires Seen(s.states, key, now).state != LoginInProgress
    requires var status := Check(s, key, now, jwt).1;
             status.Some? && status.value.ready && status.value.refreshTokenValid == Some(true)
    ensures var (checked, status) := Check(s, key, now, jwt);
            var reply := GetToken(checked, key, false, now, g, jwt, victim).1;
            reply.Token? && Some(reply.expiry) == status.value.expiry
  {
    hide Apply, Oldest;
    var (checked, status) := Check(s, key, now, jwt);
    if key in s.managers {
      ReadyInMemory(s, key, now);
    } else {
      MakeRoomExact(checked.(states := Settle(checked.states, key, now)), victim);
    }
  }

  /** A ready answer from memory leaves the entry in place and no login in progress. */
  lemma ReadyInMemory(s: Server, key: string, now: int)
    requires key in s.managers && CheckMemory(s, key, now).1.ready
    ensures var (t, reply) := CheckMemory(s, key, now);
            && key in t.managers && t.managers[key].entry == s.managers[key].entry
            && now <= s.managers[key].entry.expiry && reply.expiry == Some(s.managers[key].entry.expiry)
            && Seen(t.states, key, now).state == Valid
  {
    hide Apply;
  }

  /**
   * Evicting a manager is invisible to the next get of its key, forced or not, expired or not,
   * exactly when its refresh token is not empty and no login of the key is in progress: without
   * one the daemon asks for a login, and the eviction also forgets that a login has begun.
   */
  lemma EvictionVisibleIff(s: Server, key: string, force: bool, now: int, g: Grant, jwt: Jwt, victim: string)
    requires CountExact(s) && key in s.managers && ValidCacheKey(key)
    requires var e := s.managers[key].entry; e.idToken != "" && jwt(e.idToken) == Some(e.expiry)
    requires MayEvict(EvictManager(s, key), victim)
    ensures GetToken(EvictManager(s, key), key, force, now, g, jwt, victim).1
            == GetToken(s, key, force, now, g, jwt, victim).1
            <==> s.managers[key].entry.refreshToken != "" && Seen(s.states, key, now).state != LoginInProgress
  {
    RemoveCard(s.managers, key);
  }

  /**
   * Evicting a manager is invisible to the next check of its key exactly when the token is good
   * and the state is VALID, or the token has expired, there is no refresh token and the state is
   * VALID or NEEDS_LOGIN.
   */
  lemma EvictionCheckIff(s: Server, key: string, now: int, jwt: Jwt)
    requires key in s.managers && ValidCacheKey(key) && WellFormed(s.states)
    requires var e := s.managers[key].entry; e.idToken != "" && jwt(e.idToken) == Some(e.expiry)
    ensures var state := Seen(s.states, key, now).state;
            Check(EvictManager(s, key), key, now, jwt).1 == Check(s, key, now, jwt).1
            <==> if now <= s.managers[key].entry.expiry then state == Valid
                 else s.managers[key].entry.refreshToken == "" && (state == Valid || state == NeedsLogin)
  {
    var gone := EvictManager(s, key);
    assert Seen(gone.states, key, now) == IDLE;
    hide Apply;
  }
}
