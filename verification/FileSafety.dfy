/**
 * What holds in every run of the writers and loaders of token files: the files are a register, loads
 * are atomic, and exactly which files are deleted or left behind.
 */
module FileSafety {
  import opened Common
  import opened CacheKeys
  import opened TokenFiles
  import opened FileRuns

  /** The step renames a record into place for a key. */
  predicate Renames(s: State, a: Action, key: string) {
    a.WriterStep? && a.ok && a.w in s.writers && s.writers[a.w].stage.Closed? && s.writers[a.w].key == key
  }

  /** The step removes a key's file because of what was read from it. */
  predicate Discards(s: State, a: Action, key: string, c: Codec) {
    && a.LoaderStep? && a.ok && a.l in s.loaders && s.loaders[a.l].HasRead? && s.loaders[a.l].key == key
    && Judge(s.loaders[a.l].content, c).LoadError?
  }

  /** A writer's step changes what is held only by its rename. */
  lemma WriterRegister(s: State, w: nat, ok: bool, n: nat, suffix: string, c: Codec, key: string)
    requires Inv(s, c) && ValidCacheKey(key) && Enabled(s, WriterStep(w, ok, n, suffix), c)
    ensures Held(StepWriter(s, w, ok, n, suffix, c), key) ==
            if Renames(s, WriterStep(w, ok, n, suffix), key) then Some(s.writers[w].record) else Held(s, key)
  {
    var me := s.writers[w];
    OwnSound(s, w, c);
    match me.stage
    case Starting =>
      if ok { CreateRegister(s, w, suffix, key); }
      hide Inv, Held, CreateTemp;
    case Closed =>
      if ok { RenameRegister(s, w, c, key); }
      hide Inv, Held, Rename;
    case Removing =>
      OwnIsNotFinal(me, key);
      hide Inv, FinalName, TempName;
    case _ =>
      hide Inv, FinalName, TempName, Encode;
  }

  lemma OwnIsNotFinal(me: Writer, key: string)
    requires ValidCacheKey(me.key) && ValidCacheKey(key)
    ensures FinalName(key) != me.Temp()
  {
    TempIsNotFinal(me.key, me.suffix);
    FinalNameIsFinal(key);
  }

  lemma CreateRegister(s: State, w: nat, suffix: string, key: string)
    requires w in s.writers && ValidCacheKey(s.writers[w].key) && ValidCacheKey(key)
    ensures Held(CreateTemp(s, w, suffix), key) == Held(s, key)
  {
    OwnIsNotFinal(s.writers[w].(suffix := suffix), key);
    hide FinalName, TempName;
  }

  lemma RenameRegister(s: State, w: nat, c: Codec, key: string)
    requires Inv(s, c) && w in s.writers && ValidCacheKey(key) && s.writers[w].stage.Closed?
    ensures Held(Rename(s, w), key) == if s.writers[w].key == key then Some(s.writers[w].record) else Held(s, key)
  {
    var me := s.writers[w];
    OwnSound(s, w, c);
    OwnIsNotFinal(me, key);
    if FinalName(key) == FinalName(me.key) { FinalNameInjective(key, me.key); }
    HeldExact(s, key, c);
    hide Inv, FinalName, TempName, Encode, ValidCacheKey;
  }

  /** What a crash leaves for a key was published for it before; a rooted key is not lost. */
  lemma CrashRegister(s: State, garbled: map<nat, Bytes>, left: Names, c: Codec, key: string)
    requires Inv(s, c) && ValidCacheKey(key) && Survives(s, left)
    ensures var held := Held(AfterCrash(s, garbled, left), key);
            && (held.Some? ==> exists i :: i in s.published && s.published[i] == Publication(key, held.value))
            && (key in s.rooted ==> held.Some?)
  {
    FinalNameIsFinal(key);
    if FinalName(key) in left { FinalNameInjective(s.published[left[FinalName(key)]].key, key); }
    hide Inv, IsFinal, FinalName;
  }

  /** Between crashes only a rename for a key, or a load that rejects its file, changes what is held for it. */
  lemma RegisterStep(s: State, a: Action, c: Codec, key: string)
    requires Inv(s, c) && ValidCacheKey(key) && Enabled(s, a, c) && !a.Crash?
    ensures Held(Next(s, a, c), key) ==
            if Renames(s, a, key) then Some(s.writers[a.w].record)
            else if Discards(s, a, key, c) then None
            else Held(s, key)
  {
    hide Held, StepWriter, StepLoader, Inv, Renames, Discards;
    NoDiscard(s, a, key, c);
    if a.WriterStep? {
      WriterRegister(s, a.w, a.ok, a.count, a.suffix, c, key);
    } else if a.LoaderStep? {
      LoaderRegister(s, a.l, a.ok, c, key);
    } else if a.Cleanup? {
      CleanupRegister(s, a.name, key);
    } else {
      SameRegister(s, Next(s, a, c), key);
    }
  }

  lemma NoDiscard(s: State, a: Action, key: string, c: Codec)
    ensures (Renames(s, a, key) ==> a.WriterStep?) && (Discards(s, a, key, c) ==> a.LoaderStep?)
  {
    hide Judge;
  }

  lemma SameRegister(s: State, n: State, key: string)
    requires n.dir == s.dir && n.published == s.published
    ensures Held(n, key) == Held(s, key)
  {
  }

  lemma LoaderRegister(s: State, l: nat, ok: bool, c: Codec, key: string)
    requires Enabled(s, LoaderStep(l, ok), c)
    ensures Held(StepLoader(s, l, ok, c), key) == if Discards(s, LoaderStep(l, ok), key, c) then None else Held(s, key)
  {
    if s.loaders[l].HasRead? && FinalName(s.loaders[l].key) == FinalName(key) {
      FinalNameInjective(s.loaders[l].key, key);
    }
    hide FinalName, Judge, Opens;
  }

  lemma CleanupRegister(s: State, name: string, key: string)
    requires LooksTemporary(name) && ValidCacheKey(key)
    ensures Held(s.(dir := s.dir - {name}), key) == Held(s, key)
  {
    FinalNameIsFinal(key);
    FinalIsNotTemporary(FinalName(key));
    hide LooksTemporary, FinalName, IsFinal;
  }

  /** The record was there for the key at the start, or was renamed into place by step k. */
  ghost predicate Origin(r: Run, k: int, key: string, record: Record)
    requires -1 <= k < |r.actions| < |r.states|
  {
    if k == -1 then Held(r.states[0], key) == Some(record)
    else Renames(r.states[k], r.actions[k], key) && r.states[k].writers[r.actions[k].w].record == record
  }

  lemma PublishedStep(s: State, a: Action, c: Codec, i: nat)
    requires Enabled(s, a, c) && i in Next(s, a, c).published
    ensures var p := Next(s, a, c).published[i];
            (i in s.published && s.published[i] == p) || (Renames(s, a, p.key) && s.writers[a.w].record == p.record)
  {
    hide Judge, Opens, Encode, Garble, Owned;
  }

  lemma {:induction false} PublishedOrigin(r: Run, i: nat, ino: nat, c: Codec) returns (k: int)
    requires IsRun(r, c) && i < |r.states| && ino in r.states[i].published
    ensures -1 <= k < i && Origin(r, k, r.states[i].published[ino].key, r.states[i].published[ino].record)
  {
    hide Next, Enabled, Renames, Linked, Whole, Bound;
    if i == 0 {
      k := -1;
    } else {
      PublishedStep(r.states[i - 1], r.actions[i - 1], c, ino);
      if ino in r.states[i - 1].published && r.states[i - 1].published[ino] == r.states[i].published[ino] {
        k := PublishedOrigin(r, i - 1, ino, c);
      } else {
        k := i - 1;
      }
    }
  }

  ghost predicate NoRename(r: Run, k: int, i: nat, key: string)
    requires -1 <= k && i <= |r.actions| < |r.states|
  {
    forall m: nat | k < m < i :: !Renames(r.states[m], r.actions[m], key)
  }

  ghost predicate CrashIn(r: Run, k: int, i: nat)
    requires -1 <= k && i <= |r.actions|
  {
    exists m: nat :: k < m < i && r.actions[m].Crash?
  }

  /**
   * The token files are a register: in every reachable state the file of a key holds, whole, the
   * record last renamed for it or the one that was there at the start, unless a crash since then
   * has brought back an earlier one, also whole.
   */
  lemma {:induction false} FilesAreRegister(r: Run, i: nat, key: string, c: Codec) returns (k: int)
    requires Lawful(c) && IsRun(r, c) && i < |r.states| && ValidCacheKey(key)
    ensures var s := r.states[i];
            && (FinalName(key) in s.dir <==> Held(s, key).Some?)
            && (FinalName(key) in s.dir ==> s.dir[FinalName(key)] in s.files
                                            && s.files[s.dir[FinalName(key)]].content == Encode(c, Held(s, key).value))
    ensures -1 <= k < i
    ensures Held(r.states[i], key).Some? ==>
              Origin(r, k, key, Held(r.states[i], key).value) && (NoRename(r, k, i, key) || CrashIn(r, k, i))
  {
    InvRun(r, i, c);
    HeldExact(r.states[i], key, c);
    if FinalName(key) in r.states[i].dir { PublishedWhole(r.states[i], r.states[i].dir[FinalName(key)], c); }
    hide Inv, Next, Enabled, Renames, Discards, Held, Starts, FinalName;
    k := -1;
    if Held(r.states[i], key).Some? {
      k := LastOrigin(r, i, key, c);
    }
  }

  lemma {:induction false} LastOrigin(r: Run, i: nat, key: string, c: Codec) returns (k: int)
    requires Lawful(c) && IsRun(r, c) && i < |r.states| && ValidCacheKey(key) && Held(r.states[i], key).Some?
    ensures -1 <= k < i && Origin(r, k, key, Held(r.states[i], key).value)
    ensures NoRename(r, k, i, key) || CrashIn(r, k, i)
  {
    hide Inv, Next, Enabled, Renames, Discards, Held, Starts;
    k := -1;
    if i > 0 {
      var s, a := r.states[i - 1], r.actions[i - 1];
      InvRun(r, i - 1, c);
      if a.Crash? {
        k := CrashOrigin(r, i - 1, key, c);
        assert r.actions[i - 1].Crash?;
      } else {
        RegisterStep(s, a, c, key);
        if Renames(s, a, key) {
          k := i - 1;
        } else {
          k := LastOrigin(r, i - 1, key, c);
        }
      }
    }
  }

  /** A crash brings back what was there at the start or was renamed into place before it. */
  lemma CrashOrigin(r: Run, i: nat, key: string, c: Codec) returns (k: int)
    requires Lawful(c) && IsRun(r, c) && i < |r.actions| && ValidCacheKey(key)
    requires r.actions[i].Crash? && Held(r.states[i + 1], key).Some?
    ensures -1 <= k < i && Origin(r, k, key, Held(r.states[i + 1], key).value)
  {
    InvRun(r, i, c);
    CrashRegister(r.states[i], r.actions[i].garbled, r.actions[i].left, c, key);
    hide Inv, Held, AfterCrash, Survives, Origin;
    var ino :| ino in r.states[i].published
        && r.states[i].published[ino] == Publication(key, Held(r.states[i + 1], key).value);
    k := PublishedOrigin(r, i, ino, c);
  }

  /** A token file that was there at the start is lost, crashes or not, only to a load that rejects it. */
  lemma {:induction false} NeverLost(r: Run, i: nat, key: string, c: Codec)
    requires Lawful(c) && IsRun(r, c) && i < |r.states| && ValidCacheKey(key) && Held(r.states[0], key).Some?
    requires forall m | 0 <= m < i :: !Discards(r.states[m], r.actions[m], key, c)
    ensures key in r.states[i].rooted && Held(r.states[i], key).Some?
  {
    hide Inv, Next, Enabled, Discards, Starts, Held;
    InvRun(r, i, c);
    if i == 0 {
      RootedStart(r.states[0], c, key);
    } else {
      NeverLost(r, i - 1, key, c);
      assert !Discards(r.states[i - 1], r.actions[i - 1], key, c);
      InvRun(r, i - 1, c);
      RootedStep(r.states[i - 1], r.actions[i - 1], c, key);
    }
    RootedHeld(r.states[i], c, key);
  }

  lemma RootedStart(s: State, c: Codec, key: string)
    requires Inv(s, c) && Starts(s, c) && ValidCacheKey(key) && Held(s, key).Some?
    ensures key in s.rooted
  {
    HeldExact(s, key, c);
    hide Inv, Linked, Whole, Bound, FinalName, IsFinal;
  }

  lemma RootedHeld(s: State, c: Codec, key: string)
    requires Inv(s, c) && ValidCacheKey(key) && key in s.rooted
    ensures Held(s, key).Some?
  {
    HeldExact(s, key, c);
    hide Linked, Whole, WritersSound, LoadersSound, Accounted, FinalName, IsFinal, Held;
  }

  lemma RootedStep(s: State, a: Action, c: Codec, key: string)
    requires Inv(s, c) && Enabled(s, a, c) && ValidCacheKey(key) && key in s.rooted && !Discards(s, a, key, c)
    ensures key in Next(s, a, c).rooted
  {
    if a.Crash? {
      FinalNameIsFinal(key);
      FinalNameInjective(s.published[a.left[FinalName(key)]].key, key);
      hide Inv, FinalName, IsFinal;
      assert a.left[FinalName(key)] in Remaining(s.published, a.left);
    } else {
      hide Inv, Judge, Opens, Encode, Owned, FinalName;
    }
  }

  // ------------------------------------------------------------------ What a load answers

  /** What a loader that has opened its file will return, if it returns a record. */
  function Promise(l: Loader): Option<Record> {
    match l
    case Opening(_) => None
    case Opened(_, _, expected) => Some(expected)
    case HasRead(_, _, expected) => Some(expected)
    case Returned(_, _, held) => held
  }

  ghost predicate OpensAt(r: Run, j: nat, l: nat, key: string)
    requires j < |r.actions| < |r.states|
  {
    && r.actions[j].LoaderStep? && r.actions[j].l == l
    && l in r.states[j].loaders && r.states[j].loaders[l] == Opening(key)
  }

  /** A call of loader l fails in the steps from j to i. */
  ghost predicate CallFails(r: Run, l: nat, j: nat, i: nat)
    requires i <= |r.actions|
  {
    exists m: nat :: j <= m < i && r.actions[m] == LoaderStep(l, false)
  }

  /** Why a load may end in an error: a bad key, a failed call, or a record over 10 MB. */
  ghost predicate MayFail(r: Run, l: nat, j: nat, i: nat, key: string, held: Option<Record>, c: Codec)
    requires i <= |r.actions|
  {
    !ValidCacheKey(key) || CallFails(r, l, j, i) || (held.Some? && !Fits(c, held.value))
  }

  lemma OpenPromises(s: State, key: string, ok: bool, c: Codec)
    requires Inv(s, c)
    ensures var n := Opens(s, key, ok);
            && n.key == key && !n.Opening? && Promise(n) == Held(s, key)
            && (n.Returned? && n.result.LoadError? ==> !ValidCacheKey(key) || !ok)
  {
    if ValidCacheKey(key) { HeldExact(s, key, c); }
    hide Inv, FinalName;
  }

  /** Only its own steps move a loader, and a crash ends it. */
  lemma LoaderStays(s: State, a: Action, c: Codec, l: nat)
    requires Enabled(s, a, c) && l in Next(s, a, c).loaders && !Next(s, a, c).loaders[l].Opening?
    ensures l in s.loaders
    ensures Next(s, a, c).loaders[l] == s.loaders[l]
            || (a.LoaderStep? && a.l == l && Next(s, a, c) == StepLoader(s, l, a.ok, c))
  {
    hide StepLoader, Encode, Owned, Garble, Judge;
    if a.LoaderStep? { OtherLoaders(s, a.l, a.ok, c); }
  }

  lemma OtherLoaders(s: State, l: nat, ok: bool, c: Codec)
    requires Enabled(s, LoaderStep(l, ok), c)
    ensures forall m | m != l :: m in StepLoader(s, l, ok, c).loaders <==> m in s.loaders
    ensures forall m | m != l && m in s.loaders :: StepLoader(s, l, ok, c).loaders[m] == s.loaders[m]
  {
    hide Judge, Opens;
  }

  /** A loader that has opened keeps its promise, and errs only for a failed call or an oversized file. */
  lemma PromiseKept(s: State, l: nat, ok: bool, c: Codec)
    requires Lawful(c) && Inv(s, c) && Enabled(s, LoaderStep(l, ok), c) && !s.loaders[l].Opening?
    requires l in StepLoader(s, l, ok, c).loaders
    ensures var before, after := s.loaders[l], StepLoader(s, l, ok, c).loaders[l];
            && !before.Returned? && after.key == before.key && Promise(after) == Promise(before)
            && (after.Returned? && after.result.LoadError? ==> !ok || !Fits(c, Promise(before).value))
  {
    assert LoaderSound(s.published, s.loaders[l], c);
    if s.loaders[l].HasRead? { JudgeExact(s.loaders[l].expected, c); }
    hide Inv, Judge, Encode, Fits;
  }

  /**
   * A load answers with what was held at the moment it opened the file: that record, whole, or
   * nothing if there was none. It ends in an error only for a bad key, a failed call of its own or
   * a record over 10 MB.
   */
  lemma {:induction false} LoadIsAtomic(r: Run, i: nat, l: nat, c: Codec) returns (j: nat)
    requires Lawful(c) && IsRun(r, c) && i < |r.states|
    requires l in r.states[i].loaders && !r.states[i].loaders[l].Opening?
    ensures j < i && OpensAt(r, j, l, r.states[i].loaders[l].key)
    ensures Promise(r.states[i].loaders[l]) == Held(r.states[j], r.states[i].loaders[l].key)
    ensures r.states[i].loaders[l].Returned? ==>
              var key, held := r.states[i].loaders[l].key, Held(r.states[j], r.states[i].loaders[l].key);
              match r.states[i].loaders[l].result
              case Loaded(record) => held == Some(record) && Fits(c, record)
              case Missing => held == None
              case LoadError => MayFail(r, l, j, i, key, held, c)
    decreases i
  {
    InvRun(r, i, c);
    assert LoaderSound(r.states[i].published, r.states[i].loaders[l], c);
    hide Inv, Next, Enabled, Starts, StepLoader, Fits, Held, MayFail;
    NoLoaders(r.states[0], c);
    var s, a := r.states[i - 1], r.actions[i - 1];
    LoaderStays(s, a, c, l);
    InvRun(r, i - 1, c);
    if s.loaders[l].Opening? {
      j := i - 1;
      FirstStep(r, j, l, c);
    } else {
      j := LoadIsAtomic(r, i - 1, l, c);
      NextStep(r, i - 1, j, l, c);
    }
  }

  lemma NoLoaders(s: State, c: Codec)
    requires Starts(s, c)
    ensures s.loaders == map[]
  {
  }

  lemma FirstStep(r: Run, j: nat, l: nat, c: Codec)
    requires IsRun(r, c) && j < |r.actions| && Inv(r.states[j], c) && l in r.states[j].loaders
             && r.states[j].loaders[l].Opening?
    requires r.actions[j].LoaderStep? && r.actions[j].l == l
             && r.states[j + 1] == StepLoader(r.states[j], l, r.actions[j].ok, c)
    ensures l in r.states[j + 1].loaders && OpensAt(r, j, l, r.states[j].loaders[l].key)
    ensures var before, after := r.states[j].loaders[l], r.states[j + 1].loaders[l];
            && after.key == before.key && Promise(after) == Held(r.states[j], before.key)
            && (after.Returned? && after.result.LoadError? ==>
                MayFail(r, l, j, j + 1, before.key, Held(r.states[j], before.key), c))
  {
    var a := r.actions[j];
    OpenPromises(r.states[j], r.states[j].loaders[l].key, a.ok, c);
    hide Inv, IsRun, Opens, Held, Fits, Judge;
    if !a.ok { assert r.actions[j] == LoaderStep(l, false); }
  }

  lemma NextStep(r: Run, i: nat, j: nat, l: nat, c: Codec)
    requires Lawful(c) && IsRun(r, c) && j <= i < |r.actions| && Inv(r.states[i], c)
    requires l in r.states[i].loaders && !r.states[i].loaders[l].Opening? && l in r.states[i + 1].loaders
    requires Enabled(r.states[i], r.actions[i], c)
    requires r.states[i + 1].loaders[l] == r.states[i].loaders[l]
             || (r.actions[i].LoaderStep? && r.actions[i].l == l
                 && r.states[i + 1] == StepLoader(r.states[i], l, r.actions[i].ok, c))
    requires var key, held := r.states[i].loaders[l].key, Promise(r.states[i].loaders[l]);
             r.states[i].loaders[l].Returned? && r.states[i].loaders[l].result.LoadError? ==>
                 MayFail(r, l, j, i, key, held, c)
    ensures var before, after := r.states[i].loaders[l], r.states[i + 1].loaders[l];
            && after.key == before.key && Promise(after) == Promise(before)
            && (after.Returned? && after.result.LoadError? ==> MayFail(r, l, j, i + 1, after.key, Promise(after), c))
  {
    hide Inv, StepLoader, Fits, Next, Enabled, Starts;
    var a := r.actions[i];
    if r.states[i + 1].loaders[l] != r.states[i].loaders[l] {
      PromiseKept(r.states[i], l, a.ok, c);
      if !a.ok { assert r.actions[i] == LoaderStep(l, false); }
    } else if CallFails(r, l, j, i) {
      var m: nat :| j <= m < i && r.actions[m] == LoaderStep(l, false);
      assert CallFails(r, l, j, i + 1);
    }
  }

  // ------------------------------------------------------------------ What is deleted and what is left behind

  /**
   * A load changes the directory if and only if it read a record over 10 MB and its removal
   * succeeds while the name is there; no other call removes a token file, save that a crash may.
   */
  lemma DeletesIff(r: Run, i: nat, c: Codec, key: string)
    requires Lawful(c) && IsRun(r, c) && i < |r.actions| && ValidCacheKey(key)
    ensures r.actions[i].LoaderStep? ==>
              var l := r.states[i].loaders[r.actions[i].l];
              r.states[i + 1].dir != r.states[i].dir
              <==> l.HasRead? && r.actions[i].ok && !Fits(c, l.expected) && FinalName(l.key) in r.states[i].dir
    ensures Held(r.states[i], key).Some? && Held(r.states[i + 1], key).None? ==>
              || r.actions[i].Crash?
              || (r.actions[i].LoaderStep? && r.states[i].loaders[r.actions[i].l].HasRead?
                  && r.states[i].loaders[r.actions[i].l].key == key
                  && !Fits(c, r.states[i].loaders[r.actions[i].l].expected))
  {
    InvRun(r, i, c);
    var s, a := r.states[i], r.actions[i];
    if a.LoaderStep? {
      assert LoaderSound(s.published, s.loaders[a.l], c);
      if s.loaders[a.l].HasRead? { JudgeExact(s.loaders[a.l].expected, c); }
      RemovesIff(s, a.l, a.ok, c);
    }
    if !a.Crash? { RegisterStep(s, a, c, key); }
    hide Inv, Judge, Encode, Fits, Held, FinalName, StepLoader, StepWriter;
  }

  lemma RemovesIff(s: State, l: nat, ok: bool, c: Codec)
    requires Enabled(s, LoaderStep(l, ok), c)
    ensures StepLoader(s, l, ok, c).dir != s.dir
            <==> s.loaders[l].HasRead? && ok && Judge(s.loaders[l].content, c).LoadError?
                 && FinalName(s.loaders[l].key) in s.dir
  {
    hide Judge, Opens, FinalName;
  }

  ghost predicate AllFit(s: State, c: Codec) {
    && (forall w <- s.writers :: Fits(c, s.writers[w].record))
    && (forall i <- s.published :: Fits(c, s.published[i].record))
    && (forall l <- s.loaders :: s.loaders[l].Opened? || s.loaders[l].HasRead? ==> Fits(c, s.loaders[l].expected))
  }

  lemma AllFitStep(s: State, a: Action, c: Codec)
    requires Inv(s, c) && Enabled(s, a, c) && AllFit(s, c) && (a.BeginWrite? ==> Fits(c, a.record))
    ensures AllFit(Next(s, a, c), c)
  {
    var n := Next(s, a, c);
    forall i | i in n.published ensures Fits(c, n.published[i].record) { PublishedStep(s, a, c, i); }
    forall w | w in n.writers ensures Fits(c, n.writers[w].record) { WriterRecords(s, a, c, w); }
    forall l | l in n.loaders && (n.loaders[l].Opened? || n.loaders[l].HasRead?)
      ensures Fits(c, n.loaders[l].expected)
    {
      LoaderStays(s, a, c, l);
      hide Next;
      if s.loaders[l].Opening? { OpenFits(s, s.loaders[l].key, a.ok, c); }
      hide Inv, Judge, Fits, Opens;
    }
    hide Next, Fits, Inv;
  }

  lemma WriterRecords(s: State, a: Action, c: Codec, w: nat)
    requires Enabled(s, a, c) && w in Next(s, a, c).writers
    ensures var record := Next(s, a, c).writers[w].record;
            (w in s.writers && s.writers[w].record == record) || (a.BeginWrite? && a.record == record)
  {
    hide StepLoader, StepWriter;
    if a.LoaderStep? { LoadersLeaveWriters(s, a.l, a.ok, c); }
    if a.WriterStep? { WritersKeepRecords(s, a.w, a.ok, a.count, a.suffix, c, w); }
  }

  lemma WritersKeepRecords(s: State, w: nat, ok: bool, n: nat, suffix: string, c: Codec, v: nat)
    requires Enabled(s, WriterStep(w, ok, n, suffix), c) && v in StepWriter(s, w, ok, n, suffix, c).writers
    ensures v in s.writers && StepWriter(s, w, ok, n, suffix, c).writers[v].record == s.writers[v].record
  {
    hide Encode, Possible;
    match s.writers[w].stage
    case Starting => hide Held;
    case _ => hide CreateTemp;
  }

  lemma LoadersLeaveWriters(s: State, l: nat, ok: bool, c: Codec)
    requires Enabled(s, LoaderStep(l, ok), c)
    ensures StepLoader(s, l, ok, c).writers == s.writers
  {
  }

  lemma OpenFits(s: State, key: string, ok: bool, c: Codec)
    requires Inv(s, c) && AllFit(s, c)
    ensures Opens(s, key, ok).Opened? ==> Fits(c, Opens(s, key, ok).expected)
  {
    if ValidCacheKey(key) { HeldExact(s, key, c); }
    hide Inv, Fits, FinalName;
  }

  lemma {:induction false} AllFitRun(r: Run, i: nat, c: Codec)
    requires Lawful(c) && IsRun(r, c) && i < |r.states| && AllFit(r.states[0], c)
    requires forall m | 0 <= m < i :: r.actions[m].BeginWrite? ==> Fits(c, r.actions[m].record)
    ensures AllFit(r.states[i], c)
  {
    hide Inv, Next, Enabled, AllFit, Fits, Starts;
    if i > 0 {
      AllFitRun(r, i - 1, c);
      InvRun(r, i - 1, c);
      AllFitStep(r.states[i - 1], r.actions[i - 1], c);
    }
  }

  /** As long as every record fits, no load deletes anything and only a crash takes a token file away. */
  lemma NothingDeleted(r: Run, i: nat, c: Codec, key: string)
    requires Lawful(c) && IsRun(r, c) && i < |r.actions| && ValidCacheKey(key) && AllFit(r.states[0], c)
    requires forall m | 0 <= m < i :: r.actions[m].BeginWrite? ==> Fits(c, r.actions[m].record)
    ensures r.actions[i].LoaderStep? ==> r.states[i + 1].dir == r.states[i].dir
    ensures Held(r.states[i], key).Some? && !r.actions[i].Crash? ==> Held(r.states[i + 1], key).Some?
  {
    AllFitRun(r, i, c);
    assert Enabled(r.states[i], r.actions[i], c);
    DeletesIff(r, i, c, key);
    hide IsRun, Inv, Fits, Held, FinalName;
  }

  /**
   * Once its writers are done the directory holds token files and orphans only, and a name
   * becomes an orphan only in a crash or when its removal fails: no ordinary error leaves one.
   */
  lemma NoTempLeft(r: Run, i: nat, c: Codec)
    requires Lawful(c) && IsRun(r, c) && i < |r.states|
    ensures r.states[i].writers == map[] ==>
              forall name <- r.states[i].dir :: IsFinal(name) || name in r.states[i].orphans
    ensures i < |r.actions| && r.states[i + 1].orphans != r.states[i].orphans ==>
              || r.actions[i].Crash?
              || (r.actions[i].WriterStep? && !r.actions[i].ok && r.actions[i].w in r.states[i].writers
                  && r.states[i].writers[r.actions[i].w].stage.Removing?)
  {
    hide Linked, Whole, Bound, WritersSound, LoadersSound, Next, Enabled, IsFinal;
    InvRun(r, i, c);
    if i < |r.actions| && r.states[i + 1].orphans != r.states[i].orphans { OrphanStep(r.states[i], r.actions[i], c); }
  }

  /** Every temporary name, whoever left it, can be cleaned up, and nothing else goes with it. */
  lemma CleanupRemoves(s: State, key: string, suffix: string, c: Codec)
    requires TempName(key, suffix) in s.dir
    ensures Enabled(s, Cleanup(TempName(key, suffix)), c)
    ensures var n := Next(s, Cleanup(TempName(key, suffix)), c);
            && TempName(key, suffix) !in n.dir && n.dir.Keys == s.dir.Keys - {TempName(key, suffix)}
            && (forall name <- n.dir :: n.dir[name] == s.dir[name])
            && n.published == s.published && n.rooted == s.rooted
  {
    TempLooksTemporary(key, suffix);
    hide LooksTemporary, TempName;
  }

  lemma OrphanStep(s: State, a: Action, c: Codec)
    requires Enabled(s, a, c) && Next(s, a, c).orphans != s.orphans
    ensures a.Crash? || (a.WriterStep? && !a.ok && a.w in s.writers && s.writers[a.w].stage.Removing?)
  {
    hide Judge, Opens, Encode, Owned, AfterCrash;
  }

  // ------------------------------------------------------------------ An oversized record can take a newer one with it

  ghost predicate Extends(r: Run, longer: Run) {
    && |r.actions| <= |longer.actions| && |r.states| == |r.actions| + 1 && |longer.states| == |longer.actions| + 1
    && longer.actions[..|r.actions|] == r.actions && longer.states[..|r.states|] == r.states
  }

  function Last(r: Run): State
    requires r.states != []
  {
    r.states[|r.states| - 1]
  }

  lemma Extend(r: Run, a: Action, c: Codec) returns (longer: Run)
    requires IsRun(r, c) && Enabled(Last(r), a, c)
    ensures IsRun(longer, c) && Extends(r, longer) && Last(longer) == Next(Last(r), a, c)
    ensures |longer.actions| == |r.actions| + 1 && longer.actions[|r.actions|] == a
            && longer.states[|r.actions|] == Last(r)
  {
    longer := Run(r.states + [Next(Last(r), a, c)], r.actions + [a]);
    hide Next, Enabled, Starts;
    forall i | 0 <= i < |longer.actions|
      ensures Enabled(longer.states[i], longer.actions[i], c)
              && longer.states[i + 1] == Next(longer.states[i], longer.actions[i], c)
    {
      if i < |r.actions| { assert longer.actions[i] == r.actions[i]; }
    }
  }

  lemma ExtendsTwice(a: Run, b: Run, c: Run)
    requires Extends(a, b) && Extends(b, c)
    ensures Extends(a, c)
  {
    assert c.actions[..|a.actions|] == c.actions[..|b.actions|][..|a.actions|];
    assert c.states[..|a.states|] == c.states[..|b.states|][..|a.states|];
  }

  /** Publications are added, never replaced, until a crash. */
  ghost predicate Grows(s: State, n: State) {
    forall i <- s.published :: i in n.published && n.published[i] == s.published[i]
  }

  lemma PublicationsStay(s: State, a: Action, c: Codec)
    requires Inv(s, c) && Enabled(s, a, c) && !a.Crash?
    ensures Grows(s, Next(s, a, c))
  {
    if a.WriterStep? { OwnSound(s, a.w, c); }
    hide Inv, Judge, Opens, Encode, Owned, FinalName, TempName, FileMatches, ValidCacheKey;
  }

  /** Writer w is at this stage, with its temporary file in place. */
  ghost predicate Ready(s: State, w: nat, me: Writer, loaders: map<nat, Loader>) {
    w in s.writers && s.writers[w] == me && (me.stage.HasTemp() ==> me.Temp() in s.dir) && s.loaders == loaders
  }

  function Succeeding(stage: Stage): Stage {
    match stage
    case Created => Writing(0)
    case Writing(_) => Written
    case Written => Synced
    case Synced => Closed
    case _ => Renamed
  }

  lemma OneCall(r: Run, w: nat, me: Writer, loaders: map<nat, Loader>, c: Codec) returns (longer: Run)
    requires Lawful(c) && IsRun(r, c) && Ready(Last(r), w, me, loaders) && me.stage.HasTemp() && !me.stage.Removing?
    requires me.stage.Writing? ==> me.stage.written == 0
    ensures IsRun(longer, c) && Extends(r, longer) && Grows(Last(r), Last(longer))
    ensures Ready(Last(longer), w, me.(stage := Succeeding(me.stage)), loaders)
    ensures me.stage.Closed? ==> Renames(Last(r), WriterStep(w, true, |Encode(c, me.record)|, ""), me.key)
                                 && Last(longer) == Next(Last(r), WriterStep(w, true, |Encode(c, me.record)|, ""), c)
  {
    var a := WriterStep(w, true, |Encode(c, me.record)|, "");
    Lengths(r, c);
    hide IsRun, Extends, Encode, TempName, FinalName, Owned, Inv, Grows;
    InvRun(r, |r.actions|, c);
    longer := Extend(r, a, c);
    PublicationsStay(Last(r), a, c);
  }

  /** A writer that has created its file can go on to rename it, whatever others are doing. */
  lemma {:induction false} CanFinish(r: Run, w: nat, me: Writer, loaders: map<nat, Loader>, c: Codec)
    returns (longer: Run)
    requires Lawful(c) && IsRun(r, c) && Ready(Last(r), w, me, loaders) && me.stage.HasTemp() && !me.stage.Removing?
    requires (me.stage.Writing? ==> me.stage.written == 0) && ValidCacheKey(me.key)
    ensures IsRun(longer, c) && Extends(r, longer) && Last(longer).loaders == loaders && Grows(Last(r), Last(longer))
    ensures Held(Last(longer), me.key) == Some(me.record)
    decreases match me.stage case Created => 5 case Writing(_) => 4 case Written => 3 case Synced => 2 case _ => 1
  {
    var next := OneCall(r, w, me, loaders, c);
    if me.stage.Closed? {
      InvRun(r, |r.actions|, c);
      hide IsRun, Next, Held, Inv, Enabled;
      RenameDone(Last(r), w, me, c);
      longer := next;
    } else {
      hide IsRun, Held;
      longer := CanFinish(next, w, me.(stage := Succeeding(me.stage)), loaders, c);
      ExtendsTwice(r, next, longer);
    }
  }

  lemma RenameDone(s: State, w: nat, me: Writer, c: Codec)
    requires Inv(s, c) && ValidCacheKey(me.key) && w in s.writers
    requires s.writers[w] == me && me.stage.Closed? && me.Temp() in s.dir
    ensures Held(Next(s, WriterStep(w, true, |Encode(c, me.record)|, ""), c), me.key) == Some(me.record)
  {
    hide Inv, Held, Encode, Next;
    RegisterStep(s, WriterStep(w, true, |Encode(c, me.record)|, ""), c, me.key);
  }

  /** A new writer can persist its record. */
  lemma CanPersist(r: Run, w: nat, key: string, record: Record, suffix: string, c: Codec) returns (longer: Run)
    requires Lawful(c) && IsRun(r, c) && ValidCacheKey(key) && w !in Last(r).writers
    requires TempName(key, suffix) !in Last(r).dir && !Owned(Last(r).writers, TempName(key, suffix))
    ensures IsRun(longer, c) && Extends(r, longer) && Last(longer).loaders == Last(r).loaders
    ensures Held(Last(longer), key) == Some(record) && Grows(Last(r), Last(longer))
  {
    var me := Writer(key, record, "", 0, Starting);
    var one := Extend(r, BeginWrite(w, key, record), c);
    var s := Last(one);
    assert !Owned(s.writers, TempName(key, suffix)) by {
      assert forall v | v in s.writers && v != w :: v in Last(r).writers && s.writers[v] == Last(r).writers[v];
    }
    var two := Extend(one, WriterStep(w, true, 0, suffix), c);
    hide IsRun, Extends, Held, Owned;
    longer := CanFinish(two, w, Last(two).writers[w], Last(r).loaders, c);
    ExtendsTwice(r, one, two);
    ExtendsTwice(r, two, longer);
  }

  /** A new loader can open and read what is held. */
  lemma CanRead(r: Run, l: nat, key: string, c: Codec) returns (longer: Run)
    requires Lawful(c) && IsRun(r, c) && ValidCacheKey(key) && l !in Last(r).loaders && Held(Last(r), key).Some?
    ensures IsRun(longer, c) && Extends(r, longer) && l in Last(longer).loaders
    ensures var record := Held(Last(r), key).value; Last(longer).loaders[l] == HasRead(key, Encode(c, record), record)
    ensures Last(longer).dir == Last(r).dir && Last(longer).writers == Last(r).writers
  {
    InvRun(r, |r.actions|, c);
    HeldExact(Last(r), key, c);
    PublishedWhole(Last(r), Last(r).dir[FinalName(key)], c);
    hide IsRun, Inv, Extends, Encode, FinalName;
    var one := Extend(r, BeginLoad(l, key), c);
    var two := Extend(one, LoaderStep(l, true), c);
    longer := Extend(two, LoaderStep(l, true), c);
    ExtendsTwice(r, one, two);
    ExtendsTwice(r, two, longer);
  }

  /**
   * Whenever a record over 10 MB is held, a loader that reads it can go on to delete the good
   * record that a writer renames into place in the meantime.
   */
  lemma OversizedTakesNewer(r: Run, l: nat, w: nat, key: string, good: Record, suffix: string, c: Codec)
    returns (longer: Run, i: nat)
    requires Lawful(c) && IsRun(r, c) && ValidCacheKey(key) && l !in Last(r).loaders && w !in Last(r).writers
    requires Held(Last(r), key).Some? && !Fits(c, Held(Last(r), key).value) && Fits(c, good)
    requires TempName(key, suffix) !in Last(r).dir && !Owned(Last(r).writers, TempName(key, suffix))
    ensures IsRun(longer, c) && Extends(r, longer) && i < |longer.actions| && longer.actions[i] == LoaderStep(l, true)
    ensures Held(longer.states[i], key) == Some(good) && Held(longer.states[i + 1], key) == None
  {
    var big := Held(Last(r), key).value;
    hide IsRun, Inv, Extends, Held, Fits, Encode, Owned, Next;
    var reading := CanRead(r, l, key, c);
    var renamed := CanPersist(reading, w, key, good, suffix, c);
    Lengths(renamed, c);
    InvRun(renamed, |renamed.actions|, c);
    longer := Extend(renamed, LoaderStep(l, true), c);
    i := |renamed.actions|;
    JudgeExact(big, c);
    RegisterStep(Last(renamed), LoaderStep(l, true), c, key);
    ExtendsTwice(r, reading, renamed);
    ExtendsTwice(r, renamed, longer);
    Lengths(longer, c);
  }

  lemma Lengths(r: Run, c: Codec)
    requires IsRun(r, c)
    ensures |r.states| == |r.actions| + 1
  {
  }
}
