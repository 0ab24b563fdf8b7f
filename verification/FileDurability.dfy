/**
 * When a persisted record is durable. Token files are synced and their directory is not, so a crash
 * may undo a rename; what it brings back is stated exactly.
 */
module FileDurability {
  import opened Common
  import opened CacheKeys
  import opened TokenFiles
  import opened FileRuns
  import opened FileSafety

  /** The record was published for the key since the last crash. */
  ghost predicate Has(s: State, key: string, record: Record) {
    exists i :: i in s.published && s.published[i] == Publication(key, record)
  }

  /** Whatever a crash garbles and undoes, the key holds afterwards what it holds now. */
  ghost predicate Durable(s: State, key: string) {
    forall garbled, left | Survives(s, left) :: Held(AfterCrash(s, garbled, left), key) == Held(s, key)
  }

  /** A crash can leave the directory with one key's name on any inode published for it. */
  lemma CanRestore(s: State, c: Codec, key: string, i: nat)
    requires Inv(s, c) && ValidCacheKey(key) && i in s.published && s.published[i].key == key
    ensures Survives(s, s.dir[FinalName(key) := i])
    ensures Held(AfterCrash(s, map[], s.dir[FinalName(key) := i]), key) == Some(s.published[i].record)
  {
    var left := s.dir[FinalName(key) := i];
    hide WritersSound, LoadersSound, Accounted, IsFinal, FinalName, Encode, ValidCacheKey;
    assert i in Remaining(s.published, left);
  }

  /** A crash can lose a name that was not there after the last one. */
  lemma CanLose(s: State, c: Codec, key: string)
    requires Inv(s, c) && ValidCacheKey(key) && key !in s.rooted
    ensures Survives(s, s.dir - {FinalName(key)})
    ensures Held(AfterCrash(s, map[], s.dir - {FinalName(key)}), key) == None
  {
    forall k | k in s.rooted ensures FinalName(k) != FinalName(key) {
      if FinalName(k) == FinalName(key) { FinalNameInjective(k, key); }
    }
    hide WritersSound, LoadersSound, Accounted, IsFinal, FinalName, Encode, ValidCacheKey;
  }

  /**
   * What a key holds is durable if and only if every record published for it since the last crash
   * is the one it holds and, if it holds one, its name was there after that crash.
   */
  lemma DurableIff(s: State, c: Codec, key: string)
    requires Inv(s, c) && ValidCacheKey(key)
    ensures Durable(s, key) <==>
            && (Held(s, key).Some? ==> key in s.rooted)
            && (forall record | Has(s, key, record) :: Some(record) == Held(s, key))
  {
    if (Held(s, key).Some? ==> key in s.rooted) && forall record | Has(s, key, record) :: Some(record) == Held(s, key) {
      forall garbled, left | Survives(s, left) ensures Held(AfterCrash(s, garbled, left), key) == Held(s, key) {
        CrashRegister(s, garbled, left, c, key);
        hide Inv, Survives, AfterCrash, Held;
        var held := Held(AfterCrash(s, garbled, left), key);
        if held.Some? { assert Has(s, key, held.value); }
      }
    } else if Held(s, key).Some? && key !in s.rooted {
      CanLose(s, c, key);
      hide Inv, Survives, AfterCrash, Held;
    } else {
      hide Inv, Survives, AfterCrash, Held;
      var record :| Has(s, key, record) && Some(record) != Held(s, key);
      var i :| i in s.published && s.published[i] == Publication(key, record);
      CanRestore(s, c, key, i);
    }
  }

  /** The state after the last crash, or the first one. */
  function Base(r: Run, i: nat): (b: nat)
    requires i <= |r.actions|
    ensures b <= i
  {
    if i == 0 || r.actions[i - 1].Crash? then i else Base(r, i - 1)
  }

  lemma RootedExact(s: State, a: Action, c: Codec, key: string)
    requires Inv(s, c) && Enabled(s, a, c) && ValidCacheKey(key) && !a.Crash?
    ensures key in Next(s, a, c).rooted <==> key in s.rooted && !Discards(s, a, key, c)
  {
    hide Inv, Judge, Opens, Encode, Owned, FinalName;
  }

  lemma HasStep(s: State, a: Action, c: Codec, key: string, record: Record)
    requires Inv(s, c) && Enabled(s, a, c) && !a.Crash?
    ensures Has(Next(s, a, c), key, record) <==>
            Has(s, key, record) || (Renames(s, a, key) && s.writers[a.w].record == record)
  {
    if a.WriterStep? && s.writers[a.w].stage.Closed? && a.ok {
      OwnSound(s, a.w, c);
      hide Inv, Encode, FinalName, FileMatches, Owned, Has;
      RenameHas(s, a.w, key, record);
    } else {
      SamePublished(s, a, c);
      hide Inv, Next, Enabled;
    }
  }

  lemma SamePublished(s: State, a: Action, c: Codec)
    requires Enabled(s, a, c) && !a.Crash? && !(a.WriterStep? && s.writers[a.w].stage.Closed? && a.ok)
    ensures Next(s, a, c).published == s.published
  {
    hide Judge, Opens, Encode, Owned, FinalName, TempName;
  }

  lemma RenameHas(s: State, w: nat, key: string, record: Record)
    requires w in s.writers && s.writers[w].ino !in s.published
    ensures Has(Rename(s, w), key, record) <==>
            Has(s, key, record) || (s.writers[w].key == key && s.writers[w].record == record)
  {
    var n, me := Rename(s, w), s.writers[w];
    if Has(s, key, record) {
      var i :| i in s.published && s.published[i] == Publication(key, record);
      assert i in n.published && n.published[i] == Publication(key, record);
    }
    if me.key == key && me.record == record {
      assert me.ino in n.published && n.published[me.ino] == Publication(key, record);
    }
  }

  /** Right after a crash, and at the start, what is published for a key is what it holds. */
  lemma BaseExact(s: State, c: Codec, key: string)
    requires Inv(s, c) && ValidCacheKey(key) && Remaining(s.published, s.dir) == s.published
    requires forall i <- s.published :: s.published[i].key in s.rooted
    ensures key in s.rooted <==> Held(s, key).Some?
    ensures forall record :: Has(s, key, record) <==> Held(s, key) == Some(record)
  {
    HeldExact(s, key, c);
    if key in s.rooted { RootedHeld(s, c, key); }
    hide Inv, FinalName;
    forall record | Has(s, key, record) ensures Held(s, key) == Some(record) {
      var i :| i in s.published && s.published[i] == Publication(key, record);
      assert i in Remaining(s.published, s.dir);
    }
  }

  lemma CrashIsBase(s: State, garbled: map<nat, Bytes>, left: Names)
    ensures var n := AfterCrash(s, garbled, left);
            Remaining(n.published, n.dir) == n.published && forall i <- n.published :: n.published[i].key in n.rooted
  {
    hide FinalName, IsFinal;
  }

  /** A rooted key was held after the last crash, and no load has rejected its file since. */
  lemma {:induction false} RootedSince(r: Run, i: nat, key: string, c: Codec)
    requires Lawful(c) && IsRun(r, c) && i < |r.states| && ValidCacheKey(key)
    ensures key in r.states[i].rooted <==>
            && Held(r.states[Base(r, i)], key).Some?
            && forall m: nat | Base(r, i) <= m < i :: !Discards(r.states[m], r.actions[m], key, c)
    decreases i
  {
    hide Inv, Next, Enabled, Renames, Discards, Held, Has, Starts;
    InvRun(r, i, c);
    if i == 0 || r.actions[i - 1].Crash? {
      BaseStates(r, i, c);
      BaseExact(r.states[i], c, key);
    } else {
      InvRun(r, i - 1, c);
      RootedSince(r, i - 1, key, c);
      RootedExact(r.states[i - 1], r.actions[i - 1], c, key);
    }
  }

  /** What is published for a key was held after the last crash or has been renamed into place since. */
  lemma {:induction false} PublishedSince(r: Run, i: nat, key: string, c: Codec, record: Record)
    requires Lawful(c) && IsRun(r, c) && i < |r.states| && ValidCacheKey(key)
    ensures Has(r.states[i], key, record) <==>
            Held(r.states[Base(r, i)], key) == Some(record) || RenamedSince(r, Base(r, i), i, key, record)
    decreases i
  {
    hide Inv, Next, Enabled, Renames, Held, Has, Starts, RenamedSince;
    InvRun(r, i, c);
    if i == 0 || r.actions[i - 1].Crash? {
      BaseStates(r, i, c);
      BaseExact(r.states[i], c, key);
      NoneSince(r, i, key, record);
    } else {
      InvRun(r, i - 1, c);
      PublishedSince(r, i - 1, key, c, record);
      HasStep(r.states[i - 1], r.actions[i - 1], c, key, record);
      OneSince(r, Base(r, i), i - 1, key, record);
    }
  }

  ghost predicate RenamedSince(r: Run, b: nat, i: nat, key: string, record: Record)
    requires i <= |r.actions| < |r.states|
  {
    exists m: nat :: b <= m < i && RenamesTo(r, m, key, record)
  }

  lemma NoneSince(r: Run, i: nat, key: string, record: Record)
    requires i <= |r.actions| < |r.states|
    ensures !RenamedSince(r, i, i, key, record)
  {
  }

  lemma OneSince(r: Run, b: nat, i: nat, key: string, record: Record)
    requires b <= i < |r.actions| < |r.states|
    ensures RenamedSince(r, b, i + 1, key, record) <==>
            RenamedSince(r, b, i, key, record) || RenamesTo(r, i, key, record)
  {
    hide RenamesTo;
    if RenamedSince(r, b, i, key, record) {
      var m: nat :| b <= m < i && RenamesTo(r, m, key, record);
      assert b <= m < i + 1;
    }
  }

  /** Step m renames this record into place for the key. */
  ghost predicate RenamesTo(r: Run, m: nat, key: string, record: Record)
    requires m < |r.actions| < |r.states|
  {
    Renames(r.states[m], r.actions[m], key) && r.states[m].writers[r.actions[m].w].record == record
  }

  lemma BaseStates(r: Run, i: nat, c: Codec)
    requires IsRun(r, c) && i < |r.states| && (i == 0 || r.actions[i - 1].Crash?)
    ensures var s := r.states[i];
            Remaining(s.published, s.dir) == s.published && forall i <- s.published :: s.published[i].key in s.rooted
  {
    if i > 0 {
      CrashIsBase(r.states[i - 1], r.actions[i - 1].garbled, r.actions[i - 1].left);
    }
    hide Remaining, Linked, Whole, Bound, AfterCrash, Survives;
  }

  /**
   * Over runs: what a key holds survives any crash if and only if it is what the key held after the
   * last one, every rename since carried the same record and, if there is one, no load has rejected
   * the file since.
   */
  lemma DurableInRunIff(r: Run, i: nat, key: string, c: Codec)
    requires Lawful(c) && IsRun(r, c) && i < |r.states| && ValidCacheKey(key)
    ensures Durable(r.states[i], key) <==>
            && Held(r.states[Base(r, i)], key) == Held(r.states[i], key)
            && (forall m: nat, record | Base(r, i) <= m < i && RenamesTo(r, m, key, record) ::
                  Some(record) == Held(r.states[i], key))
            && (Held(r.states[i], key).Some? ==>
                  forall m: nat | Base(r, i) <= m < i :: !Discards(r.states[m], r.actions[m], key, c))
  {
    InvRun(r, i, c);
    hide Inv, Next, Enabled, Renames, Discards, Held, Starts, Durable, RenamesTo, Base, Has;
    DurableIff(r.states[i], c, key);
    RootedSince(r, i, key, c);
    var b := Base(r, i);
    forall record
      ensures Has(r.states[i], key, record) <==>
              Held(r.states[b], key) == Some(record) || RenamedSince(r, b, i, key, record)
    {
      PublishedSince(r, i, key, c, record);
    }
    if Held(r.states[b], key).Some? { assert Has(r.states[i], key, Held(r.states[b], key).value); }
    forall m: nat, record | b <= m < i && RenamesTo(r, m, key, record) ensures Has(r.states[i], key, record) {
      assert RenamedSince(r, b, i, key, record);
    }
  }

  /** Whenever a record is held, another can be persisted after it, in full, and be undone by a crash. */
  lemma CrashBringsBack(r: Run, w: nat, key: string, newer: Record, suffix: string, c: Codec)
    returns (longer: Run, i: nat)
    requires Lawful(c) && IsRun(r, c) && ValidCacheKey(key) && w !in Last(r).writers && Held(Last(r), key).Some?
    requires TempName(key, suffix) !in Last(r).dir && !Owned(Last(r).writers, TempName(key, suffix))
    ensures IsRun(longer, c) && Extends(r, longer) && i < |longer.actions| && longer.actions[i].Crash?
    ensures Held(longer.states[i], key) == Some(newer) && Held(longer.states[i + 1], key) == Held(Last(r), key)
  {
    var ino := HeldAt(r, key, c);
    hide IsRun, Inv, Extends, Held, Owned;
    var renamed := CanPersist(r, w, key, newer, suffix, c);
    longer := CrashRestores(renamed, key, ino, c);
    i := |renamed.actions|;
    ExtendsTwice(r, renamed, longer);
    Lengths(longer, c);
  }

  lemma HeldAt(r: Run, key: string, c: Codec) returns (ino: nat)
    requires Lawful(c) && IsRun(r, c) && ValidCacheKey(key) && Held(Last(r), key).Some?
    ensures ino in Last(r).published && Last(r).published[ino] == Publication(key, Held(Last(r), key).value)
  {
    InvRun(r, |r.actions|, c);
    HeldExact(Last(r), key, c);
    ino := Last(r).dir[FinalName(key)];
  }

  lemma CrashRestores(r: Run, key: string, ino: nat, c: Codec) returns (longer: Run)
    requires Lawful(c) && IsRun(r, c) && ValidCacheKey(key) && ino in Last(r).published
             && Last(r).published[ino].key == key
    ensures IsRun(longer, c) && Extends(r, longer) && |longer.actions| == |r.actions| + 1
    ensures longer.actions[|r.actions|].Crash? && longer.states[|r.actions|] == Last(r)
    ensures Held(Last(longer), key) == Some(Last(r).published[ino].record)
  {
    Lengths(r, c);
    InvRun(r, |r.actions|, c);
    hide IsRun, Inv, Extends, Held, Survives, AfterCrash;
    CanRestore(Last(r), c, key, ino);
    longer := Extend(r, Crash(map[], Last(r).dir[FinalName(key) := ino]), c);
  }
}
