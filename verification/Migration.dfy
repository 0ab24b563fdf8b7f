/**
 * The one-time move of token files from the legacy directory, MigrateTokensFromLegacyDir in
 * pkg/daemon/persist.go, under any pattern of failures.
 */
module Migration {
  import opened CacheKeys
  import opened TokenFiles

  datatype Node = Regular(content: Bytes) | Symlink(dangling: bool) | Special

  type Folder = map<string, Node>

  /** Which calls fail for one directory entry, and the name CreateTemp draws for it. */
  datatype Faults = Faults(
    stat: bool, lstat: bool, open: bool, read: bool,
    create: bool, chmod: bool, write: bool, sync: bool, close: bool, rename: bool,
    removeTemp: bool, removeSource: bool, draw: string)

  function MigrateTemp(draw: string): string { ".migrate-" + draw + ".tmp" }

  /** Stat of the destination succeeds: it follows links, and any error reads as "not there". */
  predicate StatFinds(target: Folder, name: string, f: Faults) {
    name in target && !f.stat && target[name] != Symlink(true)
  }

  function Limited(b: Bytes): Bytes { if |b| <= MAX_FILE_SIZE then b else b[..MAX_FILE_SIZE] }

  predicate AtomicWriteFails(f: Faults) {
    f.create || f.chmod || f.write || f.sync || f.close || f.rename
  }

  /** A token file that the destination check lets through and that can be read. */
  predicate Reads(legacy: Folder, target: Folder, name: string, f: Faults) {
    IsFinal(name) && !StatFinds(target, name, f) && Readable(legacy, name, f)
  }

  predicate Readable(legacy: Folder, name: string, f: Faults) {
    !f.lstat && name in legacy && legacy[name].Regular? && !f.open && !f.read
  }

  /** The entry is copied to the new directory. */
  predicate Copied(legacy: Folder, target: Folder, name: string, f: Faults) {
    Reads(legacy, target, name, f) && !AtomicWriteFails(f)
  }

  /** The new directory after the temp-and-rename write, with a temp file that could not be removed. */
  function WriteOutcome(target: Folder, name: string, data: Bytes, f: Faults): Folder {
    if !AtomicWriteFails(f) then target[name := Regular(data)]
    else if f.create || !f.removeTemp then target
    else target[MigrateTemp(f.draw) := Regular(if f.chmod || f.write then [] else data)]
  }

  function MigrateOne(legacy: Folder, target: Folder, name: string, f: Faults): (Folder, Folder) {
    if !Reads(legacy, target, name, f) then (legacy, target) else
      (if Copied(legacy, target, name, f) && !f.removeSource then legacy - {name} else legacy,
       WriteOutcome(target, name, Limited(legacy[name].content), f))
  }

  function MigrateAll(legacy: Folder, target: Folder, order: seq<string>, faults: seq<Faults>): (Folder, Folder)
    requires |faults| == |order|
    decreases |order|
  {
    if order == [] then (legacy, target) else
      var (l, t) := MigrateOne(legacy, target, order[0], faults[0]);
      MigrateAll(l, t, order[1..], faults[1..])
  }

  /** Writes a file through a temporary one. */
  method AtomicWriteFile(target: Folder, name: string, data: Bytes, f: Faults) returns (after: Folder, ok: bool)
    requires IsFinal(name) && MigrateTemp(f.draw) !in target
    ensures ok == !AtomicWriteFails(f) && after == WriteOutcome(target, name, data, f)
  {
    TempIsHidden(f.draw);
    var tmp := MigrateTemp(f.draw);
    after := target;
    if f.create {
      return after, false;
    }
    after := after[tmp := Regular([])];
    if f.chmod {
      after := RemoveTemp(target, after, tmp, f);
      return after, false;
    }
    if f.write {
      after := RemoveTemp(target, after, tmp, f);
      return after, false;
    }
    after := after[tmp := Regular(data)];
    if f.sync {
      after := RemoveTemp(target, after, tmp, f);
      return after, false;
    }
    if f.close {
      after := RemoveTemp(target, after, tmp, f);
      return after, false;
    }
    if f.rename {
      after := RemoveTemp(target, after, tmp, f);
      return after, false;
    }
    after := (after - {tmp})[name := after[tmp]];
    return after, true;
  }

  method RemoveTemp(ghost before: Folder, folder: Folder, tmp: string, f: Faults) returns (after: Folder)
    requires tmp !in before && tmp in folder && folder == before[tmp := folder[tmp]]
    ensures after == if f.removeTemp then folder else before
  {
    after := if f.removeTemp then folder else folder - {tmp};
  }

  /** The loop over the entries, and the removal of the legacy directory, which fails if it is not empty. */
  method MigrateTokens(legacy: Folder, target: Folder, order: seq<string>, faults: seq<Faults>, stuck: bool)
    returns (legacy': Folder, target': Folder, removedDir: bool)
    requires |faults| == |order| && Unused(target, faults)
    ensures (legacy', target') == MigrateAll(legacy, target, order, faults)
    ensures removedDir ==> legacy' == map[]
    ensures (forall name :: name in order <==> name in legacy) ==> (removedDir <==> legacy' == map[] && !stuck)
  {
    legacy', target' := legacy, target;
    var migrated := 0;
    for i := 0 to |order|
      invariant MigrateAll(legacy', target', order[i..], faults[i..]) == MigrateAll(legacy, target, order, faults)
      invariant Unused(target', faults[i..])
      invariant migrated >= 0 && (migrated == 0 ==> legacy' == legacy)
    {
      var name, f := order[i], faults[i];
      assert order[i..][1..] == order[i + 1..] && faults[i..][1..] == faults[i + 1..] && faults[i..][0] == f;
      UnusedStep(legacy', target', name, faults[i..]);
      if !IsFinal(name) {
        continue;
      }
      if StatFinds(target', name, f) {
        continue;
      }
      if f.lstat || name !in legacy' {
        continue;
      }
      if !legacy'[name].Regular? {
        continue;
      }
      if f.open || f.read {
        continue;
      }
      var written, ok := AtomicWriteFile(target', name, Limited(legacy'[name].content), f);
      target' := written;
      if !ok {
        continue;
      }
      if !f.removeSource {
        legacy' := legacy' - {name};
      }
      migrated := migrated + 1;
    }
    removedDir := false;
    if migrated > 0 || |order| == 0 {
      removedDir := legacy' == map[] && !stuck;
    }
    assert |order| > 0 ==> order[0] in order;
  }

  /** CreateTemp draws names that are not in use: not there before, and never the same twice. */
  ghost predicate Unused(target: Folder, faults: seq<Faults>) {
    && (forall i | 0 <= i < |faults| :: MigrateTemp(faults[i].draw) !in target)
    && (forall i, j | 0 <= i < j < |faults| :: MigrateTemp(faults[i].draw) != MigrateTemp(faults[j].draw))
  }

  lemma UnusedStep(legacy: Folder, target: Folder, name: string, faults: seq<Faults>)
    requires faults != [] && Unused(target, faults)
    ensures Unused(MigrateOne(legacy, target, name, faults[0]).1, faults[1..])
  {
    var t := MigrateOne(legacy, target, name, faults[0]).1;
    forall i | 0 <= i < |faults| - 1 ensures MigrateTemp(faults[1..][i].draw) !in t {
      TempIsHidden(faults[i + 1].draw);
    }
  }

  lemma TempIsHidden(draw: string)
    ensures !IsFinal(MigrateTemp(draw))
  {
    var t := MigrateTemp(draw);
    assert t[0] == '.';
    if |t| > 5 && t[|t| - 5..] == ".json" {
      assert t[..|t| - 5][0] == '.';
    }
  }

  /** The stale-file cleanup looks at the migration's temporary files too. */
  lemma TempIsCleanedUp(draw: string)
    ensures LooksTemporary(MigrateTemp(draw))
  {
    TempLooksTemporary("", draw);
  }

  /** A file is copied exactly when nothing was found at the destination and every call on the way succeeds. */
  lemma CopiedIff(legacy: Folder, target: Folder, key: string, f: Faults)
    requires ValidCacheKey(key)
    ensures var name := key + ".json";
            Copied(legacy, target, name, f) <==>
            && (name !in target || f.stat || target[name] == Symlink(true))
            && !f.lstat && name in legacy && legacy[name].Regular? && !f.open && !f.read
            && !f.create && !f.chmod && !f.write && !f.sync && !f.close && !f.rename
  {
    FinalNameIsFinal(key);
  }

  // ------------------------------------------------------------------ What the migration conserves

  predicate Distinct(order: seq<string>) {
    forall i, j | 0 <= i < j < |order| :: order[i] != order[j]
  }

  /** Handling one entry leaves every other name as it was, but for its own temp file. */
  lemma OneIsLocal(legacy: Folder, target: Folder, name: string, f: Faults, other: string)
    requires other != name && other != MigrateTemp(f.draw)
    ensures var (l, t) := MigrateOne(legacy, target, name, f);
            && (other in t <==> other in target) && (other in target ==> t[other] == target[other])
            && (other in l <==> other in legacy) && (other in legacy ==> l[other] == legacy[other])
  {
  }

  /** A name that is not listed, and is no temp file, ends as it began. */
  lemma {:induction false} OthersUntouched(legacy: Folder, target: Folder, order: seq<string>, faults: seq<Faults>,
                                           other: string)
    requires |faults| == |order| && other !in order
    requires forall i | 0 <= i < |faults| :: other != MigrateTemp(faults[i].draw)
    ensures var (l, t) := MigrateAll(legacy, target, order, faults);
            && (other in t <==> other in target) && (other in target ==> t[other] == target[other])
            && (other in l <==> other in legacy) && (other in legacy ==> l[other] == legacy[other])
    decreases |order|
  {
    if order != [] {
      OneIsLocal(legacy, target, order[0], faults[0], other);
      var (l, t) := MigrateOne(legacy, target, order[0], faults[0]);
      OthersUntouched(l, t, order[1..], faults[1..], other);
    }
  }

  /**
   * The fate of each listed token file depends on its own faults alone: it is copied, and then
   * removed, exactly when Copied says so, whatever happens to the other entries.
   */
  lemma {:induction false} FateExact(legacy: Folder, target: Folder, order: seq<string>, faults: seq<Faults>, i: nat)
    requires |faults| == |order| && Distinct(order) && Unused(target, faults) && i < |order| && IsFinal(order[i])
    ensures var (l, t) := MigrateAll(legacy, target, order, faults);
            var name, f := order[i], faults[i];
            var copied := Copied(legacy, target, name, f);
            && (if copied then name in t && t[name] == Regular(Limited(legacy[name].content))
                else (name in t <==> name in target) && (name in target ==> t[name] == target[name]))
            && (if copied && !f.removeSource then name !in l
                else (name in l <==> name in legacy) && (name in legacy ==> l[name] == legacy[name]))
    decreases |order|
  {
    var name := order[i];
    var (l, t) := MigrateOne(legacy, target, order[0], faults[0]);
    forall j | 0 <= j < |faults| ensures MigrateTemp(faults[j].draw) != name { TempIsHidden(faults[j].draw); }
    if i == 0 {
      OthersUntouched(l, t, order[1..], faults[1..], name);
    } else {
      OneIsLocal(legacy, target, order[0], faults[0], name);
      UnusedStep(legacy, target, order[0], faults);
      FateExact(l, t, order[1..], faults[1..], i - 1);
    }
  }

  /** Every regular token file of at most 10 MB ends byte-identical at the source or the destination. */
  lemma TokensConserved(legacy: Folder, target: Folder, order: seq<string>, faults: seq<Faults>, i: nat)
    requires |faults| == |order| && Distinct(order) && Unused(target, faults) && i < |order| && IsFinal(order[i])
    requires order[i] in legacy && legacy[order[i]].Regular? && |legacy[order[i]].content| <= MAX_FILE_SIZE
    ensures var (l, t) := MigrateAll(legacy, target, order, faults);
            || (order[i] in l && l[order[i]] == legacy[order[i]])
            || (order[i] in t && t[order[i]] == legacy[order[i]])
  {
    FateExact(legacy, target, order, faults, i);
  }

  /** A token file that is copied and removed survives exactly when it is at most 10 MB. */
  lemma MovedIntactIff(legacy: Folder, target: Folder, order: seq<string>, faults: seq<Faults>, i: nat)
    requires |faults| == |order| && Distinct(order) && Unused(target, faults) && i < |order|
    requires Copied(legacy, target, order[i], faults[i]) && !faults[i].removeSource
    ensures var (l, t) := MigrateAll(legacy, target, order, faults);
            var content := legacy[order[i]].content;
            && order[i] !in l && order[i] in t && (t[order[i]] == legacy[order[i]] <==> |content| <= 10_485_760)
            && (|content| > 10_485_760 ==> t[order[i]] == Regular(content[..10_485_760]))
  {
    FateExact(legacy, target, order, faults, i);
  }

  /**
   * An existing destination keeps its content exactly when Stat finds it, or the entry cannot be
   * copied, or it would receive the same bytes: a Stat that fails reads as "not there".
   */
  lemma DestinationKeptIff(legacy: Folder, target: Folder, order: seq<string>, faults: seq<Faults>, i: nat)
    requires |faults| == |order| && Distinct(order) && Unused(target, faults) && i < |order|
    requires IsFinal(order[i]) && order[i] in target
    ensures var t, name, f := MigrateAll(legacy, target, order, faults).1, order[i], faults[i];
            && name in t
            && (t[name] == target[name] <==>
                  || (!f.stat && target[name] != Symlink(true))
                  || f.lstat || name !in legacy || !legacy[name].Regular? || f.open || f.read
                  || f.create || f.chmod || f.write || f.sync || f.close || f.rename
                  || target[name] == Regular(Limited(legacy[name].content)))
  {
    FateExact(legacy, target, order, faults, i);
  }
}
