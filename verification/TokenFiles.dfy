/**
 * Token files of pkg/daemon/persist.go: their names, the sequential PersistToken and
 * LoadPersistedToken on one directory, and the codec they share.
 */
module TokenFiles {
  import opened Common
  import opened CacheKeys

  const MAX_FILE_SIZE: nat := 10 * 0x10_0000
  const FORMAT_VERSION: int := 1

  type Byte = n: nat | n < 256
  type Bytes = seq<Byte>

  datatype Persisted = Persisted(formatVersion: int, record: Record)

  /** JSON marshalling; only its round trip matters. */
  datatype Codec = Codec(encode: Persisted -> Bytes, decode: Bytes -> Option<Persisted>)

  ghost predicate Lawful(c: Codec) {
    forall p :: c.decode(c.encode(p)) == Some(p)
  }

  function Encode(c: Codec, r: Record): Bytes { c.encode(Persisted(FORMAT_VERSION, r)) }

  predicate Fits(c: Codec, r: Record) { |Encode(c, r)| <= MAX_FILE_SIZE }

  // ------------------------------------------------------------------ Names

  function FinalName(key: string): string { key + ".json" }

  function TempName(key: string, suffix: string): string { key + ".tmp." + suffix }

  predicate IsFinal(name: string) {
    |name| > 5 && name[|name| - 5..] == ".json" && ValidCacheKey(name[..|name| - 5])
  }

  predicate OccursAt(s: string, sub: string, i: nat) {
    i + |sub| <= |s| && s[i..i + |sub|] == sub
  }

  predicate Contains(s: string, sub: string) {
    exists i: nat | i <= |s| :: OccursAt(s, sub, i)
  }

  /** The names the stale-file cleanup looks at. */
  predicate LooksTemporary(name: string) {
    Contains(name, ".tmp.") || (|name| >= 4 && name[|name| - 4..] == ".tmp")
  }

  lemma FinalNameIsFinal(key: string)
    requires ValidCacheKey(key)
    ensures IsFinal(FinalName(key)) && FinalName(key)[..|FinalName(key)| - 5] == key
  {
    assert FinalName(key)[|key|..] == ".json";
  }

  lemma FinalNameInjective(a: string, b: string)
    requires FinalName(a) == FinalName(b)
    ensures a == b
  {
    assert FinalName(a)[..|a|] == a && FinalName(b)[..|b|] == b;
  }

  /** A token file and a temporary file never share a name. */
  lemma TempIsNotFinal(key: string, suffix: string)
    requires ValidCacheKey(key)
    ensures !IsFinal(TempName(key, suffix))
  {
    var t := TempName(key, suffix);
    var n := |t| - 5;
    assert t[|key|] == '.' && t[|key| + 1] == 't';
    if suffix == "" {
      assert t[n..][1] == 't';
    } else {
      assert t[..n][|key|] == '.';
    }
  }

  /** The cleanup never looks at a token file. */
  lemma FinalIsNotTemporary(name: string)
    requires IsFinal(name)
    ensures !LooksTemporary(name)
  {
    var n := |name| - 5;
    assert name[n..][1] == name[n + 1] == 'j' && name[n..][4] == name[n + 4] == 'n';
    forall i: nat ensures !OccursAt(name, ".tmp.", i) {
      if i + 5 <= |name| {
        assert name[i..i + 5][0] == name[i] && name[i..i + 5][1] == name[i + 1];
        if i < n { assert name[..n][i] == name[i]; }
      }
    }
    assert name[|name| - 4..][3] == 'n';
  }

  /** The cleanup looks at every temporary file of a writer, and at those of the migration. */
  lemma TempLooksTemporary(key: string, suffix: string)
    ensures LooksTemporary(TempName(key, suffix)) && LooksTemporary(".migrate-" + suffix + ".tmp")
  {
    var t, m := TempName(key, suffix), ".migrate-" + suffix + ".tmp";
    assert t[|key|..|key| + 5] == ".tmp.";
    assert OccursAt(t, ".tmp.", |key|);
    assert m[|m| - 4..] == ".tmp";
  }

  // ------------------------------------------------------------------ One writer, one loader

  /** What goes wrong during one PersistToken; `write` counts the bytes written before a failure. */
  datatype Faults = Faults(
    mkdir: bool, create: bool, chmod: bool, write: Option<nat>, sync: bool, close: bool, rename: bool,
    remove: bool, harden: bool)
  {
    predicate BeforeTemp() { mkdir || create }
    predicate BeforeRename() { BeforeTemp() || chmod || write.Some? || sync || close || rename }
  }

  datatype LoadResult = Loaded(record: Record) | Missing | LoadError

  type Dir = map<string, Bytes>

  /** Whether the file can be read, and whether a bad one can be removed. */
  datatype LoadFaults = LoadFaults(read: bool, remove: bool)

  function Load(dir: Dir, key: string, f: LoadFaults, c: Codec): (Dir, LoadResult) {
    var name := FinalName(key);
    var removed := if f.remove then dir else dir - {name};
    if !ValidCacheKey(key) then (dir, LoadError)
    else if name !in dir then (dir, Missing)
    else if f.read then (dir, LoadError)
    else if |dir[name]| > MAX_FILE_SIZE then (removed, LoadError)
    else
      var data := c.decode(dir[name]);
      if data.None? || data.value.formatVersion != FORMAT_VERSION then (removed, LoadError)
      else (dir, Loaded(data.value.record))
  }

  class TokenDir {
    var dir: Dir

    constructor (initial: Dir)
      ensures dir == initial
    {
      dir := initial;
    }

    method Remove(name: string, fails: bool)
      modifies this
      ensures dir == if fails then old(dir) else old(dir) - {name}
    {
      if !fails {
        dir := dir - {name};
      }
    }

    /**
     * Temp file, chmod, write, fsync, close, rename. Before the rename succeeds an error leaves
     * the directory as it was, unless the temp file cannot be removed; after it the whole
     * record is in place. No other name changes.
     */
    method PersistToken(key: string, r: Record, suffix: string, c: Codec, f: Faults) returns (ok: bool)
      requires TempName(key, suffix) !in dir
      modifies this
      ensures ok == (ValidCacheKey(key) && !f.BeforeRename() && !f.harden)
      ensures ValidCacheKey(key) && !f.BeforeRename() ==> dir == old(dir)[FinalName(key) := Encode(c, r)]
      ensures (!ValidCacheKey(key) || f.BeforeRename()) && !f.remove ==> dir == old(dir)
      ensures !ValidCacheKey(key) || f.BeforeTemp() ==> dir == old(dir)
      ensures !ValidCacheKey(key) || f.BeforeRename() ==> dir - {TempName(key, suffix)} == old(dir)
    {
      ghost var before := dir;
      if !ValidCacheKey(key) {
        return false;
      }
      var b := c.encode(Persisted(FORMAT_VERSION, r));
      if f.mkdir {
        return false;
      }
      if f.create {
        return false;
      }
      var tmp := TempName(key, suffix);
      TempIsNotFinal(key, suffix);
      FinalNameIsFinal(key);
      dir := dir[tmp := []];
      assert dir - {tmp} == before;
      if f.chmod {
        Remove(tmp, f.remove);
        return false;
      }
      if f.write.Some? {
        dir := dir[tmp := b[..if f.write.value <= |b| then f.write.value else |b|]];
        assert dir - {tmp} == before;
        Remove(tmp, f.remove);
        return false;
      }
      dir := dir[tmp := b];
      assert dir - {tmp} == before;
      if f.sync {
        Remove(tmp, f.remove);
        return false;
      }
      if f.close {
        Remove(tmp, f.remove);
        return false;
      }
      if f.rename {
        Remove(tmp, f.remove);
        return false;
      }
      dir := (dir - {tmp})[FinalName(key) := dir[tmp]];
      if f.harden {
        return false;
      }
      return true;
    }

    method LoadPersistedToken(key: string, f: LoadFaults, c: Codec) returns (result: LoadResult)
      modifies this
      ensures (dir, result) == Load(old(dir), key, f, c)
    {
      if !ValidCacheKey(key) {
        return LoadError;
      }
      var name := FinalName(key);
      if name !in dir {
        return Missing;
      }
      if f.read {
        return LoadError;
      }
      var b := dir[name];
      if |b| > MAX_FILE_SIZE {
        Remove(name, f.remove);
        return LoadError;
      }
      var data := c.decode(b);
      if data.None? {
        Remove(name, f.remove);
        return LoadError;
      }
      if data.value.formatVersion != FORMAT_VERSION {
        Remove(name, f.remove);
        return LoadError;
      }
      return Loaded(data.value.record);
    }
  }

  /**
   * A persisted record loads back, and stays on disk, exactly when its encoding is at most 10 MB;
   * a larger one is deleted by the first load that can. Other keys load as before.
   */
  lemma PersistLoadExact(dir: Dir, key: string, r: Record, c: Codec, other: string, f: LoadFaults)
    requires Lawful(c) && ValidCacheKey(key)
    ensures var after := dir[FinalName(key) := Encode(c, r)];
            && (Load(after, key, f, c) == (after, Loaded(r)) <==> Fits(c, r) && !f.read)
            && (!Fits(c, r) && !f.read ==>
                  Load(after, key, f, c) == (if f.remove then after else dir - {FinalName(key)}, LoadError))
            && (other != key ==> Load(after, other, f, c).1 == Load(dir, other, f, c).1)
  {
    var after := dir[FinalName(key) := Encode(c, r)];
    assert after - {FinalName(key)} == dir - {FinalName(key)};
    if FinalName(other) == FinalName(key) {
      FinalNameInjective(other, key);
    }
  }

  /**
   * Whatever is in a key's file: a load answers with the record if the file is at most 10 MB and
   * decodes to format version 1, and otherwise with an error and, where it can, without the file. A
   * file that cannot be read stays, and so do all other files.
   */
  lemma LoadExact(dir: Dir, key: string, f: LoadFaults, c: Codec)
    requires ValidCacheKey(key)
    ensures var name, (after, result) := FinalName(key), Load(dir, key, f, c);
            && (name !in dir ==> (after, result) == (dir, Missing))
            && (name in dir && f.read ==> (after, result) == (dir, LoadError))
            && (name in dir && !f.read ==>
                  var good := |dir[name]| <= 10_485_760 && c.decode(dir[name]).Some?
                      && c.decode(dir[name]).value.formatVersion == 1;
                  && (good ==> (after, result) == (dir, Loaded(c.decode(dir[name]).value.record)))
                  && (!good ==> result == LoadError && after == if f.remove then dir else dir - {name}))
  {
  }
}
