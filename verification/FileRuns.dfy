/**
 * Any number of PersistToken writers and LoadPersistedToken loaders on one directory, interleaved
 * at the level of single file-system calls, with failures, crashes and the stale-file cleanup.
 *
 * Directory entries name inodes, as rename and open files see them. Nobody syncs the directory, so
 * a crash may undo any renames and removals since the last one, name by name.
 */
module FileRuns {
  import opened Common
  import opened CacheKeys
  import opened TokenFiles

  /** A crash keeps the content of a synced file and may garble the others. */
  datatype File = File(content: Bytes, synced: bool)

  datatype Stage = Starting | Created | Writing(written: nat) | Written | Synced | Closed | Removing | Renamed {
    /** The writer has a temporary file of its own, under a name that may have been cleaned up. */
    predicate HasTemp() { !Starting? && !Renamed? }
  }

  datatype Writer = Writer(key: string, record: Record, suffix: string, ino: nat, stage: Stage) {
    function Temp(): string { TempName(key, suffix) }
  }

  /** `expected` is what was held for the key when the file was opened. */
  datatype Loader =
    | Opening(key: string)
    | Opened(key: string, ino: nat, expected: Record)
    | HasRead(key: string, content: Bytes, expected: Record)
    | Returned(key: string, result: LoadResult, held: Option<Record>)

  /** What was renamed into place, or found there at the start. */
  datatype Publication = Publication(key: string, record: Record)

  type Names = map<string, nat>
  type Files = map<nat, File>
  type Publications = map<nat, Publication>
  type Writers = map<nat, Writer>

  /**
   * `published` are the inodes that token names have referred to since the last crash, and `rooted`
   * the keys whose name was there after it and has not been removed: a crash cannot lose those.
   */
  datatype State = State(
    dir: Names,
    files: Files,
    nextIno: nat,
    writers: Writers,
    loaders: map<nat, Loader>,
    published: Publications,
    rooted: set<string>,
    orphans: set<string>)

  datatype Action =
    | BeginWrite(w: nat, key: string, record: Record)
    | WriterStep(w: nat, ok: bool, count: nat, suffix: string)
    | BeginLoad(l: nat, key: string)
    | LoaderStep(l: nat, ok: bool)
    | Cleanup(name: string)
    | Crash(garbled: map<nat, Bytes>, left: Names)

  /** The record a key's file stands for. */
  function Held(s: State, key: string): Option<Record> {
    var name := FinalName(key);
    if name in s.dir && s.dir[name] in s.published then Some(s.published[s.dir[name]].record) else None
  }

  ghost predicate Owned(writers: Writers, name: string) {
    exists w :: w in writers && writers[w].stage.HasTemp() && writers[w].Temp() == name
  }

  /** What a crash may leave: each token name on an inode it had, the rooted ones all there. */
  ghost predicate Survives(s: State, left: Names) {
    && (forall name <- left :: left[name] in s.files)
    && (forall name <- left :: IsFinal(name) ==>
        left[name] in s.published && FinalName(s.published[left[name]].key) == name)
    && (forall k <- s.rooted :: FinalName(k) in left)
  }

  /**
   * CreateTemp picks a name that is neither in the directory nor a live writer's, a write makes no
   * more progress than there are bytes, and only a name that is there can be renamed.
   */
  ghost predicate Enabled(s: State, a: Action, c: Codec) {
    match a
    case BeginWrite(w, _, _) => w !in s.writers
    case WriterStep(w, ok, n, suffix) => w in s.writers && (ok ==> Possible(s, s.writers[w], n, suffix, c))
    case BeginLoad(l, _) => l !in s.loaders
    case LoaderStep(l, _) => l in s.loaders && (s.loaders[l].Opened? ==> s.loaders[l].ino in s.files)
    case Cleanup(name) => name in s.dir && LooksTemporary(name)
    case Crash(_, left) => Survives(s, left)
  }

  ghost predicate Possible(s: State, me: Writer, n: nat, suffix: string, c: Codec) {
    match me.stage
    case Starting => TempName(me.key, suffix) !in s.dir && !Owned(s.writers, TempName(me.key, suffix))
    case Writing(written) => written + n <= |Encode(c, me.record)|
    case Closed => me.Temp() in s.dir
    case _ => true
  }

  function At(s: State, w: nat, stage: Stage): State
    requires w in s.writers
  {
    s.(writers := s.writers[w := s.writers[w].(stage := stage)])
  }

  function CreateTemp(s: State, w: nat, suffix: string): State
    requires w in s.writers
  {
    var me := s.writers[w].(suffix := suffix, ino := s.nextIno, stage := Created);
    s.(dir := s.dir[me.Temp() := s.nextIno], files := s.files[s.nextIno := File([], false)],
       nextIno := s.nextIno + 1, writers := s.writers[w := me])
  }

  function Fill(s: State, w: nat, f: File, stage: Stage): State
    requires w in s.writers
  {
    At(s.(files := s.files[s.writers[w].ino := f]), w, stage)
  }

  function Rename(s: State, w: nat): State
    requires w in s.writers
  {
    var me := s.writers[w];
    At(s.(dir := (s.dir - {me.Temp()})[FinalName(me.key) := me.ino],
          published := s.published[me.ino := Publication(me.key, me.record)]), w, Renamed)
  }

  /** The writer returns; a temp file it could not remove is left behind. */
  function Leave(s: State, w: nat, removed: bool): State
    requires w in s.writers
  {
    var name := s.writers[w].Temp();
    s.(dir := if removed then s.dir - {name} else s.dir,
       orphans := if removed then s.orphans else s.orphans + {name},
       writers := s.writers - {w})
  }

  ghost function StepWriter(s: State, w: nat, ok: bool, n: nat, suffix: string, c: Codec): State
    requires Enabled(s, WriterStep(w, ok, n, suffix), c)
  {
    var data := Encode(c, s.writers[w].record);
    match s.writers[w].stage
    case Starting => if ok then CreateTemp(s, w, suffix) else s.(writers := s.writers - {w})
    case Created => At(s, w, if ok then Writing(0) else Removing)
    case Writing(written) =>
      var total := if ok then written + n else 0;
      if ok then Fill(s, w, File(data[..total], false), if total == |data| then Written else Writing(total))
      else At(s, w, Removing)
    case Written => if ok then Fill(s, w, File(data, true), Synced) else At(s, w, Removing)
    case Synced => At(s, w, if ok then Closed else Removing)
    case Closed => if ok then Rename(s, w) else At(s, w, Removing)
    case Removing => Leave(s, w, ok)
    case Renamed => s.(writers := s.writers - {w})
  }

  /** What a loader makes of the bytes it read. */
  function Judge(b: Bytes, c: Codec): LoadResult {
    if |b| > MAX_FILE_SIZE then LoadError
    else
      var data := c.decode(b);
      if data.None? || data.value.formatVersion != FORMAT_VERSION then LoadError else Loaded(data.value.record)
  }

  function Opens(s: State, key: string, ok: bool): Loader {
    var held := Held(s, key);
    if !ValidCacheKey(key) || !ok then Returned(key, LoadError, held)
    else if FinalName(key) !in s.dir then Returned(key, Missing, held)
    else Opened(key, s.dir[FinalName(key)], if held.Some? then held.value else Record("", ""))
  }

  /** A file that is judged bad is removed by its name, whatever that names by then. */
  function StepLoader(s: State, l: nat, ok: bool, c: Codec): State
    requires l in s.loaders && (s.loaders[l].Opened? ==> s.loaders[l].ino in s.files)
  {
    match s.loaders[l]
    case Opening(key) => s.(loaders := s.loaders[l := Opens(s, key, ok)])
    case Opened(key, ino, expected) =>
      s.(loaders := s.loaders[l := if ok then HasRead(key, s.files[ino].content, expected)
                                   else Returned(key, LoadError, Some(expected))])
    case HasRead(key, b, expected) =>
      var n := s.(loaders := s.loaders[l := Returned(key, Judge(b, c), Some(expected))]);
      if Judge(b, c).LoadError? && ok then n.(dir := s.dir - {FinalName(key)}, rooted := s.rooted - {key}) else n
    case Returned(_, _, _) => s.(loaders := s.loaders - {l})
  }

  function Garble(files: Files, garbled: map<nat, Bytes>): Files {
    map i | i in files :: if !files[i].synced && i in garbled then File(garbled[i], false) else files[i]
  }

  /** The publications whose inode still bears its key's name. */
  function Remaining(published: Publications, left: Names): Publications {
    map i | i in published && FinalName(published[i].key) in left && left[FinalName(published[i].key)] == i ::
      published[i]
  }

  ghost function AfterCrash(s: State, garbled: map<nat, Bytes>, left: Names): State {
    var kept := Remaining(s.published, left);
    State(left, Garble(s.files, garbled), s.nextIno, map[], map[], kept, set i | i in kept :: kept[i].key,
          set name | name in left && !IsFinal(name))
  }

  ghost function Next(s: State, a: Action, c: Codec): State
    requires Enabled(s, a, c)
  {
    match a
    case BeginWrite(w, key, r) =>
      if ValidCacheKey(key) then s.(writers := s.writers[w := Writer(key, r, "", 0, Starting)]) else s
    case WriterStep(w, ok, n, suffix) => StepWriter(s, w, ok, n, suffix, c)
    case BeginLoad(l, key) => s.(loaders := s.loaders[l := Opening(key)])
    case LoaderStep(l, ok) => StepLoader(s, l, ok, c)
    case Cleanup(name) => s.(dir := s.dir - {name})
    case Crash(garbled, left) => AfterCrash(s, garbled, left)
  }

  // ------------------------------------------------------------------ The invariant

  ghost predicate Linked(dir: Names, files: Files, nextIno: nat) {
    (forall name <- dir :: dir[name] in files) && (forall i <- files :: i < nextIno)
  }

  /** A published inode holds the whole of its record, synced. */
  ghost predicate Whole(files: Files, published: Publications, c: Codec) {
    forall i <- published ::
      && ValidCacheKey(published[i].key)
      && i in files && files[i] == File(Encode(c, published[i].record), true)
  }

  /** A token name refers to an inode published for its key. */
  ghost predicate Bound(dir: Names, published: Publications, rooted: set<string>) {
    && (forall name <- dir :: IsFinal(name) ==> dir[name] in published && FinalName(published[dir[name]].key) == name)
    && (forall k <- rooted :: ValidCacheKey(k) && FinalName(k) in dir)
  }

  /** How far a writer's own file has come. */
  ghost predicate FileMatches(f: File, stage: Stage, data: Bytes) {
    match stage
    case Created => f.content == []
    case Writing(n) => n <= |data| && f.content == data[..n]
    case Written => f.content == data
    case Synced => f == File(data, true)
    case Closed => f == File(data, true)
    case _ => true
  }

  /** A writer's file is its own: no publication, no other name, and not even its own need still be there. */
  ghost predicate WriterSound(dir: Names, files: Files, published: Publications, me: Writer, c: Codec) {
    && ValidCacheKey(me.key)
    && (me.stage.HasTemp() ==>
          && me.ino in files && me.ino !in published
          && FileMatches(files[me.ino], me.stage, Encode(c, me.record))
          && (me.Temp() in dir ==> dir[me.Temp()] == me.ino)
          && (forall name <- dir :: dir[name] == me.ino ==> name == me.Temp()))
  }

  ghost predicate Apart(writers: Writers) {
    forall w <- writers, v <- writers | w != v && writers[w].stage.HasTemp() && writers[v].stage.HasTemp() ::
      writers[w].Temp() != writers[v].Temp() && writers[w].ino != writers[v].ino
  }

  ghost predicate WritersSound(dir: Names, files: Files, published: Publications, writers: Writers, c: Codec) {
    Apart(writers) && forall w <- writers :: WriterSound(dir, files, published, writers[w], c)
  }

  /** A loader has opened, read or returned what was published, whole. */
  ghost predicate LoaderSound(published: Publications, l: Loader, c: Codec) {
    match l
    case Opening(_) => true
    case Opened(key, ino, expected) => ino in published && published[ino] == Publication(key, expected)
    case HasRead(key, b, expected) => ValidCacheKey(key) && b == Encode(c, expected)
    case Returned(key, result, held) =>
      match result
      case Loaded(r) => held == Some(r) && Fits(c, r)
      case Missing => held == None
      case LoadError => true
  }

  ghost predicate LoadersSound(published: Publications, loaders: map<nat, Loader>, c: Codec) {
    forall l <- loaders :: LoaderSound(published, loaders[l], c)
  }

  /** Every other name belongs to a live writer or was left by a crash or a failed removal. */
  ghost predicate Accounted(dir: Names, writers: Writers, orphans: set<string>) {
    forall name <- dir :: IsFinal(name) || name in orphans || Owned(writers, name)
  }

  ghost predicate Inv(s: State, c: Codec) {
    && Linked(s.dir, s.files, s.nextIno) && Whole(s.files, s.published, c) && Bound(s.dir, s.published, s.rooted)
    && WritersSound(s.dir, s.files, s.published, s.writers, c)
    && LoadersSound(s.published, s.loaders, c) && Accounted(s.dir, s.writers, s.orphans)
  }

  // ------------------------------------------------------------------ Every step keeps it

  lemma OwnSound(s: State, w: nat, c: Codec)
    requires Inv(s, c) && w in s.writers
    ensures WriterSound(s.dir, s.files, s.published, s.writers[w], c)
  {
    hide Linked, Whole, Bound, LoadersSound, Accounted, WriterSound, Apart;
  }

  /** Names that stay, and owners that stay, stay accounted for. */
  lemma AccountedKept(dir: Names, writers: Writers, orphans: set<string>, dir': Names, writers': Writers,
                      orphans': set<string>)
    requires Accounted(dir, writers, orphans) && orphans <= orphans'
    requires forall name <- dir' :: name in dir || IsFinal(name) || name in orphans' || Owned(writers', name)
    requires forall w <- writers ::
               writers[w].stage.HasTemp() && writers[w].Temp() in dir' && !IsFinal(writers[w].Temp()) ==>
                 writers[w].Temp() in orphans' || Owned(writers', writers[w].Temp())
    ensures Accounted(dir', writers', orphans')
  {
    forall name | name in dir' && name in dir && Owned(writers, name) && !IsFinal(name) && name !in orphans'
      ensures Owned(writers', name)
    {
      var w :| w in writers && writers[w].stage.HasTemp() && writers[w].Temp() == name;
    }
  }

  lemma StillOwned(writers: Writers, w: nat, me: Writer)
    requires w in writers && (writers[w].stage.HasTemp() ==> me.stage.HasTemp() && me.Temp() == writers[w].Temp())
    ensures forall v <- writers :: writers[v].stage.HasTemp() ==> Owned(writers[w := me], writers[v].Temp())
  {
    forall v | v in writers && writers[v].stage.HasTemp() ensures Owned(writers[w := me], writers[v].Temp()) {
      assert v in writers[w := me] && writers[w := me][v].stage.HasTemp()
             && writers[w := me][v].Temp() == writers[v].Temp();
    }
  }

  /** A writer works on its own file. */
  lemma FillKeeps(s: State, w: nat, f: File, stage: Stage, c: Codec)
    requires Inv(s, c) && w in s.writers && s.writers[w].stage.HasTemp() && stage.HasTemp()
    requires FileMatches(f, stage, Encode(c, s.writers[w].record))
    ensures Inv(Fill(s, w, f, stage), c)
  {
    var n := Fill(s, w, f, stage);
    OwnSound(s, w, c);
    StillOwned(s.writers, w, n.writers[w]);
    assert Apart(n.writers);
    forall v | v in n.writers
      ensures WriterSound(n.dir, n.files, n.published, n.writers[v], c)
    {
      OwnSound(s, v, c);
      hide FileMatches, Encode;
    }
    hide Apart, WriterSound, FileMatches, LoadersSound;
    AccountedKept(s.dir, s.writers, s.orphans, n.dir, n.writers, n.orphans);
  }

  lemma StageKeeps(s: State, w: nat, stage: Stage, c: Codec)
    requires Inv(s, c) && w in s.writers && s.writers[w].stage.HasTemp() && stage.HasTemp()
    requires s.writers[w].ino in s.files
             && FileMatches(s.files[s.writers[w].ino], stage, Encode(c, s.writers[w].record))
    ensures Inv(At(s, w, stage), c)
  {
    hide Inv, FileMatches, Encode;
    FillKeeps(s, w, s.files[s.writers[w].ino], stage, c);
    assert s.files[s.writers[w].ino := s.files[s.writers[w].ino]] == s.files;
  }

  /** A smaller directory is sound for whoever is left, as long as no token name is gone. */
  lemma NarrowKeeps(s: State, dir: Names, writers: Writers, orphans: set<string>, c: Codec)
    requires Inv(s, c) && dir.Keys <= s.dir.Keys && (forall name <- dir :: dir[name] == s.dir[name])
    requires forall name <- s.dir :: IsFinal(name) ==> name in dir
    requires forall v <- writers :: v in s.writers && writers[v] == s.writers[v]
    requires Accounted(dir, writers, orphans)
    ensures Inv(s.(dir := dir, writers := writers, orphans := orphans), c)
  {
    forall k | k in s.rooted ensures FinalName(k) in dir { FinalNameIsFinal(k); }
    forall v | v in writers ensures WriterSound(dir, s.files, s.published, writers[v], c) {
      OwnSound(s, v, c);
      hide FileMatches, Encode;
    }
    hide WriterSound, LoadersSound, Accounted, Owned, IsFinal, FinalName;
  }

  lemma LeaveKeeps(s: State, w: nat, removed: bool, c: Codec)
    requires Inv(s, c) && w in s.writers && s.writers[w].stage.HasTemp()
    ensures Inv(Leave(s, w, removed), c)
  {
    var n := Leave(s, w, removed);
    OwnSound(s, w, c);
    TempIsNotFinal(s.writers[w].key, s.writers[w].suffix);
    WithoutOne(s, w, n.dir, n.orphans, c);
    hide Inv, Accounted, IsFinal, WriterSound;
    NarrowKeeps(s, n.dir, n.writers, n.orphans, c);
  }

  lemma WithoutOne(s: State, w: nat, dir: Names, orphans: set<string>, c: Codec)
    requires Inv(s, c) && w in s.writers && dir.Keys <= s.dir.Keys && s.orphans <= orphans
    requires s.writers[w].stage.HasTemp() ==> s.writers[w].Temp() !in dir || s.writers[w].Temp() in orphans
    ensures Accounted(dir, s.writers - {w}, orphans)
  {
    hide Linked, Whole, Bound, WritersSound, LoadersSound, IsFinal;
    var writers := s.writers - {w};
    forall v | v in s.writers && v != w && s.writers[v].stage.HasTemp() ensures Owned(writers, s.writers[v].Temp()) {
      assert v in writers;
    }
    AccountedKept(s.dir, s.writers, s.orphans, dir, writers, orphans);
  }

  /** A writer without a temporary file may go. */
  lemma ForgetKeeps(s: State, w: nat, c: Codec)
    requires Inv(s, c) && w in s.writers && !s.writers[w].stage.HasTemp()
    ensures Inv(s.(writers := s.writers - {w}), c)
  {
    WithoutOne(s, w, s.dir, s.orphans, c);
    hide Inv, Accounted, IsFinal;
    NarrowKeeps(s, s.dir, s.writers - {w}, s.orphans, c);
  }

  lemma BeginKeeps(s: State, w: nat, key: string, r: Record, c: Codec)
    requires Inv(s, c) && w !in s.writers && ValidCacheKey(key)
    ensures Inv(s.(writers := s.writers[w := Writer(key, r, "", 0, Starting)]), c)
  {
    hide Linked, Whole, Bound, LoadersSound, IsFinal, FileMatches, Encode;
    var writers := s.writers[w := Writer(key, r, "", 0, Starting)];
    forall v | v in s.writers && s.writers[v].stage.HasTemp() ensures Owned(writers, s.writers[v].Temp()) {
      assert v in writers && writers[v] == s.writers[v];
    }
    AccountedKept(s.dir, s.writers, s.orphans, s.dir, writers, s.orphans);
  }

  lemma CreateKeeps(s: State, w: nat, suffix: string, c: Codec)
    requires Inv(s, c) && Enabled(s, WriterStep(w, true, 0, suffix), c) && s.writers[w].stage.Starting?
    ensures Inv(CreateTemp(s, w, suffix), c)
  {
    var n := CreateTemp(s, w, suffix);
    CreateWriters(s, w, suffix, c);
    CreateFiles(s, w, suffix, c);
    CreateAccounted(s, w, suffix, c);
    hide Linked, Whole, Bound, WritersSound, LoadersSound, Accounted, Enabled;
  }

  lemma CreateFiles(s: State, w: nat, suffix: string, c: Codec)
    requires Inv(s, c) && Enabled(s, WriterStep(w, true, 0, suffix), c) && s.writers[w].stage.Starting?
    ensures var n := CreateTemp(s, w, suffix);
            Linked(n.dir, n.files, n.nextIno) && Whole(n.files, n.published, c) && Bound(n.dir, n.published, n.rooted)
  {
    OwnSound(s, w, c);
    TempIsNotFinal(s.writers[w].key, suffix);
    hide WritersSound, LoadersSound, Accounted, WriterSound, Owned, IsFinal, FinalName, TempName, Encode, ValidCacheKey;
  }

  lemma CreateAccounted(s: State, w: nat, suffix: string, c: Codec)
    requires Inv(s, c) && Enabled(s, WriterStep(w, true, 0, suffix), c) && s.writers[w].stage.Starting?
    ensures var n := CreateTemp(s, w, suffix); Accounted(n.dir, n.writers, n.orphans)
  {
    var n := CreateTemp(s, w, suffix);
    StillOwned(s.writers, w, n.writers[w]);
    assert Owned(n.writers, n.writers[w].Temp());
    hide Linked, Whole, Bound, WritersSound, LoadersSound, Owned, IsFinal, TempName;
    AccountedKept(s.dir, s.writers, s.orphans, n.dir, n.writers, n.orphans);
  }

  lemma CreateWriters(s: State, w: nat, suffix: string, c: Codec)
    requires Inv(s, c) && Enabled(s, WriterStep(w, true, 0, suffix), c) && s.writers[w].stage.Starting?
    ensures var n := CreateTemp(s, w, suffix); WritersSound(n.dir, n.files, n.published, n.writers, c)
  {
    hide Bound, LoadersSound, Accounted, Encode;
    var n := CreateTemp(s, w, suffix);
    OwnSound(s, w, c);
    forall v | v in s.writers && v != w && s.writers[v].stage.HasTemp()
      ensures s.writers[v].Temp() != n.writers[w].Temp() && s.writers[v].ino < s.nextIno
    {
      OwnSound(s, v, c);
    }
    forall v | v in n.writers ensures WriterSound(n.dir, n.files, n.published, n.writers[v], c) { OwnSound(s, v, c); }
    hide WriterSound;
  }

  /** The rename publishes a whole, synced record. */
  lemma RenamePublishes(s: State, w: nat, c: Codec)
    requires Inv(s, c) && w in s.writers && s.writers[w].stage.Closed? && s.writers[w].Temp() in s.dir
    ensures var n := Rename(s, w);
            Linked(n.dir, n.files, n.nextIno) && Whole(n.files, n.published, c) && Bound(n.dir, n.published, n.rooted)
  {
    var n, me := Rename(s, w), s.writers[w];
    OwnSound(s, w, c);
    TempIsNotFinal(me.key, me.suffix);
    FinalNameIsFinal(me.key);
    forall k | k in s.rooted ensures FinalName(k) != me.Temp() { FinalNameIsFinal(k); }
    hide WritersSound, LoadersSound, Accounted, IsFinal, FinalName, Encode;
  }

  lemma RenameOthers(s: State, w: nat, c: Codec)
    requires Inv(s, c) && w in s.writers && s.writers[w].stage.Closed? && s.writers[w].Temp() in s.dir
    ensures var n := Rename(s, w);
            && WritersSound(n.dir, n.files, n.published, n.writers, c)
            && LoadersSound(n.published, n.loaders, c) && Accounted(n.dir, n.writers, n.orphans)
  {
    var n, me := Rename(s, w), s.writers[w];
    OwnSound(s, w, c);
    FinalNameIsFinal(me.key);
    forall v | v in n.writers ensures WriterSound(n.dir, n.files, n.published, n.writers[v], c) {
      OwnSound(s, v, c);
      TempIsNotFinal(s.writers[v].key, s.writers[v].suffix);
      hide FileMatches, Encode, IsFinal, FinalName;
    }
    forall v | v in s.writers && v != w && s.writers[v].stage.HasTemp() ensures Owned(n.writers, s.writers[v].Temp()) {
      assert v in n.writers && n.writers[v] == s.writers[v];
    }
    forall l | l in n.loaders ensures LoaderSound(n.published, n.loaders[l], c) {
      assert LoaderSound(s.published, s.loaders[l], c);
    }
    hide WriterSound, LoaderSound, Owned, IsFinal, FinalName;
    AccountedKept(s.dir, s.writers, s.orphans, n.dir, n.writers, n.orphans);
  }

  lemma RenameKeeps(s: State, w: nat, c: Codec)
    requires Inv(s, c) && w in s.writers && s.writers[w].stage.Closed? && s.writers[w].Temp() in s.dir
    ensures Inv(Rename(s, w), c)
  {
    RenamePublishes(s, w, c);
    RenameOthers(s, w, c);
    hide Linked, Whole, Bound, WritersSound, LoadersSound, Accounted, Rename;
  }

  lemma OwnFile(s: State, w: nat, c: Codec)
    requires Inv(s, c) && w in s.writers && s.writers[w].stage.HasTemp()
    ensures s.writers[w].ino in s.files
    ensures FileMatches(s.files[s.writers[w].ino], s.writers[w].stage, Encode(c, s.writers[w].record))
  {
    OwnSound(s, w, c);
  }

  lemma AppendKeeps(s: State, w: nat, total: nat, c: Codec)
    requires Inv(s, c) && w in s.writers && s.writers[w].stage.HasTemp() && total <= |Encode(c, s.writers[w].record)|
    ensures var data := Encode(c, s.writers[w].record);
            Inv(Fill(s, w, File(data[..total], false), if total == |data| then Written else Writing(total)), c)
  {
    hide Inv, Encode;
    var data := Encode(c, s.writers[w].record);
    assert data[..|data|] == data;
    FillKeeps(s, w, File(data[..total], false), if total == |data| then Written else Writing(total), c);
  }

  lemma FailureKeeps(s: State, w: nat, count: nat, suffix: string, c: Codec)
    requires Inv(s, c) && Enabled(s, WriterStep(w, false, count, suffix), c)
    ensures Inv(StepWriter(s, w, false, count, suffix, c), c)
  {
    var me := s.writers[w];
    if me.stage.HasTemp() { OwnFile(s, w, c); }
    hide Inv, Encode, Leave;
    match me.stage
    case Starting => ForgetKeeps(s, w, c);
    case Removing => LeaveKeeps(s, w, false, c);
    case Renamed => ForgetKeeps(s, w, c);
    case _ => StageKeeps(s, w, Removing, c);
  }

  lemma SuccessKeeps(s: State, w: nat, count: nat, suffix: string, c: Codec)
    requires Inv(s, c) && Enabled(s, WriterStep(w, true, count, suffix), c)
    ensures Inv(StepWriter(s, w, true, count, suffix, c), c)
  {
    var me := s.writers[w];
    if me.stage.HasTemp() { OwnFile(s, w, c); }
    hide Inv, Encode, CreateTemp, Rename, Leave, Owned, Fill;
    match me.stage
    case Starting => CreateKeeps(s, w, suffix, c);
    case Created => StageKeeps(s, w, Writing(0), c);
    case Writing(written) =>
      hide StepWriter;
      WriteKeeps(s, w, count, suffix, c);
    case Written =>
      hide StepWriter;
      WriteKeeps(s, w, count, suffix, c);
    case Synced => StageKeeps(s, w, Closed, c);
    case Closed => RenameKeeps(s, w, c);
    case Removing => LeaveKeeps(s, w, true, c);
    case Renamed => ForgetKeeps(s, w, c);
  }

  lemma WriteKeeps(s: State, w: nat, count: nat, suffix: string, c: Codec)
    requires Inv(s, c) && Enabled(s, WriterStep(w, true, count, suffix), c)
    requires s.writers[w].stage.Writing? || s.writers[w].stage.Written?
    ensures Inv(StepWriter(s, w, true, count, suffix, c), c)
  {
    hide Inv, Encode, CreateTemp, Rename, Leave, Owned, Fill;
    if s.writers[w].stage.Writing? {
      AppendKeeps(s, w, s.writers[w].stage.written + count, c);
    } else {
      FillKeeps(s, w, File(Encode(c, s.writers[w].record), true), Synced, c);
    }
  }

  lemma LoaderMoves(s: State, l: nat, next: Loader, c: Codec)
    requires Inv(s, c) && LoaderSound(s.published, next, c)
    ensures Inv(s.(loaders := s.loaders[l := next]), c)
  {
    hide Linked, Whole, Bound, WritersSound, Accounted, LoaderSound;
  }

  lemma ReturnKeeps(s: State, l: nat, c: Codec)
    requires Inv(s, c)
    ensures Inv(s.(loaders := s.loaders - {l}), c)
  {
    hide Linked, Whole, Bound, WritersSound, Accounted, LoaderSound;
  }

  /** Whole bytes are accepted exactly when they are at most 10 MB. */
  lemma JudgeExact(r: Record, c: Codec)
    requires Lawful(c)
    ensures Judge(Encode(c, r), c) == if Fits(c, r) then Loaded(r) else LoadError
  {
  }

  /** What is in the directory under a key's name is what is held for it. */
  lemma HeldExact(s: State, key: string, c: Codec)
    requires Inv(s, c) && ValidCacheKey(key)
    ensures FinalName(key) in s.dir <==> Held(s, key).Some?
    ensures FinalName(key) in s.dir ==> s.dir[FinalName(key)] in s.published
                                        && s.published[s.dir[FinalName(key)]] == Publication(key, Held(s, key).value)
  {
    hide Linked, Whole, WritersSound, LoadersSound, Accounted;
    FinalNameIsFinal(key);
    if FinalName(key) in s.dir { FinalNameInjective(s.published[s.dir[FinalName(key)]].key, key); }
    hide IsFinal, FinalName;
  }

  lemma OpenSound(s: State, key: string, ok: bool, c: Codec)
    requires Inv(s, c)
    ensures LoaderSound(s.published, Opens(s, key, ok), c)
  {
    if ValidCacheKey(key) { HeldExact(s, key, c); }
    hide Inv, FinalName, IsFinal;
  }

  /** Taking a token name away disturbs nobody. */
  lemma DiscardKeeps(s: State, key: string, c: Codec)
    requires Inv(s, c) && ValidCacheKey(key)
    ensures Inv(s.(dir := s.dir - {FinalName(key)}, rooted := s.rooted - {key}), c)
  {
    var dir, rooted := s.dir - {FinalName(key)}, s.rooted - {key};
    forall k | k in rooted ensures FinalName(k) in dir {
      if FinalName(k) == FinalName(key) { FinalNameInjective(k, key); }
    }
    forall v | v in s.writers ensures WriterSound(dir, s.files, s.published, s.writers[v], c) {
      OwnSound(s, v, c);
      hide FileMatches, Encode;
    }
    hide WriterSound, LoadersSound, Owned, IsFinal, FinalName;
  }

  lemma LoaderKeeps(s: State, l: nat, ok: bool, c: Codec)
    requires Inv(s, c) && Lawful(c) && Enabled(s, LoaderStep(l, ok), c)
    ensures Inv(StepLoader(s, l, ok, c), c)
  {
    var n := StepLoader(s, l, ok, c);
    assert LoaderSound(s.published, s.loaders[l], c);
    match s.loaders[l]
    case Opening(key) =>
      hide Inv, LoaderSound, Opens;
      OpenSound(s, key, ok, c);
      LoaderMoves(s, l, n.loaders[l], c);
    case Opened(key, ino, expected) =>
      PublishedWhole(s, ino, c);
      hide Inv;
      LoaderMoves(s, l, n.loaders[l], c);
    case HasRead(key, b, expected) =>
      hide Inv, Encode, Judge, Fits;
      JudgeExact(expected, c);
      LoaderMoves(s, l, n.loaders[l], c);
      if !Fits(c, expected) && ok { DiscardKeeps(s.(loaders := n.loaders), key, c); }
    case Returned(_, _, _) =>
      hide Inv;
      ReturnKeeps(s, l, c);
  }

  lemma PublishedWhole(s: State, ino: nat, c: Codec)
    requires Inv(s, c) && ino in s.published
    ensures ValidCacheKey(s.published[ino].key) && ino in s.files
    ensures s.files[ino].content == Encode(c, s.published[ino].record)
  {
  }

  /** The cleanup may take a live writer's name away, never a token file's. */
  lemma CleanupKeeps(s: State, name: string, c: Codec)
    requires Inv(s, c) && Enabled(s, Cleanup(name), c)
    ensures Inv(s.(dir := s.dir - {name}), c)
  {
    if IsFinal(name) { FinalIsNotTemporary(name); }
    assert Accounted(s.dir - {name}, s.writers, s.orphans);
    hide Inv, IsFinal, Accounted, LooksTemporary;
    NarrowKeeps(s, s.dir - {name}, s.writers, s.orphans, c);
  }

  /** Token files are synced before they get their name: whatever a crash leaves, they are whole. */
  lemma CrashKeeps(s: State, garbled: map<nat, Bytes>, left: Names, c: Codec)
    requires Inv(s, c) && Survives(s, left)
    ensures Inv(AfterCrash(s, garbled, left), c)
  {
    hide WritersSound, LoadersSound;
    var n := AfterCrash(s, garbled, left);
    assert Accounted(n.dir, n.writers, n.orphans);
    hide Accounted;
    NobodyIsSound(n.dir, n.files, n.published, c);
    hide IsFinal, FinalName, Encode, ValidCacheKey;
  }

  lemma NobodyIsSound(dir: Names, files: Files, published: Publications, c: Codec)
    ensures WritersSound(dir, files, published, map[], c) && LoadersSound(published, map[], c)
  {
  }

  lemma InvStep(s: State, a: Action, c: Codec)
    requires Lawful(c) && Inv(s, c) && Enabled(s, a, c)
    ensures Inv(Next(s, a, c), c)
  {
    hide Inv, StepWriter, StepLoader, AfterCrash, Possible, Survives;
    match a
    case BeginWrite(w, key, r) => if ValidCacheKey(key) { BeginKeeps(s, w, key, r, c); }
    case WriterStep(w, ok, n, suffix) =>
      if ok { SuccessKeeps(s, w, n, suffix, c); } else { FailureKeeps(s, w, n, suffix, c); }
    case BeginLoad(l, key) => LoaderMoves(s, l, Opening(key), c);
    case LoaderStep(l, ok) => LoaderKeeps(s, l, ok, c);
    case Cleanup(name) => CleanupKeeps(s, name, c);
    case Crash(garbled, left) => CrashKeeps(s, garbled, left, c);
  }

  // ------------------------------------------------------------------ Runs

  datatype Run = Run(states: seq<State>, actions: seq<Action>)

  /** A directory nobody has tampered with: whole token files, and other names no one owns. */
  ghost predicate Starts(s: State, c: Codec) {
    && s.writers == map[] && s.loaders == map[]
    && Linked(s.dir, s.files, s.nextIno) && Whole(s.files, s.published, c) && Bound(s.dir, s.published, s.rooted)
    && Remaining(s.published, s.dir) == s.published
    && (forall i <- s.published :: s.published[i].key in s.rooted)
    && (forall name <- s.dir :: IsFinal(name) || name in s.orphans)
  }

  ghost predicate IsRun(r: Run, c: Codec) {
    && |r.states| == |r.actions| + 1 && Starts(r.states[0], c)
    && forall i {:trigger r.actions[i]} | 0 <= i < |r.actions| ::
         Enabled(r.states[i], r.actions[i], c) && r.states[i + 1] == Next(r.states[i], r.actions[i], c)
  }

  lemma {:induction false} InvRun(r: Run, i: nat, c: Codec)
    requires Lawful(c) && IsRun(r, c) && i < |r.states|
    ensures Inv(r.states[i], c)
  {
    hide Next, Enabled;
    if i == 0 {
      NobodyIsSound(r.states[0].dir, r.states[0].files, r.states[0].published, c);
    } else {
      InvRun(r, i - 1, c);
      hide Inv, Starts;
      InvStep(r.states[i - 1], r.actions[i - 1], c);
    }
  }
}
