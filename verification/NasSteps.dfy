/**
 How the stores move between two points of a run: what producers, time and crashes may do between
 two steps of the archiver, and what each stretch of a run keeps.
 */
module NasSteps {
  import opened Options
  import opened NasStores

  datatype Outcome<+T> = Done(value: T) | Failed

  // Where a transfer reads from: a live local folder, or a private staging directory.
  datatype Source = Folder(dir: Dir) | Staged(files: map<Name, Content>)

  /******* What happens to a payload *******/

  predicate Since(stamps: map<Path, nat>, p: Path, clock: nat) {
    p in stamps && clock <= stamps[p]
  }

  // A payload of which the local disk holds nothing.
  predicate Archived(s: Stores, p: Path) {
    p !in s.local && p !in s.disk
  }

  // The payload is still known, with the same bytes unless a producer rewrote it; and one that only the NAS
  // held is still only there, and the same, unless it was restored.
  predicate PayloadKept(a: Stores, b: Stores, p: Path)
    requires p in a.payload
  {
    && p in b.payload
    && (b.payload[p] == a.payload[p] || Since(b.written, p, a.clock))
    && (Archived(a, p) ==> (Archived(b, p) && b.payload[p] == a.payload[p]) || Since(b.restored, p, a.clock))
  }

  predicate StampsGrow(before: map<Path, nat>, after: map<Path, nat>, clock: nat) {
    forall p :: p in before ==> p in after && (after[p] == before[p] || clock <= after[p])
  }

  /** No payload is forgotten, and none changes behind a producer's back. */
  ghost predicate HistoryKept(a: Stores, b: Stores) {
    && a.clock <= b.clock
    && StampsGrow(a.written, b.written, a.clock) && StampsGrow(a.restored, b.restored, a.clock)
    && (forall p: Path :: p in a.payload && IsPayload(p) ==> PayloadKept(a, b, p))
    && NoStrangers(a, b)
  }

  // A file that was there, or what a power loss made of it.
  predicate FromBefore(a: Stores, p: Path, f: File) {
    (p in a.local && Survives(a.local[p], f)) || (p in a.disk && Survives(a.disk[p], f))
  }

  // A payload file that bears an old stamp is the old file.
  ghost predicate NoStrangers(a: Stores, b: Stores) {
    && (forall p: Path :: IsPayload(p) && p in b.local ==> a.clock <= b.local[p].stamp || FromBefore(a, p, b.local[p]))
    && (forall p: Path :: IsPayload(p) && p in b.disk ==> a.clock <= b.disk[p].stamp || FromBefore(a, p, b.disk[p]))
  }

  lemma NoStrangersTransitive(a: Stores, b: Stores, c: Stores)
    requires a.clock <= b.clock && NoStrangers(a, b) && NoStrangers(b, c)
    ensures NoStrangers(a, c)
  {
  }

  lemma HistoryTransitive(a: Stores, b: Stores, c: Stores)
    requires HistoryKept(a, b) && HistoryKept(b, c)
    ensures HistoryKept(a, c)
  {
    hide NoStrangers;
    NoStrangersTransitive(a, b, c);
    forall p: Path | p in a.payload && IsPayload(p)
      ensures PayloadKept(a, c, p)
    {
      assert PayloadKept(a, b, p) && PayloadKept(b, c, p);
    }
  }

  // A step that leaves the payloads as they are and puts no file where there was none.
  lemma QuietHistory(a: Stores, b: Stores)
    requires a.clock <= b.clock && b.payload == a.payload && b.written == a.written && b.restored == a.restored
    requires forall p: Path :: IsPayload(p) && p in b.local ==> FromBefore(a, p, b.local[p])
    requires forall p: Path :: IsPayload(p) && p in b.disk ==> FromBefore(a, p, b.disk[p])
    ensures HistoryKept(a, b)
  {
  }

  lemma ProduceHistory(s: Stores, held: set<Dir>, p: Path, c: Content, mtime: int)
    requires MayProduce(s, held, p)
    ensures HistoryKept(s, AfterProduce(s, p, c, mtime))
  {
    var t := AfterProduce(s, p, c, mtime);
    forall q: Path | q in s.payload && IsPayload(q)
      ensures PayloadKept(s, t, q)
    {
      assert q == p ==> p in s.local;
    }
  }

  lemma NothingHappened(s: Stores)
    ensures HistoryKept(s, s)
  {
    QuietHistory(s, s);
  }

  // Under the invariant, what the history says of each payload.
  lemma HistoryOfAll(a: Stores, b: Stores)
    requires Sound(a) && Sound(b) && HistoryKept(a, b)
    ensures forall p :: p in a.payload ==> p in b.payload && (b.payload[p] == a.payload[p] || Since(b.written, p, a.clock))
    ensures forall p :: p in a.payload && Archived(a, p) ==>
      (b.payload[p] == a.payload[p] && OnNas(b, p)) || Since(b.restored, p, a.clock)
  {
    hide Sound, OnNas;
    forall p | p in a.payload
      ensures PayloadKept(a, b, p)
      ensures Archived(b, p) ==> OnNas(b, p)
    {
      StoredIsPayload(a, p);
      assert PayloadKept(a, b, p);
      ArchivedIsOnNas(b, p);
    }
  }

  lemma ArchivedIsOnNas(s: Stores, p: Path)
    requires Sound(s) && p in s.payload
    ensures Archived(s, p) ==> OnNas(s, p)
  {
    assert PayloadSound(s, p);
  }

  lemma LinkHistory(s: Stores, p: Path, c: Content)
    ensures HistoryKept(s, AfterLink(s, p, c))
  {
  }

  /******* What the world may do between two steps *******/

  ghost predicate FileSteps(a: Stores, b: Stores, held: set<Dir>) {
    && (forall p: Path :: p in a.local && !ToolOwned(p) ==>
          p in b.local && (b.local[p] == a.local[p] || (a.clock <= b.local[p].stamp && p.dir !in held)))
    && (forall p: Path :: p in b.local && p !in a.local && !ToolOwned(p) ==>
          a.clock <= b.local[p].stamp && p.dir !in held && p !in a.payload && p in b.disk)
    && (forall p: Path :: p in a.local && p in a.disk && !ToolOwned(p) ==> p in b.disk)
    && (forall p: Path :: p in b.disk && p !in a.disk && !ToolOwned(p) ==> p in b.local)
    && (forall p: Path :: p.dir in held && p in a.local && p in a.disk && a.local[p] == a.disk[p] && !ToolOwned(p) ==>
          p in b.disk && b.disk[p] == a.disk[p])
  }

  ghost predicate PayloadSteps(a: Stores, b: Stores, held: set<Dir>) {
    && (forall p: Path :: p in a.payload && !ToolOwned(p) ==>
          p in b.payload
          && (b.payload[p] == a.payload[p]
              || (p in b.local && p in b.disk && a.clock <= b.local[p].stamp && p.dir !in held)))
    && (forall p: Path :: p in b.payload && p !in a.payload && !ToolOwned(p) ==> p in b.local && p in b.disk && p.dir !in held)
  }

  /** From a to b only producers and the clock touched anything that is not the archiver's own. */
  ghost predicate Steps(a: Stores, b: Stores, held: set<Dir>) {
    a.clock <= b.clock && a.now <= b.now && FileSteps(a, b, held) && PayloadSteps(a, b, held) && HistoryKept(a, b)
  }

  /** The archiver's own files are as they were, though the kernel may have written them back. */
  ghost predicate OwnFilesKept(a: Stores, b: Stores) {
    forall p: Path :: ToolOwned(p) ==>
      && Find(b.local, p) == Find(a.local, p)
      && (Find(b.disk, p) == Find(a.disk, p) || Find(b.disk, p) == Find(a.local, p))
  }

  ghost predicate Stopped(a: Stores, b: Stores) {
    b == a || (CrashImage(a, b.local) && b == AfterPowerLoss(a, b.local))
  }

  /** Durable payloads stay, and so do settled files that are held or the archiver's own. */
  ghost predicate Keeps(a: Stores, b: Stores, held: set<Dir>, touched: set<Path>) {
    && a.now <= b.now && HistoryKept(a, b)
    && (forall p: Path :: IsPayload(p) && p in a.local && p in a.disk ==> p in b.local && p in b.disk)
    && (forall p: Path :: Settled(a, p) && (p.dir in held || ToolOwned(p)) && p !in touched ==>
          Settled(b, p) && b.local[p] == a.local[p])
  }

  predicate Settled(s: Stores, p: Path) {
    p in s.local && p in s.disk && s.local[p] == s.disk[p] && s.local[p].synced
  }

  lemma StepsTransitive(a: Stores, b: Stores, c: Stores, held: set<Dir>)
    requires Steps(a, b, held) && Steps(b, c, held)
    ensures Steps(a, c, held)
  {
    hide HistoryKept;
    HistoryTransitive(a, b, c);
    FileStepsTransitive(a, b, c, held);
    assert PayloadSteps(a, c, held);
  }

  lemma FileStepsTransitive(a: Stores, b: Stores, c: Stores, held: set<Dir>)
    requires a.clock <= b.clock && PayloadSteps(a, b, held)
    requires FileSteps(a, b, held) && FileSteps(b, c, held)
    ensures FileSteps(a, c, held)
  {
  }

  /** A stretch of a run in which the archiver did nothing to its own files. */
  ghost predicate Ran(a: Stores, b: Stores, held: set<Dir>) {
    Steps(a, b, held) && OwnFilesKept(a, b)
  }

  lemma RanReflexive(a: Stores, held: set<Dir>)
    ensures Ran(a, a, held)
  {
    QuietHistory(a, a);
  }

  lemma RanTransitive(a: Stores, b: Stores, c: Stores, held: set<Dir>)
    requires Ran(a, b, held) && Ran(b, c, held)
    ensures Ran(a, c, held)
  {
    StepsTransitive(a, b, c, held);
  }

  lemma KeepsClock(a: Stores, b: Stores, held: set<Dir>, touched: set<Path>)
    requires Keeps(a, b, held, touched)
    ensures a.now <= b.now
  {
  }

  lemma KeepsReflexive(a: Stores, held: set<Dir>)
    ensures Keeps(a, a, held, {})
  {
    QuietHistory(a, a);
  }

  lemma KeepsWiden(a: Stores, b: Stores, held: set<Dir>, touched: set<Path>)
    requires Keeps(a, b, held, {})
    ensures Keeps(a, b, held, touched)
  {
    hide HistoryKept;
  }

  lemma KeepsTransitive(a: Stores, b: Stores, c: Stores, held: set<Dir>, touched: set<Path>)
    requires Keeps(a, b, held, touched) && Keeps(b, c, held, touched)
    ensures Keeps(a, c, held, touched)
  {
    hide HistoryKept;
    HistoryTransitive(a, b, c);
  }

  lemma RanKeeps(a: Stores, b: Stores, held: set<Dir>)
    requires Ran(a, b, held)
    ensures Keeps(a, b, held, {})
  {
    forall p: Path | Settled(a, p) && (p.dir in held || ToolOwned(p))
      ensures Settled(b, p) && b.local[p] == a.local[p]
    {
      if ToolOwned(p) {
        assert Find(b.local, p) == Find(a.local, p);
      }
    }
  }

  lemma RanThenStopped(a: Stores, b: Stores, c: Stores, held: set<Dir>)
    requires Ran(a, b, held) && Sound(b) && Stopped(b, c)
    ensures Keeps(a, c, held, {})
  {
    RanKeeps(a, b, held);
    StopKeeps(b, c, held);
    KeepsTransitive(a, b, c, held, {});
  }

  lemma StopKeeps(a: Stores, b: Stores, held: set<Dir>)
    requires Sound(a) && Stopped(a, b)
    ensures Keeps(a, b, held, {})
  {
    hide Sound, Keeps;
    if b == a {
      KeepsReflexive(a, held);
    } else {
      PowerLossKeeps(a, b, held);
    }
  }

  lemma PowerLossKeeps(a: Stores, b: Stores, held: set<Dir>)
    requires CrashImage(a, b.local) && b == AfterPowerLoss(a, b.local)
    ensures Keeps(a, b, held, {})
  {
    hide HistoryKept;
    QuietHistory(a, b);
    forall p: Path | Settled(a, p)
      ensures Settled(b, p) && b.local[p] == a.local[p]
    {
    }
  }

  lemma ProduceIsStep(s: Stores, held: set<Dir>, p: Path, c: Content, mtime: int)
    requires MayProduce(s, held, p) && AllKept(s)
    ensures Ran(s, AfterProduce(s, p, c, mtime), held)
  {
    hide HistoryKept, FileSteps, PayloadSteps, AllKept;
    ProduceHistory(s, held, p, c, mtime);
    ProduceFiles(s, held, p, c, mtime);
    ProducePayload(s, held, p, c, mtime);
  }

  lemma ProduceFiles(s: Stores, held: set<Dir>, p: Path, c: Content, mtime: int)
    requires MayProduce(s, held, p) && AllKept(s)
    ensures FileSteps(s, AfterProduce(s, p, c, mtime), held)
  {
  }

  lemma ProducePayload(s: Stores, held: set<Dir>, p: Path, c: Content, mtime: int)
    requires MayProduce(s, held, p)
    ensures PayloadSteps(s, AfterProduce(s, p, c, mtime), held)
  {
  }

  lemma ElapseIsStep(s: Stores, held: set<Dir>, seconds: nat)
    ensures Ran(s, AfterElapse(s, seconds), held)
  {
    hide HistoryKept;
    QuietHistory(s, AfterElapse(s, seconds));
  }

  // A transfer to `target` may disturb any NAS name in `names`: every payload stored there must
  // be safe on the local disk.
  ghost predicate Cleared(s: Stores, target: Dir, names: set<Name>) {
    forall p: Path :: p in s.payload && p.dir == target && NasName(p.name) in names ==> p in s.local && p in s.disk
  }

  ghost predicate NasKeptOutside(a: Stores, b: Stores, target: Dir, names: set<Name>) {
    forall p: Path :: p.dir != target || p.name !in names ==> Find(b.nas, p) == Find(a.nas, p)
  }

  lemma RanKeepsCleared(a: Stores, b: Stores, held: set<Dir>, target: Dir, names: set<Name>)
    requires Ran(a, b, held) && Sound(b) && Cleared(a, target, names)
    ensures Cleared(b, target, names)
  {
    hide Ran, Sound;
    forall p: Path | p in b.payload && p.dir == target && NasName(p.name) in names
      ensures p in b.local && p in b.disk
    {
      StoredIsPayload(b, p);
      DurableStays(a, b, held, p);
    }
  }

  // A payload file that is there and durable stays so, and a new one is both.
  lemma DurableStays(a: Stores, b: Stores, held: set<Dir>, p: Path)
    requires Ran(a, b, held) && IsPayload(p) && p in b.payload
    requires p in a.payload ==> p in a.local && p in a.disk
    ensures p in b.local && p in b.disk
  {
    hide OwnFilesKept;
  }

  lemma PutDuringTransfer(s: Stores, held: set<Dir>, target: Dir, names: set<Name>, n: Name, c: Content)
    requires Sound(s) && Cleared(s, target, names) && n in names
    ensures var t := AfterPut(s, Path(target, n), c);
      Sound(t) && Cleared(t, target, names) && Ran(s, t, held) && NasKeptOutside(s, t, target, names)
  {
    hide Sound, Ran;
    PutKeepsSound(s, Path(target, n), c);
    PutRuns(s, Path(target, n), c, held);
  }

  lemma PutRuns(s: Stores, at: Path, c: Content, held: set<Dir>)
    ensures Ran(s, AfterPut(s, at, c), held)
  {
  }

  // The source file a digest is taken from.
  predicate ReadableAt(source: Source, n: Name, s: Stores) {
    if source.Folder? then Path(source.dir, n) in s.local else n in source.files
  }

  function ContentAt(source: Source, n: Name, s: Stores): Content
    requires ReadableAt(source, n, s)
  {
    if source.Folder? then s.local[Path(source.dir, n)].content else source.files[n]
  }

  // The source file was there at a, and is still the same version of it at b.
  ghost predicate SameVersion(source: Source, n: Name, a: Stores, b: Stores) {
    && ReadableAt(source, n, a) && ReadableAt(source, n, b)
    && (source.Folder? ==> a.local[Path(source.dir, n)].stamp == b.local[Path(source.dir, n)].stamp)
  }

  predicate PlainNames(names: set<Name>) {
    forall n :: n in names ==> !n.FrameReceipt? && !n.ColdReceipt? && !n.DayReceipt? && !n.Pending?
  }

  // Every recorded digest is that of the source as it was at a, unless the source changed since.
  ghost predicate Hashed(source: Source, hashes: map<Name, Digest>, a: Stores, b: Stores) {
    forall n :: n in hashes && SameVersion(source, n, a, b) ==> hashes[n] == Sha256(ContentAt(source, n, b))
  }

  lemma NothingHashed(source: Source, s: Stores)
    ensures Hashed(source, map[], s, s)
  {
  }

  lemma OneMoreHashed(source: Source, hashes: map<Name, Digest>, a: Stores, b: Stores, n: Name)
    requires Hashed(source, hashes, a, b) && ReadableAt(source, n, b)
    ensures Hashed(source, hashes[n := Sha256(ContentAt(source, n, b))], a, b)
  {
  }

  // A version seen at both ends of a run was there in the middle.
  lemma RanKeepsHashed(source: Source, hashes: map<Name, Digest>, a: Stores, b: Stores, c: Stores, held: set<Dir>)
    requires Sound(a) && Ran(a, b, held) && Ran(b, c, held) && PlainNames(hashes.Keys)
    requires Hashed(source, hashes, a, b)
    ensures Hashed(source, hashes, a, c)
  {
  }

  lemma HashedFromEarlier(source: Source, hashes: map<Name, Digest>, a: Stores, b: Stores, c: Stores, held: set<Dir>)
    requires Sound(a) && Ran(a, b, held) && Ran(b, c, held) && PlainNames(hashes.Keys)
    requires Hashed(source, hashes, b, c)
    ensures Hashed(source, hashes, a, c)
  {
  }

  lemma RanThenKeeps(a: Stores, b: Stores, c: Stores, held: set<Dir>)
    requires Ran(a, b, held) && Keeps(b, c, held, {})
    ensures Keeps(a, c, held, {})
  {
    RanKeeps(a, b, held);
    KeepsTransitive(a, b, c, held, {});
  }

  /** A stretch of a run in which the archiver touched only the files in `touched`. */
  ghost predicate Saving(a: Stores, b: Stores, held: set<Dir>, touched: set<Path>) {
    Steps(a, b, held) && Keeps(a, b, held, touched)
  }

  lemma SavingThenRan(a: Stores, b: Stores, c: Stores, held: set<Dir>, touched: set<Path>)
    requires Saving(a, b, held, touched) && Ran(b, c, held)
    ensures Saving(a, c, held, touched)
  {
    StepsTransitive(a, b, c, held);
    RanKeeps(b, c, held);
    KeepsTransitive(a, b, c, held, touched);
  }

  lemma SavingTransitive(a: Stores, b: Stores, c: Stores, held: set<Dir>, touched: set<Path>)
    requires Saving(a, b, held, touched) && Saving(b, c, held, touched)
    ensures Saving(a, c, held, touched)
  {
    StepsTransitive(a, b, c, held);
    KeepsTransitive(a, b, c, held, touched);
  }

  lemma SavingThenKeeps(a: Stores, b: Stores, c: Stores, held: set<Dir>, touched: set<Path>)
    requires Saving(a, b, held, touched) && Keeps(b, c, held, {})
    ensures Keeps(a, c, held, touched)
  {
    KeepsTransitive(a, b, c, held, touched);
  }

  lemma WriteSaves(s: Stores, p: Path, c: Content, held: set<Dir>, touched: set<Path>)
    requires ToolOwned(p) && p in touched && !IsPayload(p)
    ensures Saving(s, AfterWrite(s, p, c), held, touched)
  {
    hide HistoryKept;
    QuietHistory(s, AfterWrite(s, p, c));
  }

  lemma FsyncSaves(s: Stores, p: Path, held: set<Dir>, touched: set<Path>)
    requires p in s.local && ToolOwned(p) && p in touched && !IsPayload(p)
    ensures Saving(s, AfterFsync(s, p), held, touched)
  {
    hide HistoryKept;
    QuietHistory(s, AfterFsync(s, p));
  }

  lemma ReplaceSaves(s: Stores, from: Path, to: Path, held: set<Dir>, touched: set<Path>)
    requires from in s.local && from in touched && to in touched
    requires ToolOwned(from) && ToolOwned(to) && !IsPayload(from) && !IsPayload(to)
    ensures Saving(s, AfterReplace(s, from, to), held, touched)
  {
    hide HistoryKept;
    QuietHistory(s, AfterReplace(s, from, to));
  }

  lemma FsyncDirSaves(s: Stores, d: Dir, held: set<Dir>, touched: set<Path>)
    ensures Saving(s, AfterFsyncDir(s, d), held, touched)
  {
    hide AfterFsyncDir, Steps, Keeps;
    FsyncDirOnDisk(s, d);
    FsyncDirSteps(s, AfterFsyncDir(s, d), d, held, touched);
  }

  lemma FsyncDirHistory(a: Stores, s: Stores, d: Dir)
    requires HistoryKept(a, s)
    ensures HistoryKept(a, AfterFsyncDir(s, d))
  {
    hide HistoryKept, AfterFsyncDir;
    FsyncDirSaves(s, d, {}, {});
    HistoryTransitive(a, s, AfterFsyncDir(s, d));
  }

  // What synchronising a directory changes: its entries on disk become those in sight.
  ghost predicate DirectorySynced(s: Stores, t: Stores, d: Dir) {
    && t == s.(disk := t.disk)
    && forall p: Path :: Find(t.disk, p) == if p.dir == d then Find(s.local, p) else Find(s.disk, p)
  }

  lemma FsyncDirOnDisk(s: Stores, d: Dir)
    ensures DirectorySynced(s, AfterFsyncDir(s, d), d)
  {
  }

  lemma FsyncDirSteps(s: Stores, t: Stores, d: Dir, held: set<Dir>, touched: set<Path>)
    requires DirectorySynced(s, t, d)
    ensures Steps(s, t, held) && Keeps(s, t, held, touched)
  {
    hide HistoryKept, FileSteps, DirectorySynced;
    SyncedEntries(s, t, d);
    QuietHistory(s, t);
    QuietFiles(s, t, held);
  }

  lemma SyncedEntries(s: Stores, t: Stores, d: Dir)
    requires DirectorySynced(s, t, d)
    ensures t == s.(disk := t.disk)
    ensures forall p: Path :: p in s.disk && p in s.local ==> p in t.disk && t.disk[p] in {s.local[p], s.disk[p]}
    ensures forall p: Path :: p in t.disk && p !in s.disk ==> p in s.local
    ensures forall p: Path :: p in t.disk ==> (p in s.local && t.disk[p] == s.local[p]) || (p in s.disk && t.disk[p] == s.disk[p])
  {
    forall p: Path
      ensures p in t.disk ==> (p in s.local && t.disk[p] == s.local[p]) || (p in s.disk && t.disk[p] == s.disk[p])
      ensures p in s.disk && p in s.local ==> p in t.disk && t.disk[p] in {s.local[p], s.disk[p]}
      ensures p in t.disk && p !in s.disk ==> p in s.local
    {
      assert Find(t.disk, p) == if p.dir == d then Find(s.local, p) else Find(s.disk, p);
    }
  }

  // Only the disk changes, and only towards what is in sight.
  lemma QuietFiles(s: Stores, t: Stores, held: set<Dir>)
    requires t == s.(disk := t.disk)
    requires forall p: Path :: p in s.disk && p in s.local ==> p in t.disk && t.disk[p] in {s.local[p], s.disk[p]}
    requires forall p: Path :: p in t.disk && p !in s.disk ==> p in s.local
    ensures FileSteps(s, t, held)
  {
  }

  lemma PayloadIsPayload(s: Stores, p: Path)
    requires Sound(s) && p in s.payload
    ensures IsPayload(p) && !ToolOwned(p)
  {
    assert PayloadSound(s, p);
  }

  lemma LocalIsPayload(s: Stores, p: Path)
    requires Sound(s) && IsPayload(p) && p in s.local
    ensures p in s.payload && s.payload[p] == s.local[p].content
  {
    assert PayloadSound(s, p);
  }

  lemma RanKeepsMayReplace(a: Stores, b: Stores, held: set<Dir>, to: Path, doc: Document)
    requires Ran(a, b, held) && Sound(a) && Sound(b) && MayReplace(a, to, doc)
    ensures MayReplace(b, to, doc)
  {
    hide Sound, FileSteps, OwnFilesKept, Vouchable;
    forall p: Path | p in b.payload && ReceiptPath(p) == to
      ensures Vouchable(b, p, doc)
    {
      PayloadIsPayload(b, p);
      RanKeepsVouchable(a, b, held, p, doc);
    }
    forall p: Path | p in a.payload
      ensures p in b.payload
    {
      PayloadIsPayload(a, p);
    }
  }

  lemma RanKeepsVouchable(a: Stores, b: Stores, held: set<Dir>, p: Path, doc: Document)
    requires Steps(a, b, held) && p in b.payload && IsPayload(p)
    requires p in a.payload ==> Vouchable(a, p, doc)
    ensures Vouchable(b, p, doc)
  {
  }

  function PendingPath(to: Path): Path {
    Path(to.dir, Pending(to.name))
  }

  // The three stages of a receipt: written, on disk under its temporary name, published.
  ghost predicate Staging(s: Stores, to: Path, doc: Document, synced: bool) {
    && Sound(s) && ToolOwned(to) && MayReplace(s, to, doc)
    && PendingPath(to) in s.local
    && s.local[PendingPath(to)].content.Json? && s.local[PendingPath(to)].content.doc == doc
    && (synced ==> s.local[PendingPath(to)].synced)
  }

  ghost predicate Published(s: Stores, to: Path, doc: Document) {
    to in s.local && s.local[to].synced && s.local[to].content.Json? && s.local[to].content.doc == doc
  }

  lemma RanKeepsStaging(a: Stores, b: Stores, held: set<Dir>, to: Path, doc: Document, synced: bool)
    requires Staging(a, to, doc, synced) && Ran(a, b, held) && Sound(b)
    ensures Staging(b, to, doc, synced)
  {
    RanKeepsMayReplace(a, b, held, to, doc);
    assert Find(b.local, PendingPath(to)) == Find(a.local, PendingPath(to));
  }

  lemma RanKeepsPublished(a: Stores, b: Stores, held: set<Dir>, to: Path, doc: Document)
    requires Published(a, to, doc) && ToolOwned(to) && Ran(a, b, held)
    ensures Published(b, to, doc)
  {
    assert Find(b.local, to) == Find(a.local, to);
  }

  lemma SameMayReplace(s: Stores, t: Stores, to: Path, doc: Document)
    requires t.payload == s.payload && t.disk == s.disk && Sound(s)
    requires forall p: Path :: IsPayload(p) && p in s.local ==> p in t.local
    requires MayReplace(s, to, doc)
    ensures MayReplace(t, to, doc)
  {
    forall p: Path | p in s.payload && ReceiptPath(p) == to
      ensures Vouchable(t, p, doc)
    {
      assert Vouchable(s, p, doc);
      assert IsPayload(p) by { assert PayloadSound(s, p); }
    }
  }

  lemma WriteStage(s: Stores, to: Path, doc: Document, length: nat, held: set<Dir>)
    requires Sound(s) && ToolOwned(to) && MayReplace(s, to, doc)
    ensures var t := AfterWrite(s, PendingPath(to), Json(doc, length));
      Staging(t, to, doc, false) && Saving(s, t, held, {to, PendingPath(to)})
  {
    hide Sound, Steps, Keeps, MayReplace;
    WriteKeepsSound(s, PendingPath(to), Json(doc, length));
    WriteSaves(s, PendingPath(to), Json(doc, length), held, {to, PendingPath(to)});
    SameMayReplace(s, AfterWrite(s, PendingPath(to), Json(doc, length)), to, doc);
  }

  lemma FsyncStage(s: Stores, to: Path, doc: Document, held: set<Dir>)
    requires Staging(s, to, doc, false)
    ensures var t := AfterFsync(s, PendingPath(to));
      Staging(t, to, doc, true) && Saving(s, t, held, {to, PendingPath(to)})
  {
    hide Sound, Steps, Keeps, MayReplace;
    FsyncKeepsSound(s, PendingPath(to));
    FsyncSaves(s, PendingPath(to), held, {to, PendingPath(to)});
    SameMayReplace(s, AfterFsync(s, PendingPath(to)), to, doc);
  }

  lemma ReplaceStage(s: Stores, to: Path, doc: Document, held: set<Dir>)
    requires Staging(s, to, doc, true)
    ensures var t := AfterReplace(s, PendingPath(to), to);
      Sound(t) && Published(t, to, doc) && Saving(s, t, held, {to, PendingPath(to)})
  {
    hide Sound, Steps, Keeps, MayReplace;
    ReplaceKeepsSound(s, PendingPath(to), to);
    ReplaceSaves(s, PendingPath(to), to, held, {to, PendingPath(to)});
  }

  predicate VerifiedName(nas: map<Path, Content>, n: Name, size: nat, hash: Digest, target: Dir) {
    var at := Path(target, n);
    at in nas && Length(nas[at]) == size && Sha256(nas[at]) == hash
  }

  predicate Verified(nas: map<Path, Content>, expected: map<Name, nat>, hashes: map<Name, Digest>, target: Dir)
    requires hashes.Keys == expected.Keys
  {
    forall n :: n in expected ==> VerifiedName(nas, n, expected[n], hashes[n], target)
  }

  /******* Removing a payload that the NAS holds *******/

  // The NAS holds c for p, and a receipt on disk says so.
  ghost predicate Vouched(s: Stores, p: Path, c: Content) {
    && NasPath(p) in s.nas && Encodes(p, s.nas[NasPath(p)], c)
    && Settled(s, ReceiptPath(p)) && Describes(s.local[ReceiptPath(p)], p, s.nas[NasPath(p)])
  }

  lemma VouchedIsRetired(s: Stores, p: Path)
    requires p in s.payload && Vouched(s, p, s.payload[p])
    ensures Retired(s, p)
  {
  }

  lemma RanKeepsVouched(a: Stores, b: Stores, held: set<Dir>, p: Path, c: Content)
    requires Vouched(a, p, c) && Ran(a, b, held) && b.nas == a.nas && IsPayload(p)
    ensures Vouched(b, p, c)
  {
    assert ToolOwned(ReceiptPath(p));
    assert Find(b.local, ReceiptPath(p)) == Find(a.local, ReceiptPath(p));
  }

  // A file whose identity is unchanged is the same file.
  lemma SameStampSameFile(a: Stores, b: Stores, held: set<Dir>, p: Path)
    requires Sound(a) && Steps(a, b, held) && p in a.local && p in b.local && !ToolOwned(p)
    requires a.local[p].stamp == b.local[p].stamp || p.dir in held
    ensures b.local[p] == a.local[p]
  {
  }

  // Every payload that was durable, except those that were removed, still is.
  ghost predicate OthersKept(a: Stores, b: Stores, removed: set<Path>) {
    && HistoryKept(a, b)
    && forall p: Path :: IsPayload(p) && p in a.local && p in a.disk && p !in removed ==> p in b.local && p in b.disk
  }

  lemma OthersKeptThenKeeps(a: Stores, b: Stores, c: Stores, removed: set<Path>, held: set<Dir>, touched: set<Path>)
    requires OthersKept(a, b, removed) && Keeps(b, c, held, touched)
    ensures OthersKept(a, c, removed)
  {
    hide HistoryKept;
    HistoryTransitive(a, b, c);
  }

  lemma KeepsKeepsOthers(a: Stores, b: Stores, removed: set<Path>, held: set<Dir>, touched: set<Path>)
    requires Keeps(a, b, held, touched)
    ensures OthersKept(a, b, removed)
  {
    hide HistoryKept;
  }

  lemma OthersKeptTransitive(a: Stores, b: Stores, c: Stores, removed: set<Path>)
    requires OthersKept(a, b, removed) && OthersKept(b, c, removed)
    ensures OthersKept(a, c, removed)
  {
    hide HistoryKept;
    HistoryTransitive(a, b, c);
  }

  // A frame archive or cold file shares its NAS names with no other payload.
  lemma FileCleared(s: Stores, p: Path, names: set<Name>)
    requires Sound(s) && IsPayload(p) && !p.dir.FeatureDay? && p in s.local
    requires forall n :: n in names && IsPayload(Path(p.dir, n)) ==> n == p.name
    ensures Cleared(s, p.dir, names)
  {
    forall q: Path | q in s.payload && q.dir == p.dir && NasName(q.name) in names
      ensures q in s.local && q in s.disk
    {
      assert PayloadSound(s, q);
      assert q == Path(p.dir, q.name) && q.name == p.name;
    }
  }

  lemma FileMayReplaceReceipt(s: Stores, p: Path, doc: Document)
    requires Sound(s) && IsPayload(p) && !p.dir.FeatureDay? && p in s.local
    ensures MayReplace(s, ReceiptPath(p), doc)
  {
    forall q: Path | q in s.payload && ReceiptPath(q) == ReceiptPath(p)
      ensures Vouchable(s, q, doc)
    {
      assert PayloadSound(s, q);
      assert q == p;
    }
  }

  // A verified transfer of a file that is unchanged since: the NAS holds the file.
  lemma TransferredFile(a: Stores, b: Stores, held: set<Dir>, p: Path, expected: map<Name, nat>, hashes: map<Name, Digest>)
    requires Sound(a) && Ran(a, b, held) && IsPayload(p) && !p.dir.FeatureDay?
    requires p in a.local && p in b.local && a.local[p].stamp == b.local[p].stamp
    requires hashes.Keys == expected.Keys && p.name in expected
    requires Hashed(Folder(p.dir), hashes, a, b) && Verified(b.nas, expected, hashes, p.dir)
    ensures p in b.nas && b.nas[p] == b.local[p].content == a.local[p].content
    ensures hashes[p.name] == Sha256(b.nas[p]) && expected[p.name] == Length(b.nas[p])
  {
    assert SameVersion(Folder(p.dir), p.name, a, b);
    assert VerifiedName(b.nas, p.name, expected[p.name], hashes[p.name], p.dir);
    SameStampSameFile(a, b, held, p);
  }

  // Publishing the receipt of a transferred and still unchanged file completes what is needed to remove it.
  lemma ReceiptVouches(a: Stores, b: Stores, held: set<Dir>, p: Path, doc: Document)
    requires Sound(a) && Sound(b) && Steps(a, b, held) && b.nas == a.nas
    requires IsPayload(p) && !p.dir.FeatureDay? && p in a.local
    requires p.dir in held || (p in b.local && b.local[p].stamp == a.local[p].stamp)
    requires p in a.nas && a.nas[p] == a.local[p].content
    requires doc.Receipt? && p.name in doc.sha256 && doc.sha256[p.name] == Sha256(a.nas[p])
    requires p.name in doc.sizes && doc.sizes[p.name] == Length(a.nas[p])
    requires Settled(b, ReceiptPath(p)) && Published(b, ReceiptPath(p), doc)
    ensures p in b.local && p in b.payload && b.local[p] == a.local[p] && b.payload[p] == b.local[p].content
    ensures Vouched(b, p, b.payload[p])
  {
    hide Sound, Steps;
    if p.dir in held {
      HeldFileStays(a, b, held, p);
    }
    SameStampSameFile(a, b, held, p);
    LocalIsPayload(b, p);
  }

  // An archived payload is not recreated.
  lemma RanKeepsGone(a: Stores, b: Stores, held: set<Dir>, p: Path)
    requires Steps(a, b, held) && p in a.payload && p !in a.local && !ToolOwned(p)
    ensures p in b.payload && p !in b.local && b.payload[p] == a.payload[p]
  {
  }

  ghost predicate NoRawSegments(s: Stores, day: int) {
    forall p: Path :: p in s.local && p.dir == RawFrames(day) ==> !p.name.RawSegment?
  }

  lemma StepsKeepNoRawSegments(a: Stores, b: Stores, held: set<Dir>, day: int)
    requires Steps(a, b, held) && RawFrames(day) in held && NoRawSegments(a, day)
    ensures NoRawSegments(b, day)
  {
  }

  // A verified manifest of the day that gives the archive's size.
  ghost predicate ManifestVouches(s: Stores, day: int, bytes: nat) {
    var manifest := Path(FrameDay(day), Manifest);
    && manifest in s.local && s.local[manifest].content.Json?
    && s.local[manifest].content.doc == ManifestDoc(day, true, bytes)
  }

  lemma HeldFilesStay(a: Stores, b: Stores, held: set<Dir>)
    requires Steps(a, b, held)
    ensures forall p: Path :: p in a.local && p.dir in held && !ToolOwned(p) ==> p in b.local && b.local[p] == a.local[p]
  {
    hide HistoryKept, PayloadSteps;
  }

  lemma NothingNewInHeld(a: Stores, b: Stores, held: set<Dir>)
    requires Steps(a, b, held)
    ensures forall p: Path :: p in b.local && p.dir in held && !ToolOwned(p) ==> p in a.local
  {
  }

  // A cold file proves itself: its name is the digest of what it unpacks to, or a verified proof beside it
  // names it and its size.
  ghost predicate Evidenced(s: Stores, p: Path) {
    p in s.local &&
      match p.name
      case Operational(id) => s.local[p].content.Gzip? && id == Sha256(s.local[p].content.of)
      case Database(stem) =>
        var proof := Path(p.dir, Proof(stem));
        && proof in s.local && s.local[proof].content.Json?
        && s.local[proof].content.doc == ProofDoc(p, Length(s.local[p].content), true)
      case _ => false
  }

  // A receipt in sight ties the verified transfer to this version of the cold file.
  ghost predicate Recorded(s: Stores, p: Path) {
    && p in s.local && ReceiptPath(p) in s.local
    && s.local[ReceiptPath(p)].content.Json?
    && var doc := s.local[ReceiptPath(p)].content.doc;
    && doc.Receipt? && doc.source == Some(IdentityOf(s.local[p])) && doc.destination == p.dir
  }

  // The record has reached the disk.
  ghost predicate RecordedOnDisk(s: Stores, p: Path) {
    Recorded(s, p) && Settled(s, ReceiptPath(p))
  }

  // If this very file is anywhere, it is in sight.
  ghost predicate OnlyInSight(file: File, s: Stores, p: Path) {
    && (p in s.local && s.local[p].stamp == file.stamp ==> s.local[p] == file)
    && (p in s.disk && s.disk[p].stamp == file.stamp ==> p in s.local && s.local[p] == file)
  }

  lemma ColdFileIsOld(s: Stores, p: Path)
    requires Sound(s) && IsCold(p) && p in s.local
    ensures s.local[p].stamp < s.clock && OnlyInSight(s.local[p], s, p)
  {
    ColdFileSettled(s, p);
  }

  // The file of an old stamp was there before, unless it went out of sight.
  lemma OnlyInSightStep(a: Stores, b: Stores, p: Path, file: File)
    requires Sound(a) && Sound(b) && IsCold(p) && HistoryKept(a, b) && file.stamp < a.clock
    requires OnlyInSight(file, a, p) && (p in a.local && a.local[p] == file ==> p in b.local)
    ensures OnlyInSight(file, b, p)
    ensures p in b.local && b.local[p].stamp == file.stamp ==> p in a.local && a.local[p] == file == b.local[p]
  {
    hide Sound, PayloadKept, StampsGrow;
    if p in a.local {
      ColdFileSettled(a, p);
    }
    if p in b.local {
      ColdFileSettled(b, p);
    }
  }

  lemma ColdFileBetween(a: Stores, b: Stores, held: set<Dir>, p: Path, file: File)
    requires Sound(a) && Sound(b) && IsCold(p) && Keeps(a, b, held, {}) && file.stamp < a.clock
    ensures a.now <= b.now && file.stamp < b.clock
    ensures OnlyInSight(file, a, p) ==> OnlyInSight(file, b, p)
    ensures OnlyInSight(file, a, p) && p in b.local && b.local[p] == file ==>
      p in a.local && a.local[p] == file && (RecordedOnDisk(a, p) ==> RecordedOnDisk(b, p))
    ensures p.dir in held && p in a.local ==> p in b.local && b.local[p] == a.local[p]
  {
    hide Sound, OnlyInSight, NoStrangers;
    HistoryOfKeeps(a, b, held, {});
    if p in a.local {
      ColdFileSettled(a, p);
    }
    if OnlyInSight(file, a, p) {
      OnlyInSightStep(a, b, p, file);
    }
    assert ToolOwned(ReceiptPath(p));
  }

  // A run in the grace period: what is still the file was the file.
  lemma ColdFileAfter(a: Stores, b: Stores, p: Path, file: File)
    requires Sound(a) && Sound(b) && IsCold(p) && OthersKept(a, b, {p}) && file.stamp < a.clock
    ensures file.stamp < b.clock
    ensures OnlyInSight(file, a, p) && (p in a.local && a.local[p] == file ==> p in b.local) ==>
      OnlyInSight(file, b, p) && (p in b.local && b.local[p].stamp == file.stamp ==> p in a.local && a.local[p] == file == b.local[p])
  {
    hide Sound, OnlyInSight, NoStrangers;
    if OnlyInSight(file, a, p) && (p in a.local && a.local[p] == file ==> p in b.local) {
      OnlyInSightStep(a, b, p, file);
    }
  }

  predicate InGrace(s: Stores, mtime: int) {
    s.now - mtime < GRACE_SECONDS
  }

  lemma ColdFileStays(a: Stores, b: Stores, held: set<Dir>, touched: set<Path>, p: Path)
    requires Sound(a) && IsCold(p) && p in a.local && p !in touched && Keeps(a, b, held, touched)
    ensures p in b.local && a.now <= b.now
    ensures p.dir in held ==> b.local[p] == a.local[p]
  {
    ColdFileSettled(a, p);
  }

  lemma ColdFileSettled(s: Stores, p: Path)
    requires Sound(s) && IsCold(p) && p in s.local
    ensures p in s.payload && Settled(s, p) && s.payload[p] == s.local[p].content
  {
    assert PayloadSound(s, p);
  }

  lemma HeldFileStays(a: Stores, b: Stores, held: set<Dir>, p: Path)
    requires Steps(a, b, held) && p in a.local && !ToolOwned(p) && p.dir in held
    ensures p in b.local && b.local[p] == a.local[p]
  {
  }

  /******* Feature partitions *******/

  function FeatureFiles(s: Stores, folder: Dir): set<Name> {
    set p | p in s.local && p.dir == folder && p.name.Jsonl? :: p.name
  }

  // feature_candidates: an old partition whose files have all been quiet for two days.
  predicate Candidate(s: Stores, dataset: Dataset, day: int) {
    var files := FeatureFiles(s, FeatureDay(dataset, day));
    && day < s.now / DAY_SECONDS - RETENTION_DAYS
    && files != {}
    && forall n :: n in files ==> s.local[Path(FeatureDay(dataset, day), n)].mtime < s.now - QUIET_SECONDS
  }

  lemma CandidateMeans(s: Stores, dataset: Dataset, day: int)
    ensures Candidate(s, dataset, day) ==>
      && day < s.now / (24 * 3600) - 30
      && forall p :: p in s.local && p.dir == FeatureDay(dataset, day) && p.name.Jsonl? ==> s.local[p].mtime < s.now - 48 * 3600
  {
    forall p | Candidate(s, dataset, day) && p in s.local && p.dir == FeatureDay(dataset, day) && p.name.Jsonl?
      ensures s.local[p].mtime < s.now - 48 * 3600
    {
      assert p.name in FeatureFiles(s, FeatureDay(dataset, day)) && Path(FeatureDay(dataset, day), p.name) == p;
    }
  }

  function PackedNames(files: set<Name>): set<Name> {
    set n | n in files :: NasName(n)
  }

  // The staged copies: each packs the bytes whose digest was noted when its source was read.
  predicate Packs(staged: map<Name, Content>, read: map<Name, Digest>) {
    && staged.Keys == PackedNames(read.Keys)
    && forall n :: n in read ==>
         n.Jsonl? && staged[NasName(n)].Gzip? && Sha256(staged[NasName(n)].of) == read[n]
  }

  lemma PackOneMore(staged: map<Name, Content>, read: map<Name, Digest>, n: Name, packed: Content)
    requires Packs(staged, read) && n.Jsonl? && n !in read && packed.Gzip?
    ensures Packs(staged[NasName(n) := packed], read[n := Sha256(packed.of)])
  {
    var more := read[n := Sha256(packed.of)];
    assert PackedNames(more.Keys) == PackedNames(read.Keys) + {NasName(n)};
    forall m | m in more
      ensures m.Jsonl? && staged[NasName(n) := packed][NasName(m)].Gzip?
      ensures Sha256(staged[NasName(n) := packed][NasName(m)].of) == more[m]
    {
      assert m != n ==> NasName(m) != NasName(n);
    }
  }

  // Feature files that passed the age check, or were written since, are on disk.
  ghost predicate AllDurable(s: Stores, folder: Dir) {
    forall p: Path :: p in s.payload && p.dir == folder && p in s.local ==> p in s.disk
  }

  lemma QuietIsDurable(s: Stores, folder: Dir)
    requires Sound(s)
    requires forall n :: n in FeatureFiles(s, folder) ==> s.local[Path(folder, n)].mtime < s.now - QUIET_SECONDS
    ensures AllDurable(s, folder)
  {
    forall p: Path | p in s.payload && p.dir == folder && p in s.local
      ensures p in s.disk
    {
      assert PayloadSound(s, p);
      if p.dir.FeatureDay? {
        assert p.name in FeatureFiles(s, folder) && p == Path(folder, p.name);
      }
    }
  }

  lemma RanKeepsDurable(a: Stores, b: Stores, held: set<Dir>, folder: Dir)
    requires Ran(a, b, held) && Sound(b) && AllDurable(a, folder)
    ensures AllDurable(b, folder)
  {
    hide Ran, Sound;
    forall p: Path | p in b.payload && p.dir == folder && p in b.local
      ensures p in b.disk
    {
      StoredIsPayload(b, p);
      SeenIsDurable(a, b, held, p);
    }
  }

  // A payload file in sight is on disk, if it was when it was in sight before.
  lemma SeenIsDurable(a: Stores, b: Stores, held: set<Dir>, p: Path)
    requires Ran(a, b, held) && IsPayload(p) && p in b.payload && p in b.local
    requires p in a.payload && p in a.local ==> p in a.disk
    ensures p in b.disk
  {
    hide OwnFilesKept, HistoryKept;
  }

  lemma FeaturesCleared(s: Stores, folder: Dir, files: set<Name>)
    requires Sound(s) && folder.FeatureDay? && AllDurable(s, folder)
    requires forall n :: n in files ==> n.Jsonl? && Path(folder, n) in s.local
    ensures Cleared(s, folder, PackedNames(files))
  {
    forall p: Path | p in s.payload && p.dir == folder && NasName(p.name) in PackedNames(files)
      ensures p in s.local && p in s.disk
    {
      assert PayloadSound(s, p);
      assert p.name in files && p == Path(folder, p.name);
    }
  }

  // What the NAS and the receipt say about one feature file that is still in sight.
  ghost predicate FeatureCopied(s: Stores, p: Path, doc: Document) {
    && p in s.local && NasPath(p) in s.nas
    && var copy := s.nas[NasPath(p)];
    && copy.Gzip? && copy.of == s.local[p].content
    && doc.Receipt? && p.name in doc.sizes && doc.sizes[p.name] == Length(copy.of)
    && NasName(p.name) in doc.sha256 && doc.sha256[NasName(p.name)] == Sha256(copy)
    && NasName(p.name) in doc.packed && doc.packed[NasName(p.name)] == Length(copy)
  }

  // What a transfer of packed copies amounts to.
  ghost predicate Sent(a: Stores, b: Stores, folder: Dir, packed: map<Name, nat>, hashes: map<Name, Digest>,
                       staged: map<Name, Content>, read: map<Name, Digest>) {
    && Packs(staged, read) && Hashed(Folder(folder), read, a, b)
    && packed.Keys == staged.Keys == hashes.Keys && (forall g :: g in staged ==> packed[g] == Length(staged[g]))
    && Verified(b.nas, packed, hashes, folder) && Hashed(Staged(staged), hashes, a, b)
  }

  lemma RanSteps(a: Stores, b: Stores, held: set<Dir>)
    requires Ran(a, b, held)
    ensures Steps(a, b, held)
  {
  }

  lemma TransferredFeature(a: Stores, b: Stores, held: set<Dir>, p: Path, staged: map<Name, Content>,
                           read: map<Name, Digest>, hashes: map<Name, Digest>, doc: Document)
    requires Sound(a) && Ran(a, b, held) && p.dir.FeatureDay? && p.name.Jsonl? && p.name in read
    requires p in a.local && p in b.local && a.local[p].stamp == b.local[p].stamp
    requires Packs(staged, read) && Hashed(Folder(p.dir), read, a, b)
    requires doc.Receipt? && doc.packed.Keys == staged.Keys == hashes.Keys && doc.sha256 == hashes
    requires forall g :: g in staged ==> doc.packed[g] == Length(staged[g])
    requires Verified(b.nas, doc.packed, hashes, p.dir) && Hashed(Staged(staged), hashes, a, b)
    requires p.name in doc.sizes && doc.sizes[p.name] == Length(a.local[p].content)
    ensures FeatureCopied(b, p, doc)
  {
    hide Sound, Ran;
    RanSteps(a, b, held);
    var g := NasName(p.name);
    assert g in staged;
    assert VerifiedName(b.nas, g, doc.packed[g], hashes[g], p.dir);
    assert SameVersion(Folder(p.dir), p.name, a, b);
    assert SameVersion(Staged(staged), g, a, b);
    SameStampSameFile(a, b, held, p);
  }

  lemma FeaturesMayReplaceReceipt(s: Stores, dataset: Dataset, day: int, doc: Document)
    requires Sound(s) && AllDurable(s, FeatureDay(dataset, day))
    requires doc.Receipt? && doc.destination == FeatureDay(dataset, day)
    requires doc.sizes.Keys == FeatureFiles(s, FeatureDay(dataset, day))
    ensures MayReplace(s, Path(FeatureReceipts(dataset), DayReceipt(day)), doc)
  {
    var folder, to := FeatureDay(dataset, day), Path(FeatureReceipts(dataset), DayReceipt(day));
    forall p: Path | p in s.payload && ReceiptPath(p) == to
      ensures Vouchable(s, p, doc)
    {
      assert PayloadSound(s, p);
    }
    forall n | n in doc.sizes
      ensures Path(folder, n) in s.payload
    {
      assert Path(folder, n) in s.local && IsPayload(Path(folder, n));
    }
  }

  // Seeing this stamp on p means seeing these bytes.
  ghost predicate StampMeans(s: Stores, p: Path, stamp: nat, c: Content) {
    stamp < s.clock && p in s.local && (s.local[p].stamp == stamp ==> s.local[p].content == c)
  }

  lemma StepsKeepStampMeans(a: Stores, b: Stores, held: set<Dir>, p: Path, stamp: nat, c: Content)
    requires Steps(a, b, held) && StampMeans(a, p, stamp, c) && !ToolOwned(p)
    ensures StampMeans(b, p, stamp, c)
  {
  }

  lemma FeatureReceiptVouches(a: Stores, b: Stores, held: set<Dir>, p: Path, doc: Document)
    requires Sound(a) && Steps(a, b, held) && b.nas == a.nas && p.dir.FeatureDay? && p.name.Jsonl?
    requires FeatureCopied(a, p, doc)
    requires Settled(b, ReceiptPath(p)) && Published(b, ReceiptPath(p), doc)
    ensures Vouched(b, p, a.local[p].content)
    ensures StampMeans(b, p, a.local[p].stamp, a.local[p].content)
  {
  }

  ghost predicate SamePayloadIn(a: Stores, b: Stores, folder: Dir) {
    forall p: Path :: p.dir == folder ==> Find(b.payload, p) == Find(a.payload, p)
  }

  lemma HeldPayloadSame(a: Stores, b: Stores, held: set<Dir>, folder: Dir)
    requires Sound(a) && Sound(b) && Steps(a, b, held) && folder in held
    ensures SamePayloadIn(a, b, folder)
  {
    hide Sound, FileSteps;
    forall p: Path | p.dir == folder
      ensures Find(b.payload, p) == Find(a.payload, p)
    {
      if p in a.payload {
        PayloadIsPayload(a, p);
      }
      if p in b.payload {
        PayloadIsPayload(b, p);
      }
    }
  }

  lemma NothingPacked()
    ensures Packs(map[], map[])
  {
  }

  lemma StagedIsPlain(staged: map<Name, Content>, read: map<Name, Digest>)
    requires Packs(staged, read)
    ensures PlainNames(staged.Keys) && staged.Keys == PackedNames(read.Keys)
  {
  }

  lemma FilesStay(a: Stores, b: Stores, held: set<Dir>, folder: Dir, files: set<Name>)
    requires Steps(a, b, held) && files == FeatureFiles(a, folder)
    ensures forall n :: n in files ==> n.Jsonl? && Path(folder, n) in b.local
  {
    forall n | n in files
      ensures n.Jsonl? && Path(folder, n) in b.local
    {
      assert Path(folder, n) in a.local;
    }
  }

  // Staged bytes are private: when they were hashed does not matter.
  lemma StagedHashes(staged: map<Name, Content>, hashes: map<Name, Digest>, a: Stores, b: Stores, c: Stores)
    requires Hashed(Staged(staged), hashes, a, c)
    ensures Hashed(Staged(staged), hashes, b, c)
  {
    forall n | n in hashes && SameVersion(Staged(staged), n, b, c)
      ensures hashes[n] == Sha256(ContentAt(Staged(staged), n, c))
    {
      assert SameVersion(Staged(staged), n, a, c);
    }
  }

  /******* The removal loop of a feature partition *******/

  function PathsIn(folder: Dir, files: set<Name>): set<Path> {
    set n | n in files :: Path(folder, n)
  }

  ghost predicate AllVouched(s: Stores, folder: Dir, contents: map<Name, Content>) {
    forall n :: n in contents ==> n.Jsonl? && Vouched(s, Path(folder, n), contents[n])
  }

  ghost predicate AllMean(s: Stores, folder: Dir, before: map<Name, Identity>, contents: map<Name, Content>, files: set<Name>) {
    forall n :: n in files ==>
      n in before && n in contents && StampMeans(s, Path(folder, n), before[n].stamp, contents[n])
  }

  ghost predicate AllGone(s: Stores, folder: Dir, files: set<Name>) {
    forall n :: n in files ==> Path(folder, n) in s.payload && Path(folder, n) !in s.local
  }

  // The archiver's settled files are as they were.
  ghost predicate ReceiptsStay(a: Stores, b: Stores) {
    forall p: Path :: ToolOwned(p) && Settled(a, p) ==> Settled(b, p) && b.local[p] == a.local[p]
  }

  lemma KeepsReceipts(a: Stores, b: Stores, held: set<Dir>)
    requires Keeps(a, b, held, {})
    ensures ReceiptsStay(a, b)
  {
  }

  lemma ReceiptsStayTransitive(a: Stores, b: Stores, c: Stores)
    requires ReceiptsStay(a, b) && ReceiptsStay(b, c)
    ensures ReceiptsStay(a, c)
  {
  }

  lemma RanKeepsRemoval(a: Stores, b: Stores, held: set<Dir>, folder: Dir, before: map<Name, Identity>,
                        contents: map<Name, Content>, rest: set<Name>, gone: set<Name>)
    requires Ran(a, b, held) && b.nas == a.nas && folder.FeatureDay?
    requires AllVouched(a, folder, contents) && AllMean(a, folder, before, contents, rest)
    requires AllGone(a, folder, gone) && rest + gone <= contents.Keys
    ensures AllVouched(b, folder, contents) && AllMean(b, folder, before, contents, rest)
    ensures AllGone(b, folder, gone)
  {
    hide Vouched, StampMeans, Steps, OwnFilesKept;
    forall n | n in contents
      ensures n.Jsonl? && Vouched(b, Path(folder, n), contents[n])
    {
      RanKeepsVouched(a, b, held, Path(folder, n), contents[n]);
    }
    forall n | n in rest
      ensures StampMeans(b, Path(folder, n), before[n].stamp, contents[n])
    {
      StepsKeepStampMeans(a, b, held, Path(folder, n), before[n].stamp, contents[n]);
    }
    forall n | n in gone
      ensures Path(folder, n) in b.payload && Path(folder, n) !in b.local
    {
      RanKeepsGone(a, b, held, Path(folder, n));
    }
  }

  lemma UnlinkKeepsVouched(s: Stores, p: Path, q: Path, c: Content)
    requires IsPayload(p) && Vouched(s, q, c)
    ensures Vouched(AfterUnlink(s, p), q, c)
  {
  }

  lemma UnlinkOneFeature(s: Stores, folder: Dir, before: map<Name, Identity>, contents: map<Name, Content>,
                         rest: set<Name>, gone: set<Name>, n: Name)
    requires Sound(s) && folder.FeatureDay? && n in rest && Path(folder, n) in s.local
    requires AllVouched(s, folder, contents) && AllMean(s, folder, before, contents, rest)
    requires AllGone(s, folder, gone) && rest + gone <= contents.Keys
    requires s.local[Path(folder, n)].stamp == before[n].stamp
    ensures var t := AfterUnlink(s, Path(folder, n));
      && Sound(t) && AllVouched(t, folder, contents) && AllMean(t, folder, before, contents, rest - {n})
      && AllGone(t, folder, gone + {n})
  {
    hide Sound, Vouched;
    var p := Path(folder, n);
    LocalIsPayload(s, p);
    VouchedIsRetired(s, p);
    UnlinkKeepsSound(s, p);
    forall m | m in contents
      ensures Vouched(AfterUnlink(s, p), Path(folder, m), contents[m])
    {
      UnlinkKeepsVouched(s, p, Path(folder, m), contents[m]);
    }
  }

  // What a held folder shows after a stretch of a run: nothing that was not there.
  ghost predicate NothingNewIn(a: Stores, b: Stores, folder: Dir) {
    forall p: Path :: p.dir == folder && IsPayload(p) && p in b.local ==> p in a.local
  }

  lemma NothingNewInTransitive(a: Stores, b: Stores, c: Stores, folder: Dir)
    requires NothingNewIn(a, b, folder) && NothingNewIn(b, c, folder)
    ensures NothingNewIn(a, c, folder)
  {
  }

  lemma SamePayloadTransitive(a: Stores, b: Stores, c: Stores, folder: Dir)
    requires SamePayloadIn(a, b, folder) && SamePayloadIn(b, c, folder)
    ensures SamePayloadIn(a, c, folder)
  {
  }

  lemma HeldFolder(a: Stores, b: Stores, held: set<Dir>, folder: Dir)
    requires Sound(a) && Sound(b) && Steps(a, b, held) && folder in held
    ensures SamePayloadIn(a, b, folder) && NothingNewIn(a, b, folder)
  {
    hide Sound, HistoryKept, PayloadSteps, SamePayloadIn;
    HeldPayloadSame(a, b, held, folder);
  }

  // The state of the removal loop that began at a, with the files in `rest` still to go.
  ghost predicate Removing(a: Stores, s: Stores, held: set<Dir>, folder: Dir, before: map<Name, Identity>,
                           contents: map<Name, Content>, rest: set<Name>) {
    && folder.FeatureDay? && contents.Keys == before.Keys && rest <= before.Keys
    && Sound(s) && s.nas == a.nas
    && AllVouched(s, folder, contents) && AllMean(s, folder, before, contents, rest)
    && AllGone(s, folder, before.Keys - rest)
    && RemovedOnly(a, s, held, folder, before.Keys)
  }

  ghost predicate RemovedOnly(a: Stores, s: Stores, held: set<Dir>, folder: Dir, files: set<Name>) {
    && ReceiptsStay(a, s) && OthersKept(a, s, PathsIn(folder, files))
    && (folder in held ==> SamePayloadIn(a, s, folder) && NothingNewIn(a, s, folder))
  }

  lemma RemovedOnlyTransitive(a: Stores, b: Stores, c: Stores, held: set<Dir>, folder: Dir, files: set<Name>)
    requires RemovedOnly(a, b, held, folder, files) && RemovedOnly(b, c, held, folder, files)
    ensures RemovedOnly(a, c, held, folder, files)
  {
    ReceiptsStayTransitive(a, b, c);
    OthersKeptTransitive(a, b, c, PathsIn(folder, files));
  }

  lemma UnlinkRemovesOnly(s: Stores, held: set<Dir>, folder: Dir, files: set<Name>, n: Name)
    requires n in files && IsPayload(Path(folder, n))
    ensures RemovedOnly(s, AfterUnlink(s, Path(folder, n)), held, folder, files)
  {
    assert Path(folder, n) in PathsIn(folder, files);
  }

  lemma RanRemovesNothing(a: Stores, b: Stores, held: set<Dir>, folder: Dir, files: set<Name>)
    requires Sound(a) && Sound(b) && Ran(a, b, held)
    ensures RemovedOnly(a, b, held, folder, files)
  {
    hide Sound, Steps, OwnFilesKept, Keeps;
    RanKeeps(a, b, held);
    KeepsReceipts(a, b, held);
    KeepsKeepsOthers(a, b, PathsIn(folder, files), held, {});
    if folder in held {
      HeldFolder(a, b, held, folder);
    }
  }

  lemma RemovingUnlink(a: Stores, s: Stores, held: set<Dir>, folder: Dir, before: map<Name, Identity>,
                       contents: map<Name, Content>, rest: set<Name>, n: Name)
    requires Removing(a, s, held, folder, before, contents, rest) && n in rest
    requires Path(folder, n) in s.local && IdentityOf(s.local[Path(folder, n)]) == before[n]
    ensures Removing(a, AfterUnlink(s, Path(folder, n)), held, folder, before, contents, rest - {n})
  {
    hide Sound, Vouched, StampMeans, AllMean, RemovedOnly;
    UnlinkOneFeature(s, folder, before, contents, rest, before.Keys - rest, n);
    assert (before.Keys - rest) + {n} == before.Keys - (rest - {n});
    UnlinkRemovesOnly(s, held, folder, before.Keys, n);
    RemovedOnlyTransitive(a, s, AfterUnlink(s, Path(folder, n)), held, folder, before.Keys);
  }

  lemma RemovingRan(a: Stores, s: Stores, t: Stores, held: set<Dir>, folder: Dir, before: map<Name, Identity>,
                    contents: map<Name, Content>, rest: set<Name>)
    requires Removing(a, s, held, folder, before, contents, rest)
    requires Ran(s, t, held) && Sound(t) && t.nas == s.nas
    ensures Removing(a, t, held, folder, before, contents, rest)
  {
    hide Sound, Vouched, StampMeans, AllMean, AllVouched, AllGone, RemovedOnly, Steps, OwnFilesKept;
    RanKeepsRemoval(s, t, held, folder, before, contents, rest, before.Keys - rest);
    RanRemovesNothing(s, t, held, folder, before.Keys);
    RemovedOnlyTransitive(a, s, t, held, folder, before.Keys);
  }

  lemma RemovingStopped(a: Stores, s: Stores, t: Stores, held: set<Dir>, folder: Dir, before: map<Name, Identity>,
                        contents: map<Name, Content>, rest: set<Name>)
    requires Removing(a, s, held, folder, before, contents, rest) && Stopped(s, t)
    ensures ReceiptsStay(a, t) && OthersKept(a, t, PathsIn(folder, before.Keys))
  {
    hide Sound, AllMean, AllVouched, AllGone, SamePayloadIn, NothingNewIn;
    StopKeeps(s, t, held);
    KeepsReceipts(s, t, held);
    ReceiptsStayTransitive(a, s, t);
    OthersKeptThenKeeps(a, s, t, PathsIn(folder, before.Keys), held, {});
  }

  lemma RemovingStarts(s: Stores, held: set<Dir>, folder: Dir, before: map<Name, Identity>, contents: map<Name, Content>)
    requires Sound(s) && folder.FeatureDay? && contents.Keys == before.Keys
    requires AllVouched(s, folder, contents) && AllMean(s, folder, before, contents, before.Keys)
    ensures Removing(s, s, held, folder, before, contents, before.Keys)
  {
  }

  lemma RemovingSound(a: Stores, s: Stores, held: set<Dir>, folder: Dir, before: map<Name, Identity>,
                      contents: map<Name, Content>, rest: set<Name>)
    requires Removing(a, s, held, folder, before, contents, rest)
    ensures Sound(s)
  {
  }

  lemma RemovingEnds(a: Stores, s: Stores, held: set<Dir>, folder: Dir, before: map<Name, Identity>,
                     contents: map<Name, Content>, rest: set<Name>)
    requires Removing(a, s, held, folder, before, contents, rest)
    ensures RemovedOnly(a, s, held, folder, before.Keys) && AllVouched(s, folder, contents)
    ensures rest == {} ==> AllGone(s, folder, before.Keys)
  {
    assert rest == {} ==> before.Keys - rest == before.Keys;
  }

  /******* What archiving a partition amounts to *******/

  ghost predicate OthersKeptOutside(a: Stores, b: Stores, folder: Dir) {
    && HistoryKept(a, b)
    && forall p: Path :: IsPayload(p) && p in a.local && p in a.disk && p.dir != folder ==> p in b.local && p in b.disk
  }

  lemma HistoryOfKeeps(a: Stores, b: Stores, held: set<Dir>, touched: set<Path>)
    requires Keeps(a, b, held, touched)
    ensures HistoryKept(a, b)
  {
    hide HistoryKept;
  }

  lemma HistoryOfOthers(a: Stores, b: Stores, removed: set<Path>)
    requires OthersKept(a, b, removed)
    ensures HistoryKept(a, b)
  {
    hide HistoryKept;
  }

  lemma HistoryOfOthersOutside(a: Stores, b: Stores, folder: Dir)
    requires OthersKeptOutside(a, b, folder)
    ensures HistoryKept(a, b)
  {
    hide HistoryKept;
  }

  function PartitionReceipt(dataset: Dataset, day: int): Path {
    Path(FeatureReceipts(dataset), DayReceipt(day))
  }

  ghost predicate ListedOnDisk(s: Stores, dataset: Dataset, day: int, n: Name) {
    Settled(s, PartitionReceipt(dataset, day)) && Lists(s.local[PartitionReceipt(dataset, day)], n)
  }

  ghost predicate RemovalsListed(a: Stores, b: Stores, dataset: Dataset, day: int) {
    forall p: Path :: p.dir == FeatureDay(dataset, day) && IsPayload(p) && p in a.local && p in a.disk && p !in b.local ==>
      ListedOnDisk(b, dataset, day, p.name)
  }

  ghost predicate PartitionArchived(a: Stores, b: Stores, dataset: Dataset, day: int, files: set<Name>) {
    && (forall n :: n in FeatureFiles(a, FeatureDay(dataset, day)) ==> n in files)
    && (forall n :: n in files ==>
          && Path(FeatureDay(dataset, day), n) in b.payload
          && Path(FeatureDay(dataset, day), n) !in b.local && Path(FeatureDay(dataset, day), n) !in b.disk)
    && Settled(b, PartitionReceipt(dataset, day)) && ListedNames(b, dataset, day) == files
  }

  ghost predicate NoneLeft(s: Stores, folder: Dir) {
    forall p: Path :: p.dir == folder && IsPayload(p) ==> p !in s.local && p !in s.disk
  }

  // Every file the producers ever wrote to the partition is named by its receipt.
  ghost predicate ReceiptComplete(s: Stores, dataset: Dataset, day: int) {
    forall p: Path :: p in s.payload && p.dir == FeatureDay(dataset, day) ==> ListedOnDisk(s, dataset, day, p.name)
  }

  // Every file the producers ever wrote to the partition is there.
  ghost predicate PartitionPresent(s: Stores, folder: Dir) {
    forall p: Path :: p in s.payload && p.dir == folder ==> p in s.local
  }

  lemma KeepsRemovesNothing(a: Stores, b: Stores, held: set<Dir>, touched: set<Path>, dataset: Dataset, day: int)
    requires Keeps(a, b, held, touched)
    ensures OthersKept(a, b, {})
    ensures OthersKeptOutside(a, b, FeatureDay(dataset, day)) && RemovalsListed(a, b, dataset, day)
  {
  }

  lemma RemovesNothingTransitive(a: Stores, b: Stores, c: Stores, dataset: Dataset, day: int)
    requires OthersKept(a, b, {}) && OthersKept(b, c, {})
    ensures OthersKeptOutside(a, c, FeatureDay(dataset, day)) && RemovalsListed(a, c, dataset, day)
  {
  }

  lemma PartitionVouched(a: Stores, b: Stores, held: set<Dir>, folder: Dir, doc: Document,
                         before: map<Name, Identity>, contents: map<Name, Content>)
    requires Sound(a) && Steps(a, b, held) && b.nas == a.nas && folder.FeatureDay? && contents.Keys == before.Keys
    requires before.Keys == FeatureFiles(a, folder)
    requires forall n :: n in before ==>
               && FeatureCopied(a, Path(folder, n), doc)
               && before[n] == IdentityOf(a.local[Path(folder, n)]) && contents[n] == a.local[Path(folder, n)].content
    requires var r := PartitionReceipt(folder.dataset, folder.day); Settled(b, r) && Published(b, r, doc)
    ensures AllVouched(b, folder, contents) && AllMean(b, folder, before, contents, before.Keys)
  {
    hide Sound, Steps, FeatureCopied, Vouched, Settled, Published;
    forall n | n in before
      ensures n.Jsonl? && Vouched(b, Path(folder, n), contents[n])
      ensures StampMeans(b, Path(folder, n), before[n].stamp, contents[n])
    {
      FeatureReceiptVouches(a, b, held, Path(folder, n), doc);
    }
  }

  lemma StepsKeepOthers(a: Stores, b: Stores, held: set<Dir>, removed: set<Path>)
    requires Steps(a, b, held)
    ensures OthersKept(a, b, removed)
  {
  }

  lemma RemovalLists(a: Stores, b: Stores, c: Stores, d: Stores, held: set<Dir>, dataset: Dataset, day: int, doc: Document)
    requires Steps(a, b, held) && Steps(b, c, held) && doc.Receipt?
    requires Settled(c, PartitionReceipt(dataset, day)) && Published(c, PartitionReceipt(dataset, day), doc)
    requires ReceiptsStay(c, d) && OthersKept(c, d, PathsIn(FeatureDay(dataset, day), doc.sizes.Keys))
    ensures OthersKeptOutside(a, d, FeatureDay(dataset, day)) && RemovalsListed(a, d, dataset, day)
    ensures forall n :: n in doc.sizes ==> ListedOnDisk(d, dataset, day, n)
  {
    hide Steps;
    var files := PathsIn(FeatureDay(dataset, day), doc.sizes.Keys);
    StepsKeepOthers(a, b, held, files);
    StepsKeepOthers(b, c, held, files);
    OthersKeptTransitive(a, b, c, files);
    OthersKeptTransitive(a, c, d, files);
    forall n | n in doc.sizes
      ensures ListedOnDisk(d, dataset, day, n)
    {
      assert ToolOwned(PartitionReceipt(dataset, day));
    }
  }

  lemma FsyncDirKeepsListed(s: Stores, folder: Dir, dataset: Dataset, day: int, n: Name)
    requires ListedOnDisk(s, dataset, day, n)
    ensures ListedOnDisk(AfterFsyncDir(s, folder), dataset, day, n)
  {
  }

  lemma PartitionDone(a: Stores, b: Stores, c: Stores, d: Stores, held: set<Dir>, dataset: Dataset, day: int, doc: Document)
    requires Sound(a) && Sound(b) && Sound(c) && Steps(a, b, held) && Steps(b, c, held) && doc.Receipt?
    requires doc.sizes.Keys == FeatureFiles(b, FeatureDay(dataset, day))
    requires Settled(c, PartitionReceipt(dataset, day)) && Published(c, PartitionReceipt(dataset, day), doc)
    requires RemovedOnly(c, d, held, FeatureDay(dataset, day), doc.sizes.Keys)
    requires AllGone(d, FeatureDay(dataset, day), doc.sizes.Keys)
    ensures var (folder, e, files) := (FeatureDay(dataset, day), AfterFsyncDir(d, FeatureDay(dataset, day)), doc.sizes.Keys);
      && OthersKeptOutside(a, e, folder) && RemovalsListed(a, e, dataset, day)
      && PartitionArchived(a, e, dataset, day, files)
      && (folder in held ==>
            && files == FeatureFiles(a, folder) && SamePayloadIn(a, e, folder) && NoneLeft(e, folder)
            && (ReceiptComplete(e, dataset, day) <==> PartitionPresent(a, folder)))
  {
    hide Sound, Steps, Published, RemovedOnly, SamePayloadIn, NothingNewIn, NoneLeft, ReceiptComplete, PartitionPresent,
         RemovalsListed, OthersKeptOutside, PartitionArchived, Settled, AfterFsyncDir, AllGone, FeatureFiles, ListedOnDisk, ListedNames;
    var folder, e, files := FeatureDay(dataset, day), AfterFsyncDir(d, FeatureDay(dataset, day)), doc.sizes.Keys;
    RemovedOnlyMeans(c, d, held, folder, files);
    RemovalLists(a, b, c, d, held, dataset, day, doc);
    SyncKeepsRemovals(a, d, folder, dataset, day);
    ReceiptSaysExactly(c, d, e, folder, dataset, day, doc);
    FilesStay(a, b, held, folder, FeatureFiles(a, folder));
    PartitionIsArchived(a, b, c, d, dataset, day, files, held);
    if folder in held {
      HeldFolder(a, b, held, folder);
      HeldFolder(b, c, held, folder);
      HeldPartitionDone(a, b, c, d, dataset, day, files);
      CompleteIffPresent(a, e, dataset, day, files);
    }
  }

  lemma RemovedOnlyMeans(a: Stores, s: Stores, held: set<Dir>, folder: Dir, files: set<Name>)
    requires RemovedOnly(a, s, held, folder, files)
    ensures ReceiptsStay(a, s) && OthersKept(a, s, PathsIn(folder, files))
    ensures folder in held ==> SamePayloadIn(a, s, folder) && NothingNewIn(a, s, folder)
  {
  }

  lemma SyncKeepsRemovals(a: Stores, d: Stores, folder: Dir, dataset: Dataset, day: int)
    requires OthersKeptOutside(a, d, folder) && RemovalsListed(a, d, dataset, day)
    ensures OthersKeptOutside(a, AfterFsyncDir(d, folder), folder) && RemovalsListed(a, AfterFsyncDir(d, folder), dataset, day)
  {
    hide ListedOnDisk, HistoryKept;
    FsyncDirHistory(a, d, folder);
    forall p: Path | p.dir == FeatureDay(dataset, day) && IsPayload(p) && p in a.local && p in a.disk && p !in d.local
      ensures ListedOnDisk(AfterFsyncDir(d, folder), dataset, day, p.name)
    {
      FsyncDirKeepsListed(d, folder, dataset, day, p.name);
    }
  }

  lemma PartitionIsArchived(a: Stores, b: Stores, c: Stores, d: Stores, dataset: Dataset, day: int, files: set<Name>, held: set<Dir>)
    requires files == FeatureFiles(b, FeatureDay(dataset, day)) && AllGone(d, FeatureDay(dataset, day), files)
    requires forall n :: n in FeatureFiles(a, FeatureDay(dataset, day)) ==> n.Jsonl? && Path(FeatureDay(dataset, day), n) in b.local
    requires Settled(AfterFsyncDir(d, FeatureDay(dataset, day)), PartitionReceipt(dataset, day))
    requires ListedNames(AfterFsyncDir(d, FeatureDay(dataset, day)), dataset, day) == files
    ensures PartitionArchived(a, AfterFsyncDir(d, FeatureDay(dataset, day)), dataset, day, files)
    ensures forall n :: n in FeatureFiles(a, FeatureDay(dataset, day)) ==> n in files
  {
    hide Settled, ListedNames;
  }

  lemma HeldPartitionDone(a: Stores, b: Stores, c: Stores, d: Stores, dataset: Dataset, day: int, files: set<Name>)
    requires Sound(a) && files == FeatureFiles(b, FeatureDay(dataset, day))
    requires forall n :: n in FeatureFiles(a, FeatureDay(dataset, day)) ==> n in files
    requires var folder := FeatureDay(dataset, day);
      && SamePayloadIn(a, b, folder) && SamePayloadIn(b, c, folder) && SamePayloadIn(c, d, folder)
      && NothingNewIn(a, b, folder) && NothingNewIn(b, c, folder) && NothingNewIn(c, d, folder)
    requires AllGone(d, FeatureDay(dataset, day), files)
    ensures files == FeatureFiles(a, FeatureDay(dataset, day))
    ensures var e := AfterFsyncDir(d, FeatureDay(dataset, day));
      SamePayloadIn(a, e, FeatureDay(dataset, day)) && NoneLeft(e, FeatureDay(dataset, day))
  {
    hide Sound;
    var folder := FeatureDay(dataset, day);
    NothingNewInTransitive(a, b, c, folder);
    NothingNewInTransitive(b, c, d, folder);
    SamePayloadTransitive(a, b, c, folder);
    SamePayloadTransitive(a, c, d, folder);
    forall n | n in files
      ensures n in FeatureFiles(a, folder)
    {
      assert Path(folder, n) in b.local && IsPayload(Path(folder, n));
      assert Path(folder, n) in a.local;
    }
    forall p: Path | p.dir == folder && IsPayload(p)
      ensures p !in d.local
    {
      assert p in b.local ==> p.name in FeatureFiles(b, folder);
      assert p == Path(folder, p.name);
    }
  }

  lemma ReceiptSaysExactly(c: Stores, d: Stores, e: Stores, folder: Dir, dataset: Dataset, day: int, doc: Document)
    requires folder == FeatureDay(dataset, day) && e == AfterFsyncDir(d, folder) && doc.Receipt? && ReceiptsStay(c, d)
    requires Settled(c, PartitionReceipt(dataset, day)) && Published(c, PartitionReceipt(dataset, day), doc)
    ensures Settled(e, PartitionReceipt(dataset, day)) && ListedNames(e, dataset, day) == doc.sizes.Keys
    ensures forall n :: ListedOnDisk(e, dataset, day, n) <==> n in doc.sizes
  {
    assert ToolOwned(PartitionReceipt(dataset, day));
    assert Settled(d, PartitionReceipt(dataset, day));
    assert Settled(e, PartitionReceipt(dataset, day));
  }

  lemma CompleteIffPresent(a: Stores, e: Stores, dataset: Dataset, day: int, files: set<Name>)
    requires Sound(a) && SamePayloadIn(a, e, FeatureDay(dataset, day))
    requires files == FeatureFiles(a, FeatureDay(dataset, day))
    requires forall n :: ListedOnDisk(e, dataset, day, n) <==> n in files
    ensures ReceiptComplete(e, dataset, day) <==> PartitionPresent(a, FeatureDay(dataset, day))
  {
    hide ListedOnDisk;
    var folder := FeatureDay(dataset, day);
    forall p: Path | p.dir == folder && p in a.payload
      ensures p.name in files <==> p in a.local
    {
      assert PayloadSound(a, p);
      assert p == Path(folder, p.name);
    }
    forall p: Path | p.dir == folder
      ensures p in e.payload <==> p in a.payload
    {
      assert Find(e.payload, p) == Find(a.payload, p);
    }
  }

  /******* Restoring a partition *******/

  // In sight or on disk the folder holds nothing but what it held, and `files`.
  ghost predicate Bounded(a: Stores, b: Stores, folder: Dir, files: set<Name>) {
    && SamePayloadIn(a, b, folder)
    && forall p: Path :: p.dir == folder && IsPayload(p) && (p in b.local || p in b.disk) ==>
         p in a.local || p in a.disk || p.name in files
  }

  // No file that was there is changed, except by its producer.
  ghost predicate ExistingKept(a: Stores, b: Stores, held: set<Dir>) {
    forall p: Path :: p in a.local && !ToolOwned(p) ==>
      p in b.local && (b.local[p] == a.local[p] || (a.clock <= b.local[p].stamp && p.dir !in held))
  }

  ghost predicate PayloadGrows(a: Stores, b: Stores) {
    forall p: Path :: p in a.payload && !ToolOwned(p) ==> p in b.payload
  }

  ghost predicate Restoring(a: Stores, b: Stores, held: set<Dir>, folder: Dir, files: set<Name>) {
    && a.clock <= b.clock && Keeps(a, b, held, {}) && OwnFilesKept(a, b) && ExistingKept(a, b, held) && PayloadGrows(a, b)
    && (folder in held ==> Bounded(a, b, folder, files))
  }

  lemma BoundedTransitive(a: Stores, b: Stores, c: Stores, folder: Dir, files: set<Name>, more: set<Name>)
    requires Bounded(a, b, folder, files) && Bounded(b, c, folder, more)
    ensures Bounded(a, c, folder, files + more)
  {
    SamePayloadTransitive(a, b, c, folder);
  }

  lemma StoppedBounded(a: Stores, b: Stores, folder: Dir)
    requires Stopped(a, b)
    ensures Bounded(a, b, folder, {})
  {
  }

  lemma RestoringReflexive(a: Stores, held: set<Dir>, folder: Dir)
    ensures Restoring(a, a, held, folder, {})
  {
  }

  lemma RestoringRan(a: Stores, b: Stores, held: set<Dir>, folder: Dir)
    requires Sound(a) && Sound(b) && Ran(a, b, held)
    ensures Restoring(a, b, held, folder, {})
  {
    hide Sound, HistoryKept, Keeps, Bounded;
    RanKeeps(a, b, held);
    if folder in held {
      HeldFolder(a, b, held, folder);
      HeldIsBounded(a, b, held, folder);
    }
  }

  lemma HeldIsBounded(a: Stores, b: Stores, held: set<Dir>, folder: Dir)
    requires SamePayloadIn(a, b, folder) && FileSteps(a, b, held) && folder in held
    ensures Bounded(a, b, folder, {})
  {
    forall p: Path | p.dir == folder && IsPayload(p) && (p in b.local || p in b.disk)
      ensures p in a.local || p in a.disk
    {
      assert p in b.local ==> p in a.local;
    }
  }

  lemma RestoringTransitive(a: Stores, b: Stores, c: Stores, held: set<Dir>, folder: Dir, files: set<Name>, more: set<Name>)
    requires Restoring(a, b, held, folder, files) && Restoring(b, c, held, folder, more)
    ensures Restoring(a, c, held, folder, files + more)
  {
    hide Bounded, Keeps;
    KeepsTransitive(a, b, c, held, {});
    if folder in held {
      BoundedTransitive(a, b, c, folder, files, more);
    }
  }

  lemma RestoringLink(s: Stores, held: set<Dir>, folder: Dir, n: Name, c: Content)
    requires IsPayload(Path(folder, n)) && Path(folder, n) !in s.local
    ensures Restoring(s, AfterLink(s, Path(folder, n), c), held, folder, {n})
  {
    hide HistoryKept;
    LinkHistory(s, Path(folder, n), c);
  }

  // The receipt and the NAS agree on the bytes of a missing file.
  lemma RestoredBytes(s: Stores, p: Path, doc: Document, packed: Content)
    requires Sound(s) && p in s.payload && p.dir.FeatureDay? && p !in s.local && doc.Receipt? && p.name in doc.sizes
    requires ReceiptPath(p) in s.local && s.local[ReceiptPath(p)].content.Json?
    requires s.local[ReceiptPath(p)].content.doc == doc
    requires packed.Gzip? && (NasName(p.name) in doc.sha256 ==> Sha256(packed) == doc.sha256[NasName(p.name)])
    ensures packed.of == s.payload[p]
  {
    assert PayloadSound(s, p);
  }

  lemma OwnFileStays(a: Stores, b: Stores, held: set<Dir>, p: Path)
    requires Ran(a, b, held) && ToolOwned(p)
    ensures Find(b.local, p) == Find(a.local, p)
  {
  }

  lemma RestoringKeepsReceipt(a: Stores, b: Stores, held: set<Dir>, folder: Dir, files: set<Name>, p: Path)
    requires Restoring(a, b, held, folder, files) && ToolOwned(p)
    ensures Find(b.local, p) == Find(a.local, p)
  {
  }

  lemma ReceiptNamesPayload(s: Stores, dataset: Dataset, day: int, doc: Document)
    requires Sound(s) && PartitionReceipt(dataset, day) in s.local && doc.Receipt?
    requires s.local[PartitionReceipt(dataset, day)].content.Json?
    requires s.local[PartitionReceipt(dataset, day)].content.doc == doc
    ensures doc.destination == FeatureDay(dataset, day)
    ensures forall n :: n in doc.sizes ==> Path(FeatureDay(dataset, day), n) in s.payload && IsPayload(Path(FeatureDay(dataset, day), n))
  {
    forall n | n in doc.sizes
      ensures Path(FeatureDay(dataset, day), n) in s.payload && IsPayload(Path(FeatureDay(dataset, day), n))
    {
      assert Path(FeatureDay(dataset, day), n) in s.payload;
      assert PayloadSound(s, Path(FeatureDay(dataset, day), n));
    }
  }

  // The names a receipt in sight lists for the partition.
  function ListedNames(s: Stores, dataset: Dataset, day: int): set<Name> {
    var r := PartitionReceipt(dataset, day);
    if r in s.local && s.local[r].content.Json? && s.local[r].content.doc.Receipt?
    then s.local[r].content.doc.sizes.Keys else {}
  }

  lemma BoundedReflexive(a: Stores, folder: Dir, files: set<Name>)
    ensures Bounded(a, a, folder, files)
  {
  }

  lemma BoundedMonotone(a: Stores, b: Stores, folder: Dir, files: set<Name>, more: set<Name>)
    requires Bounded(a, b, folder, files) && files <= more
    ensures Bounded(a, b, folder, more)
  {
  }

  lemma RestoringIsBounded(a: Stores, b: Stores, held: set<Dir>, folder: Dir, files: set<Name>, n: Name)
    requires Restoring(a, b, held, folder, files)
    ensures Keeps(a, b, held, {})
    ensures folder in held ==> Bounded(a, b, folder, files)
    ensures Restoring(a, b, held, folder, files + {n})
    ensures files == {} ==> Restoring(a, b, held, folder, {n})
  {
    assert files == {} ==> files + {n} == {n};
  }

  lemma RestoringKeepsPayload(a: Stores, b: Stores, held: set<Dir>, folder: Dir, files: set<Name>, p: Path)
    requires Restoring(a, b, held, folder, files) && p in a.payload && !ToolOwned(p)
    ensures p in b.payload
  {
  }

  lemma RestoringKeepsLocal(a: Stores, b: Stores, held: set<Dir>, folder: Dir, files: set<Name>)
    requires Restoring(a, b, held, folder, files)
    ensures forall p: Path :: p in a.local && !ToolOwned(p) ==> p in b.local
  {
  }

  lemma RestoringEnds(a: Stores, b: Stores, held: set<Dir>, folder: Dir, files: set<Name>)
    requires Restoring(a, b, held, folder, files)
    ensures Keeps(a, b, held, {}) && ExistingKept(a, b, held)
    ensures folder in held ==> Bounded(a, b, folder, files)
    ensures forall p: Path :: p in a.payload && !ToolOwned(p) ==> p in b.payload
  {
  }

  lemma AllRestored(s: Stores, folder: Dir, names: set<Name>)
    requires Sound(s) && InPlace(s, folder, names) && forall n :: n in names ==> IsPayload(Path(folder, n))
    ensures forall n :: n in names ==> Path(folder, n) in s.payload && OnLocal(s, Path(folder, n))
  {
    hide Sound;
    forall n | n in names
      ensures Path(folder, n) in s.payload && OnLocal(s, Path(folder, n))
    {
      LocalIsPayload(s, Path(folder, n));
    }
  }

  predicate InPlace(s: Stores, folder: Dir, names: set<Name>) {
    forall n :: n in names ==> Path(folder, n) in s.local
  }

  lemma NothingInPlace(s: Stores, folder: Dir)
    ensures InPlace(s, folder, {})
  {
  }

  lemma OneMoreRestored(a: Stores, b: Stores, c: Stores, held: set<Dir>, folder: Dir, done: set<Name>, n: Name)
    requires Restoring(a, b, held, folder, done) && InPlace(b, folder, done)
    requires Restoring(b, c, held, folder, {n}) && Path(folder, n) in c.local
    requires forall m :: m in done ==> IsPayload(Path(folder, m))
    ensures Restoring(a, c, held, folder, done + {n}) && InPlace(c, folder, done + {n})
  {
    hide Restoring;
    RestoringTransitive(a, b, c, held, folder, done, {n});
    RestoringKeepsLocal(b, c, held, folder, {n});
  }

  lemma RestoringStopped(a: Stores, b: Stores, c: Stores, held: set<Dir>, folder: Dir, done: set<Name>, all: set<Name>)
    requires Restoring(a, b, held, folder, done) && done <= all && Keeps(b, c, held, {})
    requires folder in held ==> Bounded(b, c, folder, {})
    ensures Keeps(a, c, held, {}) && (folder in held ==> Bounded(a, c, folder, all))
  {
    hide Keeps, Bounded, Restoring;
    RestoringEnds(a, b, held, folder, done);
    KeepsTransitive(a, b, c, held, {});
    if folder in held {
      BoundedTransitive(a, b, c, folder, done, {});
      BoundedMonotone(a, c, folder, done + {}, all);
    }
  }

  // What a reader of the partition sees.
  function PartitionContents(s: Stores, folder: Dir): map<Name, Content> {
    map n | n in FeatureFiles(s, folder) :: s.local[Path(folder, n)].content
  }

  // a: before archiving; b: archived; c: restored.
  lemma RoundTripContents(a: Stores, b: Stores, c: Stores, folder: Dir, files: set<Name>)
    requires Sound(a) && Sound(c) && folder.FeatureDay? && files == FeatureFiles(a, folder)
    requires SamePayloadIn(a, b, folder) && NoneLeft(b, folder) && Bounded(b, c, folder, files)
    requires forall n :: n in files ==> Path(folder, n) in c.payload && OnLocal(c, Path(folder, n))
    ensures PartitionContents(c, folder) == PartitionContents(a, folder)
  {
    hide Sound, NoneLeft;
    forall n | n in files
      ensures n in FeatureFiles(c, folder) && c.local[Path(folder, n)].content == a.local[Path(folder, n)].content
    {
      var p := Path(folder, n);
      assert IsPayload(p) && p in a.local;
      LocalIsPayload(a, p);
      assert Find(b.payload, p) == Find(a.payload, p) && Find(c.payload, p) == Find(b.payload, p);
    }
    forall n | n in FeatureFiles(c, folder)
      ensures n in files
    {
      NoneLeftAt(b, folder, Path(folder, n));
    }
    assert FeatureFiles(c, folder) == files;
  }

  lemma NoneLeftAt(s: Stores, folder: Dir, p: Path)
    requires NoneLeft(s, folder)
    ensures p.dir == folder && IsPayload(p) ==> p !in s.local && p !in s.disk
  {
  }

  lemma SettledReceiptStays(a: Stores, b: Stores, held: set<Dir>, dataset: Dataset, day: int)
    requires Keeps(a, b, held, {}) && Settled(a, PartitionReceipt(dataset, day))
    ensures Settled(b, PartitionReceipt(dataset, day)) && ListedNames(b, dataset, day) == ListedNames(a, dataset, day)
  {
    assert ToolOwned(PartitionReceipt(dataset, day));
  }

  /******* Where receipt completeness is lost *******/

  // A stop inside the removal loop: one file is gone for good, on the NAS, and receipted.
  lemma InterruptedRemoval(s: Stores, p: Path)
    requires Sound(s) && IsPayload(p) && p.dir.FeatureDay? && p in s.payload && Vouched(s, p, s.payload[p])
    ensures var t := AfterFsyncDir(AfterUnlink(s, p), p.dir);
      Sound(t) && OnNas(t, p) && !PartitionPresent(t, p.dir)
  {
    VouchedIsRetired(s, p);
    UnlinkKeepsSound(s, p);
    FsyncDirKeepsSound(AfterUnlink(s, p), p.dir);
  }

  // Two files of one partition, verified on the NAS and listed in a complete receipt on disk.
  ghost function TwoFiles(): Stores {
    var folder := FeatureDay(LevelDecisionHealth, 0);
    var p, q := Path(folder, Jsonl("a")), Path(folder, Jsonl("b"));
    var packed := Gzip(Raw([]), 20);
    var doc := Receipt(None, folder, map[p.name := 0, q.name := 0],
                       map[JsonlGz("a") := 20, JsonlGz("b") := 20],
                       map[JsonlGz("a") := Sha256(packed), JsonlGz("b") := Sha256(packed)]);
    var files := map[p := File(Raw([]), 0, 0, true), q := File(Raw([]), 1, 0, true),
                     PartitionReceipt(LevelDecisionHealth, 0) := File(Json(doc, 0), 2, 0, true)];
    Stores(files, files, map[NasPath(p) := packed, NasPath(q) := packed], 3, 40 * DAY_SECONDS, map[p := Raw([]), q := Raw([])], map[], map[])
  }

  lemma TwoFilesAreSound()
    ensures Sound(TwoFiles())
  {
    TwoFilesAreTidy();
    TwoFilesAreKept();
  }

  lemma TwoFilesAreTidy()
    ensures Tidy(TwoFiles())
  {
    var s := TwoFiles();
    assert Stamped(s) && ReceiptsSynced(s.local);
    assert s.disk == s.local;
    assert KnownReceipt(s, s.local[PartitionReceipt(LevelDecisionHealth, 0)].content.doc, LevelDecisionHealth, 0);
    assert ReceiptsKnown(s, s.local);
  }

  lemma TwoFilesAreKept()
    ensures AllKept(TwoFiles())
  {
    hide IsPayload, MayBeMissing;
    var s, folder := TwoFiles(), FeatureDay(LevelDecisionHealth, 0);
    forall p | p in s.payload
      ensures PayloadSound(s, p)
    {
      assert p == Path(folder, Jsonl("a")) || p == Path(folder, Jsonl("b"));
      assert Find(s.local, p).Some? && Find(s.disk, p) == Find(s.local, p);
      JsonlIsPayload(p);
    }
  }

  lemma JsonlIsPayload(p: Path)
    requires p.dir.FeatureDay? && p.name.Jsonl?
    ensures IsPayload(p)
  {
  }

  lemma TwoFilesAreVouched()
    ensures var s, p := TwoFiles(), Path(FeatureDay(LevelDecisionHealth, 0), Jsonl("a"));
      p in s.payload && Vouched(s, p, s.payload[p])
    ensures ReceiptComplete(TwoFiles(), LevelDecisionHealth, 0)
    ensures PartitionPresent(TwoFiles(), FeatureDay(LevelDecisionHealth, 0))
  {
  }

  // The state after a stop behind the first unlink.
  ghost function Interrupted(): Stores {
    var p := Path(FeatureDay(LevelDecisionHealth, 0), Jsonl("a"));
    AfterFsyncDir(AfterUnlink(TwoFiles(), p), p.dir)
  }

  // The receipt of the next run: it knows only what is left.
  function SecondReceipt(): (doc: Document)
    ensures doc.Receipt?
  {
    Receipt(None, FeatureDay(LevelDecisionHealth, 0), map[Jsonl("b") := 0], map[JsonlGz("b") := 20],
            map[JsonlGz("b") := Sha256(Gzip(Raw([]), 20))])
  }

  // save_receipt, without a stop.
  ghost function AfterPublish(s: Stores, to: Path, doc: Document): Stores {
    var pending := PendingPath(to);
    AfterFsyncDir(AfterReplace(AfterFsync(AfterWrite(s, pending, Json(doc, 0)), pending), pending, to), to.dir)
  }

  lemma PublishKeepsSound(s: Stores, to: Path, doc: Document)
    requires Sound(s) && ToolOwned(to) && MayReplace(s, to, doc)
    ensures Sound(AfterPublish(s, to, doc)) && Published(AfterPublish(s, to, doc), to, doc)
    ensures AfterPublish(s, to, doc).payload == s.payload
  {
    hide Sound, MayReplace, Saving, Staging, Published;
    var written := AfterWrite(s, PendingPath(to), Json(doc, 0));
    WriteStage(s, to, doc, 0, {});
    FsyncStage(written, to, doc, {});
    var synced := AfterFsync(written, PendingPath(to));
    ReplaceStage(synced, to, doc, {});
    var replaced := AfterReplace(synced, PendingPath(to), to);
    FsyncDirKeepsSound(replaced, to.dir);
    assert Published(AfterFsyncDir(replaced, to.dir), to, doc) by { SyncKeepsPublished(replaced, to, doc); }
  }

  lemma SyncKeepsPublished(s: Stores, to: Path, doc: Document)
    requires Published(s, to, doc)
    ensures Published(AfterFsyncDir(s, to.dir), to, doc)
  {
  }

  lemma InterruptedFiles()
    ensures FeatureFiles(TwoFiles(), FeatureDay(LevelDecisionHealth, 0)) == {Jsonl("a"), Jsonl("b")}
    ensures FeatureFiles(Interrupted(), FeatureDay(LevelDecisionHealth, 0)) == {Jsonl("b")}
    ensures Interrupted().payload == TwoFiles().payload && Interrupted().now == TwoFiles().now == 40 * DAY_SECONDS
  {
    var s, t, folder := TwoFiles(), Interrupted(), FeatureDay(LevelDecisionHealth, 0);
    assert Path(folder, Jsonl("a")) in s.local && Path(folder, Jsonl("b")) in s.local && Path(folder, Jsonl("b")) in t.local;
  }

  lemma InterruptedFacts()
    ensures var (t, folder) := (Interrupted(), FeatureDay(LevelDecisionHealth, 0));
      && Candidate(TwoFiles(), LevelDecisionHealth, 0) && Candidate(t, LevelDecisionHealth, 0)
      && FeatureFiles(t, folder) == {Jsonl("b")} && FeatureCopied(t, Path(folder, Jsonl("b")), SecondReceipt())
      && Path(folder, Jsonl("a")) in t.payload && t.payload == TwoFiles().payload
  {
    hide FeatureFiles;
    InterruptedFiles();
  }

  lemma SecondReceiptMayReplace()
    requires Sound(Interrupted())
    ensures MayReplace(Interrupted(), PartitionReceipt(LevelDecisionHealth, 0), SecondReceipt())
  {
    hide Sound;
    var t, folder := Interrupted(), FeatureDay(LevelDecisionHealth, 0);
    forall p | p in t.payload && ReceiptPath(p) == PartitionReceipt(LevelDecisionHealth, 0)
      ensures Vouchable(t, p, SecondReceipt())
    {
      assert p == Path(folder, Jsonl("a")) || p == Path(folder, Jsonl("b"));
    }
  }

  /** A stop inside the removal loop, and then the next run.  Both times the partition is one that may be
      archived; nothing is lost at any point; but the receipt, complete before, is replaced by one of all the
      files the next run finds, and that one is incomplete. */
  lemma ReceiptCompletenessCanBeLost()
    ensures var (s, t, receipt) := (TwoFiles(), Interrupted(), PartitionReceipt(LevelDecisionHealth, 0));
      var u := AfterPublish(t, receipt, SecondReceipt());
      && Sound(s) && Candidate(s, LevelDecisionHealth, 0) && ReceiptComplete(s, LevelDecisionHealth, 0)
      && Sound(t) && Conserved(t) && Candidate(t, LevelDecisionHealth, 0)
      && SecondReceipt().sizes.Keys == FeatureFiles(t, FeatureDay(LevelDecisionHealth, 0))
      && (forall n :: n in SecondReceipt().sizes ==> FeatureCopied(t, Path(FeatureDay(LevelDecisionHealth, 0), n), SecondReceipt()))
      && Sound(u) && Conserved(u) && Published(u, receipt, SecondReceipt())
      && !ReceiptComplete(u, LevelDecisionHealth, 0)
  {
    hide TwoFiles, Sound, Vouched, Candidate, FeatureFiles, FeatureCopied, MayReplace, Conserved, AfterPublish, PartitionPresent;
    var s, t, receipt := TwoFiles(), Interrupted(), PartitionReceipt(LevelDecisionHealth, 0);
    var p := Path(FeatureDay(LevelDecisionHealth, 0), Jsonl("a"));
    TwoFilesAreSound();
    TwoFilesAreVouched();
    InterruptedRemoval(s, p);
    SoundIsConserved(t);
    InterruptedFacts();
    SecondReceiptMayReplace();
    PublishKeepsSound(t, receipt, SecondReceipt());
    var u := AfterPublish(t, receipt, SecondReceipt());
    SoundIsConserved(u);
    assert !ListedOnDisk(u, LevelDecisionHealth, 0, p.name);
    assert p in u.payload && p.dir == FeatureDay(LevelDecisionHealth, 0);
  }
}
