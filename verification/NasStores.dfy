/**
 The two file stores of the NAS archiver and the primitive steps that change them.

 Contents are free terms: `Gzip` and `Sha256` are constructors, so decompressing undoes
 compressing and equal digests mean equal contents.  The local store is kept twice: `local` is
 what the running process sees, `disk` is what a power loss is sure to keep.
 */
module NasStores {
  import opened Options

  newtype Byte = x: int | 0 <= x < 256

  datatype Dataset =
    LevelDecisionHealth | SpringGammaV3 | TradeIntents | LevelTriggerRepricing | GthDetectorHealth

  datatype Dir =
    | FrameDay(day: int)
    | RawFrames(day: int)
    | FeatureDay(dataset: Dataset, day: int)
    | FeatureReceipts(dataset: Dataset)
    | OperationalHistory
    | RetentionBackup(stem: string)
    | ReleaseBackups

  datatype Name =
    | Frames                     // frames.ndjson.zst
    | Manifest                   // manifest.json
    | RawSegment(part: nat)      // <day>.<part>.ndjson
    | Jsonl(stem: string)        // <stem>.jsonl
    | JsonlGz(stem: string)      // <stem>.jsonl.gz
    | Operational(id: Digest)    // <sha256>.json.gz
    | Database(stem: string)     // <stem>.sqlite.zst
    | Proof(stem: string)        // <stem>.sqlite.zst.json
    | FrameReceipt               // nas-receipt.json
    | ColdReceipt(of: Name)      // <name>.nas-receipt.json
    | DayReceipt(day: int)       // date=<day>.json
    | Pending(of: Name)          // the temporary file a receipt is written to

  datatype Path = Path(dir: Dir, name: Name)

  datatype Digest = Sha256(of: Content)

  datatype Content =
    | Raw(bytes: seq<Byte>)
    | Gzip(of: Content, length: nat)
    | Json(doc: Document, length: nat)

  datatype Document =
    | ManifestDoc(day: int, verified: bool, archiveBytes: nat)
    | ProofDoc(archive: Path, archiveBytes: nat, verified: bool)
    | Receipt(source: Option<Identity>, destination: Dir, sizes: map<Name, nat>,
              packed: map<Name, nat>, sha256: map<Name, Digest>)

  // (st_dev, st_ino, st_ctime_ns) is abstracted to one stamp that every write renews.
  datatype Identity = Identity(stamp: nat, size: nat, mtime: int)

  datatype File = File(content: Content, stamp: nat, mtime: int, synced: bool)

  datatype Stores = Stores(
    local: map<Path, File>,      // what the process sees
    disk: map<Path, File>,       // what a power loss keeps
    nas: map<Path, Content>,
    clock: nat,                  // the next unused stamp
    now: nat,                    // seconds
    payload: map<Path, Content>, // the last bytes the producers stored under each payload path
    written: map<Path, nat>,     // when, by the clock, a producer last wrote a payload
    restored: map<Path, nat>)    // and when the archiver last put one back

  const QUIET_SECONDS: int := 48 * 3600
  const GRACE_SECONDS: int := 7 * 86400
  const RETENTION_DAYS: int := 30
  const DAY_SECONDS: int := 86400

  function Length(c: Content): nat {
    match c
    case Raw(bytes) => |bytes|
    case Gzip(_, length) => length
    case Json(_, length) => length
  }

  function IdentityOf(f: File): Identity {
    Identity(f.stamp, Length(f.content), f.mtime)
  }

  predicate IsPayload(p: Path) {
    match p.dir
    case FrameDay(_) => p.name.Frames?
    case FeatureDay(_, _) => p.name.Jsonl?
    case OperationalHistory => p.name.Operational?
    case RetentionBackup(_) => p.name.Database?
    case ReleaseBackups => p.name.Database?
    case _ => false
  }

  predicate IsCold(p: Path) {
    IsPayload(p) && (p.dir.OperationalHistory? || p.dir.RetentionBackup? || p.dir.ReleaseBackups?)
  }

  // Receipts and the temporary files they are published from are written by the archiver only.
  predicate ToolOwned(p: Path) {
    p.name.FrameReceipt? || p.name.ColdReceipt? || p.name.DayReceipt? || p.name.Pending?
  }

  function ReceiptPath(p: Path): Path {
    match p.dir
    case FeatureDay(dataset, day) => Path(FeatureReceipts(dataset), DayReceipt(day))
    case FrameDay(_) => Path(p.dir, FrameReceipt)
    case _ => Path(p.dir, ColdReceipt(p.name))
  }

  function NasName(n: Name): Name {
    if n.Jsonl? then JsonlGz(n.stem) else n
  }

  function NasPath(p: Path): Path {
    Path(p.dir, NasName(p.name))
  }

  // The NAS copy stores c directly, or as a gzip that decompresses to c.
  predicate Encodes(p: Path, packed: Content, c: Content) {
    if p.dir.FeatureDay? then packed.Gzip? && packed.of == c else packed == c
  }

  ghost predicate OnNas(s: Stores, p: Path)
    requires p in s.payload
  {
    NasPath(p) in s.nas && Encodes(p, s.nas[NasPath(p)], s.payload[p])
  }

  ghost predicate OnLocal(s: Stores, p: Path)
    requires p in s.payload
  {
    p in s.local && s.local[p].content == s.payload[p]
  }

  /** The headline property: no payload is lost. */
  ghost predicate Conserved(s: Stores) {
    forall p :: p in s.payload ==> OnLocal(s, p) || OnNas(s, p)
  }

  // A stored receipt that describes the given NAS copy of p.
  predicate Describes(f: File, p: Path, copy: Content) {
    && f.synced && f.content.Json? && f.content.doc.Receipt?
    && var r := f.content.doc;
    && NasName(p.name) in r.sha256 && r.sha256[NasName(p.name)] == Sha256(copy)
    && p.name in r.sizes
    && (if p.dir.FeatureDay?
        then NasName(p.name) in r.packed && r.packed[NasName(p.name)] == Length(copy)
             && copy.Gzip? && r.sizes[p.name] == Length(copy.of)
        else r.sizes[p.name] == Length(copy))
  }

  predicate Lists(f: File, n: Name) {
    f.content.Json? && f.content.doc.Receipt? && n in f.content.doc.sizes
  }

  predicate Intact(f: File, c: Content) {
    f.synced && f.content == c
  }

  // What must hold before payload p may be missing locally, now or after a power loss.  A frame
  // archive or cold file has a receipt on disk that describes its NAS copy; of a feature file no
  // receipt, in sight or on disk, says anything untrue.
  predicate MayBeMissing(p: Path, c: Content, copy: Option<Content>,
                         receipt: Option<File>, diskReceipt: Option<File>) {
    && copy.Some? && Encodes(p, copy.value, c)
    && if p.dir.FeatureDay? then
         && (receipt.Some? && Lists(receipt.value, p.name) ==> Describes(receipt.value, p, copy.value))
         && (diskReceipt.Some? && Lists(diskReceipt.value, p.name) ==> Describes(diskReceipt.value, p, copy.value))
       else
         receipt.Some? && receipt == diskReceipt && Describes(receipt.value, p, copy.value)
  }

  predicate Kept(p: Path, c: Content, now: int, local: Option<File>, disk: Option<File>,
                 copy: Option<Content>, receipt: Option<File>, diskReceipt: Option<File>) {
    && IsPayload(p)
    && (local.Some? ==> Intact(local.value, c))
    && (disk.Some? ==> Intact(disk.value, c))
    && (local.None? || disk.None? ==> MayBeMissing(p, c, copy, receipt, diskReceipt))
    && (local.Some? && disk.None? ==> p.dir.FeatureDay? && now <= local.value.mtime + QUIET_SECONDS)
    && (!p.dir.FeatureDay? && local.Some? && disk.Some? ==> local == disk)
  }

  ghost predicate Retired(s: Stores, p: Path)
    requires p in s.payload
  {
    MayBeMissing(p, s.payload[p], Find(s.nas, NasPath(p)),
                 Find(s.local, ReceiptPath(p)), Find(s.disk, ReceiptPath(p)))
  }

  ghost predicate PayloadSound(s: Stores, p: Path)
    requires p in s.payload
  {
    Kept(p, s.payload[p], s.now, Find(s.local, p), Find(s.disk, p), Find(s.nas, NasPath(p)),
         Find(s.local, ReceiptPath(p)), Find(s.disk, ReceiptPath(p)))
  }

  ghost predicate Stamped(s: Stores) {
    && (forall p :: p in s.local ==> s.local[p].stamp < s.clock)
    && (forall p :: p in s.disk ==> s.disk[p].stamp < s.clock)
  }

  // Receipts are published by renaming a synced file, so none is ever torn.
  ghost predicate ReceiptsSynced(files: map<Path, File>) {
    forall p :: p in files && ToolOwned(p) && !p.name.Pending? ==> files[p].synced
  }

  // A feature receipt names its own partition and only files the producers wrote there.
  ghost predicate ReceiptsKnown(s: Stores, files: map<Path, File>) {
    forall dataset, day :: Path(FeatureReceipts(dataset), DayReceipt(day)) in files ==>
      var c := files[Path(FeatureReceipts(dataset), DayReceipt(day))].content;
      c.Json? ==> KnownReceipt(s, c.doc, dataset, day)
  }

  ghost predicate KnownReceipt(s: Stores, doc: Document, dataset: Dataset, day: int) {
    doc.Receipt? ==>
      && doc.destination == FeatureDay(dataset, day)
      && forall n :: n in doc.sizes ==> Path(FeatureDay(dataset, day), n) in s.payload
  }

  ghost predicate Tidy(s: Stores) {
    && Stamped(s)
    && ReceiptsSynced(s.local) && ReceiptsSynced(s.disk)
    && ReceiptsKnown(s, s.local) && ReceiptsKnown(s, s.disk)
    && (forall p :: p in s.local && IsPayload(p) ==> p in s.payload)
    && (forall p :: p in s.disk && IsPayload(p) ==> p in s.payload)
  }

  ghost predicate AllKept(s: Stores) {
    forall p :: p in s.payload ==> PayloadSound(s, p)
  }

  /** The inductive invariant that every step keeps. */
  ghost predicate Sound(s: Stores) {
    Tidy(s) && AllKept(s)
  }

  lemma SoundIsConserved(s: Stores)
    requires Sound(s)
    ensures Conserved(s)
  {
  }

  /******* Steps of the world around the archiver *******/

  // Producers write whole files durably, and never recreate a payload that has been archived.
  predicate MayProduce(s: Stores, held: set<Dir>, p: Path) {
    p.dir !in held && !ToolOwned(p) && (IsPayload(p) && p in s.payload ==> p in s.local)
  }

  function AfterProduce(s: Stores, p: Path, c: Content, mtime: int): Stores {
    var f := File(c, s.clock, mtime, true);
    s.(local := s.local[p := f], disk := s.disk[p := f], clock := s.clock + 1,
       payload := if IsPayload(p) then s.payload[p := c] else s.payload,
       written := if IsPayload(p) then s.written[p := s.clock] else s.written)
  }

  // Entries older than the quiet period have been written back by the kernel.
  function AfterElapse(s: Stores, seconds: nat): Stores {
    var now := s.now + seconds;
    s.(now := now,
       disk := s.disk + map p | p in s.local && WrittenBack(s, seconds, p) :: s.local[p])
  }

  // An entry of the image a power loss leaves: an unsynced file may come back with any bytes.
  predicate Survives(before: File, after: File) {
    after.stamp == before.stamp && (before.synced ==> after == before)
  }

  predicate CrashImage(s: Stores, image: map<Path, File>) {
    && (forall p :: p in image ==>
          (p in s.local && Survives(s.local[p], image[p])) || (p in s.disk && Survives(s.disk[p], image[p])))
    && (forall p :: p in s.local && p in s.disk ==> p in image)
  }

  function AfterPowerLoss(s: Stores, image: map<Path, File>): Stores {
    s.(local := image, disk := image)
  }

  /******* Steps of the archiver *******/

  function AfterPut(s: Stores, at: Path, c: Content): Stores {
    s.(nas := s.nas[at := c])
  }

  function AfterWrite(s: Stores, p: Path, c: Content): Stores {
    s.(local := s.local[p := File(c, s.clock, s.now, false)], clock := s.clock + 1)
  }

  function AfterFsync(s: Stores, p: Path): Stores
    requires p in s.local
  {
    s.(local := s.local[p := s.local[p].(synced := true)])
  }

  function AfterReplace(s: Stores, from: Path, to: Path): Stores
    requires from in s.local
  {
    s.(local := (s.local - {from})[to := s.local[from]])
  }

  function AfterFsyncDir(s: Stores, d: Dir): Stores {
    s.(disk := map p | p in s.local.Keys + s.disk.Keys && p in (if p.dir == d then s.local else s.disk)
                 :: if p.dir == d then s.local[p] else s.disk[p])
  }

  function AfterUnlink(s: Stores, p: Path): Stores {
    s.(local := s.local - {p})
  }

  function AfterLink(s: Stores, p: Path, c: Content): Stores {
    s.(local := s.local[p := File(c, s.clock, s.now, true)], clock := s.clock + 1, restored := s.restored[p := s.clock])
  }

  /******* Every step keeps the invariant *******/

  // The soundness of a payload depends on five look-ups only.
  lemma SameLookups(s: Stores, t: Stores, p: Path)
    requires p in s.payload && p in t.payload && t.payload[p] == s.payload[p] && t.now == s.now
    requires Find(t.local, p) == Find(s.local, p) && Find(t.disk, p) == Find(s.disk, p)
    requires Find(t.nas, NasPath(p)) == Find(s.nas, NasPath(p))
    requires Find(t.local, ReceiptPath(p)) == Find(s.local, ReceiptPath(p))
    requires Find(t.disk, ReceiptPath(p)) == Find(s.disk, ReceiptPath(p))
    requires PayloadSound(s, p)
    ensures PayloadSound(t, p)
  {
  }

  lemma StoredIsPayload(s: Stores, p: Path)
    requires Sound(s) && p in s.payload
    ensures IsPayload(p)
  {
    assert PayloadSound(s, p);
  }

  lemma ProduceKeepsSound(s: Stores, held: set<Dir>, p: Path, c: Content, mtime: int)
    requires Sound(s) && MayProduce(s, held, p)
    ensures Sound(AfterProduce(s, p, c, mtime))
  {
    hide Tidy, PayloadSound;
    var t := AfterProduce(s, p, c, mtime);
    ProduceKeepsTidy(s, held, p, c, mtime);
    forall q | q in t.payload
      ensures PayloadSound(t, q)
    {
      if q != p {
        StoredIsPayload(s, q);
        SameLookups(s, t, q);
      } else {
        if p in s.payload {
          StoredIsPayload(s, p);
        }
        NewIsSound(s, held, p, c, mtime);
      }
    }
  }

  lemma NewIsSound(s: Stores, held: set<Dir>, p: Path, c: Content, mtime: int)
    requires MayProduce(s, held, p) && IsPayload(p)
    ensures PayloadSound(AfterProduce(s, p, c, mtime), p)
  {
  }

  lemma ProduceKeepsTidy(s: Stores, held: set<Dir>, p: Path, c: Content, mtime: int)
    requires Tidy(s) && MayProduce(s, held, p)
    ensures Tidy(AfterProduce(s, p, c, mtime))
  {
  }

  // Writing back an entry, or syncing its directory, replaces what is on disk by what is in sight.
  lemma KeptAfterSync(p: Path, c: Content, now: int, local: Option<File>, disk: Option<File>,
                      copy: Option<Content>, receipt: Option<File>, diskReceipt: Option<File>, a: bool, b: bool)
    requires Kept(p, c, now, local, disk, copy, receipt, diskReceipt)
    ensures Kept(p, c, now, local, if a then local else disk, copy, receipt, if b then receipt else diskReceipt)
  {
  }

  predicate WrittenBack(s: Stores, seconds: nat, p: Path) {
    p in s.local && s.local[p].synced && s.local[p].mtime + QUIET_SECONDS < s.now + seconds
  }

  lemma ElapseKeepsSound(s: Stores, seconds: nat)
    requires Sound(s)
    ensures Sound(AfterElapse(s, seconds))
  {
    var t := AfterElapse(s, seconds);
    forall q | q in t.payload
      ensures PayloadSound(t, q)
    {
      ElapseKeepsPayload(s, seconds, q);
    }
  }

  lemma ElapseKeepsPayload(s: Stores, seconds: nat, q: Path)
    requires q in s.payload && PayloadSound(s, q)
    ensures PayloadSound(AfterElapse(s, seconds), q)
  {
    var t, r := AfterElapse(s, seconds), ReceiptPath(q);
    assert Find(t.disk, q) == if WrittenBack(s, seconds, q) then Find(s.local, q) else Find(s.disk, q);
    assert Find(t.disk, r) == if WrittenBack(s, seconds, r) then Find(s.local, r) else Find(s.disk, r);
    KeptAfterSync(q, s.payload[q], s.now, Find(s.local, q), Find(s.disk, q), Find(s.nas, NasPath(q)),
      Find(s.local, r), Find(s.disk, r), WrittenBack(s, seconds, q), WrittenBack(s, seconds, r));
  }

  lemma FsyncDirKeepsTidy(s: Stores, d: Dir)
    requires Tidy(s)
    ensures Tidy(AfterFsyncDir(s, d))
  {
    var t := AfterFsyncDir(s, d);
    forall p | p in t.disk
      ensures (p in s.local && t.disk[p] == s.local[p]) || (p in s.disk && t.disk[p] == s.disk[p])
    {
    }
    assert ReceiptsKnown(t, s.local) && ReceiptsKnown(t, s.disk);
    assert ReceiptsKnown(t, t.disk);
  }

  lemma FsyncDirKeepsSound(s: Stores, d: Dir)
    requires Sound(s)
    ensures Sound(AfterFsyncDir(s, d))
  {
    var t := AfterFsyncDir(s, d);
    FsyncDirKeepsTidy(s, d);
    forall q | q in t.payload
      ensures PayloadSound(t, q)
    {
      FsyncDirKeepsPayload(s, d, q);
    }
  }

  lemma FsyncDirKeepsPayload(s: Stores, d: Dir, q: Path)
    requires q in s.payload && PayloadSound(s, q)
    ensures PayloadSound(AfterFsyncDir(s, d), q)
  {
    var t, r := AfterFsyncDir(s, d), ReceiptPath(q);
    assert Find(t.disk, q) == if q.dir == d then Find(s.local, q) else Find(s.disk, q);
    assert Find(t.disk, r) == if r.dir == d then Find(s.local, r) else Find(s.disk, r);
    KeptAfterSync(q, s.payload[q], s.now, Find(s.local, q), Find(s.disk, q), Find(s.nas, NasPath(q)),
      Find(s.local, r), Find(s.disk, r), q.dir == d, r.dir == d);
  }

  lemma PowerLossKeepsSound(s: Stores, image: map<Path, File>)
    requires Sound(s) && CrashImage(s, image)
    ensures Sound(AfterPowerLoss(s, image))
  {
    var t := AfterPowerLoss(s, image);
    forall q | q in t.payload
      ensures PayloadSound(t, q)
    {
      PowerLossKeepsPayload(s, image, q);
    }
  }

  lemma PowerLossKeepsPayload(s: Stores, image: map<Path, File>, q: Path)
    requires q in s.payload && PayloadSound(s, q) && CrashImage(s, image)
    requires ReceiptsSynced(s.local) && ReceiptsSynced(s.disk)
    ensures PayloadSound(AfterPowerLoss(s, image), q)
  {
    var t, r := AfterPowerLoss(s, image), ReceiptPath(q);
    assert r in image ==> Find(t.local, r) == Find(s.local, r) || Find(t.local, r) == Find(s.disk, r);
    assert q in image ==> Find(t.local, q) == Find(s.local, q) || Find(t.local, q) == Find(s.disk, q);
  }

  /** Wherever a power loss strikes, a frame archive or cold file that is missing afterwards has a whole
      receipt on disk that describes its NAS copy, and the NAS copy is the payload. */
  lemma DurableReceiptAfterPowerLoss(s: Stores, image: map<Path, File>, p: Path)
    requires Sound(s) && CrashImage(s, image)
    requires p in s.payload && !p.dir.FeatureDay? && p !in image
    ensures NasPath(p) in s.nas && s.nas[NasPath(p)] == s.payload[p]
    ensures ReceiptPath(p) in image && Describes(image[ReceiptPath(p)], p, s.nas[NasPath(p)])
  {
    hide Describes;
    PowerLossKeepsPayload(s, image, p);
    assert PayloadSound(AfterPowerLoss(s, image), p);
  }

  // A transfer may leave any bytes at the NAS paths of payloads that are safe on the local disk.
  lemma PutKeepsSound(s: Stores, at: Path, c: Content)
    requires Sound(s)
    requires forall p :: p in s.payload && NasPath(p) == at ==> p in s.local && p in s.disk
    ensures Sound(AfterPut(s, at, c))
  {
    var t := AfterPut(s, at, c);
    forall q | q in t.payload
      ensures PayloadSound(t, q)
    {
      assert PayloadSound(s, q);
    }
  }

  lemma WriteKeepsSound(s: Stores, p: Path, c: Content)
    requires Sound(s) && p.name.Pending?
    ensures Sound(AfterWrite(s, p, c))
  {
    hide Tidy, PayloadSound;
    var t := AfterWrite(s, p, c);
    WriteKeepsTidy(s, p, c);
    forall q | q in t.payload
      ensures PayloadSound(t, q)
    {
      StoredIsPayload(s, q);
      SameLookups(s, t, q);
    }
  }

  lemma WriteKeepsTidy(s: Stores, p: Path, c: Content)
    requires Tidy(s) && p.name.Pending?
    ensures Tidy(AfterWrite(s, p, c))
  {
  }

  lemma FsyncKeepsTidy(s: Stores, p: Path)
    requires Tidy(s) && p in s.local && p.name.Pending?
    ensures Tidy(AfterFsync(s, p))
  {
  }

  lemma FsyncKeepsSound(s: Stores, p: Path)
    requires Sound(s) && p in s.local && p.name.Pending?
    ensures Sound(AfterFsync(s, p))
  {
    hide Tidy, PayloadSound;
    var t := AfterFsync(s, p);
    FsyncKeepsTidy(s, p);
    forall q | q in t.payload
      ensures PayloadSound(t, q)
    {
      StoredIsPayload(s, q);
      SameLookups(s, t, q);
    }
  }

  // A receipt may be replaced while every payload it vouches for is present, or by one that
  // is silent about the missing ones.
  ghost predicate MayReplace(s: Stores, to: Path, doc: Document) {
    && ToolOwned(to) && !to.name.Pending?
    && (forall p :: p in s.payload && ReceiptPath(p) == to ==> Vouchable(s, p, doc))
    && (forall dataset, day :: to == Path(FeatureReceipts(dataset), DayReceipt(day)) ==>
          KnownReceipt(s, doc, dataset, day))
  }

  ghost predicate Vouchable(s: Stores, p: Path, doc: Document) {
    || (p in s.local && p in s.disk)
    || (p.dir.FeatureDay? && !(doc.Receipt? && p.name in doc.sizes))
  }

  lemma ReplaceKeepsSound(s: Stores, from: Path, to: Path)
    requires Sound(s) && from in s.local && from.name.Pending? && s.local[from].synced
    requires s.local[from].content.Json? && MayReplace(s, to, s.local[from].content.doc)
    ensures Sound(AfterReplace(s, from, to))
  {
    hide Tidy, KnownReceipt, PayloadSound;
    var t := AfterReplace(s, from, to);
    ReplaceKeepsTidy(s, from, to);
    forall q | q in t.payload
      ensures PayloadSound(t, q)
    {
      StoredIsPayload(s, q);
      if ReceiptPath(q) == to {
        assert Vouchable(s, q, s.local[from].content.doc);
        ReplaceKeepsPayload(s, from, to, q);
      } else {
        SameLookups(s, t, q);
      }
    }
  }

  lemma ReplaceKeepsTidy(s: Stores, from: Path, to: Path)
    requires Tidy(s) && from in s.local && from.name.Pending? && s.local[from].synced
    requires s.local[from].content.Json? && MayReplace(s, to, s.local[from].content.doc)
    ensures Tidy(AfterReplace(s, from, to))
  {
  }

  lemma ReplaceKeepsPayload(s: Stores, from: Path, to: Path, q: Path)
    requires q in s.payload && PayloadSound(s, q) && from in s.local && from.name.Pending?
    requires ReceiptPath(q) == to && ToolOwned(to) && s.local[from].content.Json? && Vouchable(s, q, s.local[from].content.doc)
    ensures PayloadSound(AfterReplace(s, from, to), q)
  {
    var t := AfterReplace(s, from, to);
    assert Find(t.local, q) == Find(s.local, q);
    assert Find(t.local, to) == Some(s.local[from]) && Find(t.disk, to) == Find(s.disk, to);
  }

  lemma UnlinkKeepsTidy(s: Stores, p: Path)
    requires Tidy(s) && p in s.payload
    ensures Tidy(AfterUnlink(s, p))
  {
  }

  lemma UnlinkKeepsSound(s: Stores, p: Path)
    requires Sound(s) && p in s.payload && Retired(s, p)
    ensures Sound(AfterUnlink(s, p))
  {
    hide Tidy, Retired, PayloadSound;
    var t := AfterUnlink(s, p);
    UnlinkKeepsTidy(s, p);
    StoredIsPayload(s, p);
    forall q | q in t.payload
      ensures PayloadSound(t, q)
    {
      StoredIsPayload(s, q);
      if q != p {
        SameLookups(s, t, q);
      } else {
        UnlinkKeepsPayload(s, p);
      }
    }
  }

  lemma UnlinkKeepsPayload(s: Stores, p: Path)
    requires p in s.payload && PayloadSound(s, p) && Retired(s, p) && !ToolOwned(p)
    ensures PayloadSound(AfterUnlink(s, p), p)
  {
  }

  lemma LinkKeepsTidy(s: Stores, p: Path, c: Content)
    requires Tidy(s) && p.dir.FeatureDay? && p in s.payload
    ensures Tidy(AfterLink(s, p, c))
  {
  }

  lemma LinkKeepsSound(s: Stores, p: Path, c: Content)
    requires Sound(s) && p.dir.FeatureDay? && p in s.payload && p !in s.local && s.payload[p] == c
    ensures Sound(AfterLink(s, p, c))
  {
    var t := AfterLink(s, p, c);
    LinkKeepsTidy(s, p, c);
    forall q | q in t.payload
      ensures PayloadSound(t, q)
    {
      if q != p {
        SameLookups(s, t, q);
      } else {
        assert PayloadSound(s, p);
      }
    }
  }
}
