/**
 The archiver's operations as a process that can be interrupted between any two steps.

 Between two steps producers may write (except in the directories `held`), time may pass, and the
 process may stop: an exception, a kill or a power loss.  Every method therefore returns
 `Failed` from every one of its intermediate states, and what it ensures of `Failed` holds there.
 */
module NasArchive {
  import opened Options
  import opened NasStores
  import opened NasSteps

  datatype Command =
    | ArchiveDay(day: int)
    | ArchivePartition(dataset: Dataset, day: int)
    | ArchiveColdFile(path: Path)
    | Restore(dataset: Dataset, day: int)
    | World
    | Crash

  class Host {
    var local: map<Path, File>
    var disk: map<Path, File>
    var nas: map<Path, Content>
    var clock: nat
    var now: nat
    var payload: map<Path, Content>   // what the producers last stored; never read by the archiver
    var written: map<Path, nat>       // when a producer last wrote it
    var restored: map<Path, nat>      // when it was last put back
    ghost var uploads: nat            // transfers started

    function View(): Stores
      reads this
    {
      Stores(local, disk, nas, clock, now, payload, written, restored)
    }

    constructor ()
      ensures Sound(View()) && local == map[] && nas == map[] && payload == map[]
    {
      local, disk, nas, clock, now := map[], map[], map[], 0, 0;
      payload, written, restored, uploads := map[], map[], map[], 0;
    }

    /******* The world *******/

    method Produce(p: Path, c: Content, mtime: int)
      modifies this`local, this`disk, this`clock, this`payload, this`written
      ensures View() == AfterProduce(old(View()), p, c, mtime)
    {
      var f := File(c, clock, mtime, true);
      local, disk, clock := local[p := f], disk[p := f], clock + 1;
      if IsPayload(p) {
        payload, written := payload[p := c], written[p := clock - 1];
      }
    }

    method Elapse(seconds: nat)
      modifies this`disk, this`now
      ensures View() == AfterElapse(old(View()), seconds)
    {
      disk := AfterElapse(View(), seconds).disk;
      now := now + seconds;
    }

    // A producer write of any file with any bytes, or the passing of some time.
    method Disturb(held: set<Dir>)
      requires Sound(View())
      modifies this`local, this`disk, this`clock, this`now, this`payload, this`written
      ensures Sound(View())
      ensures Ran(old(View()), View(), held)
    {
      var p: Path := *;
      var c: Content := *;
      var mtime: int := *;
      if MayProduce(View(), held, p) {
        ProduceKeepsSound(View(), held, p, c, mtime);
        ProduceIsStep(View(), held, p, c, mtime);
        Produce(p, c, mtime);
      } else {
        var seconds: nat :| true;
        ElapseKeepsSound(View(), seconds);
        ElapseIsStep(View(), held, seconds);
        Elapse(seconds);
      }
    }

    method PowerLoss()
      requires Sound(View())
      modifies this`local, this`disk
      ensures Sound(View()) && Stopped(old(View()), View())
    {
      var image: map<Path, File> := *;
      if CrashImage(View(), image) {
        PowerLossKeepsSound(View(), image);
        local, disk := image, image;
        assert View() == AfterPowerLoss(old(View()), image);
      }
    }

    /** What can happen between two steps of the archiver. */
    method Between(held: set<Dir>) returns (stop: bool)
      requires Sound(View())
      modifies this`local, this`disk, this`clock, this`now, this`payload, this`written
      ensures Sound(View())
      ensures stop ==> Stopped(old(View()), View())
      ensures !stop ==> Ran(old(View()), View(), held)
    {
      stop := *;
      if stop {
        PowerLoss();
      } else {
        var events: nat :| true;
        for i := 0 to events
          invariant Sound(View())
          invariant Ran(old(View()), View(), held)
        {
          ghost var middle := View();
          Disturb(held);
          RanTransitive(old(View()), middle, View(), held);
        }
      }
    }

    /** `Between`, seen from the start of a stretch of the run. */
    method Pause(ghost start: Stores, held: set<Dir>) returns (stop: bool)
      requires Sound(View()) && Ran(start, View(), held)
      modifies this`local, this`disk, this`clock, this`now, this`payload, this`written
      ensures Sound(View())
      ensures stop ==> Keeps(start, View(), held, {})
      ensures !stop ==> Ran(start, View(), held) && Ran(old(View()), View(), held)
    {
      hide Sound, Ran, Keeps;
      stop := Between(held);
      if stop {
        RanThenStopped(start, old(View()), View(), held);
      } else {
        RanTransitive(start, old(View()), View(), held);
      }
    }

    /******* Primitive operations of the archiver *******/

    method Put(at: Path, c: Content)
      modifies this`nas
      ensures View() == AfterPut(old(View()), at, c)
    {
      nas := nas[at := c];
    }

    method Write(p: Path, c: Content)
      modifies this`local, this`clock
      ensures View() == AfterWrite(old(View()), p, c)
    {
      local, clock := local[p := File(c, clock, now, false)], clock + 1;
    }

    method Fsync(p: Path)
      requires p in local
      modifies this`local
      ensures View() == AfterFsync(old(View()), p)
    {
      local := local[p := local[p].(synced := true)];
    }

    method Replace(from: Path, to: Path)
      requires from in local
      modifies this`local
      ensures View() == AfterReplace(old(View()), from, to)
    {
      local := (local - {from})[to := local[from]];
    }

    method FsyncDir(d: Dir)
      modifies this`disk
      ensures View() == AfterFsyncDir(old(View()), d)
    {
      disk := AfterFsyncDir(View(), d).disk;
    }

    method Unlink(p: Path)
      modifies this`local
      ensures View() == AfterUnlink(old(View()), p)
    {
      local := local - {p};
    }

    method Link(p: Path, c: Content)
      modifies this`local, this`clock, this`restored
      ensures View() == AfterLink(old(View()), p, c)
    {
      restored := restored[p := clock];
      local, clock := local[p := File(c, clock, now, true)], clock + 1;
    }

    /******* copy_and_verify *******/

    // rsync: each named file is replaced by whatever arrives, or the transfer breaks off.
    method Rsync(names: set<Name>, target: Dir, held: set<Dir>) returns (stop: bool)
      requires Sound(View()) && Cleared(View(), target, names)
      modifies this`local, this`disk, this`clock, this`now, this`payload, this`written, this`nas
      ensures Sound(View()) && NasKeptOutside(old(View()), View(), target, names)
      ensures stop ==> Keeps(old(View()), View(), held, {})
      ensures !stop ==> Ran(old(View()), View(), held)
    {
      hide Sound, Ran, Keeps, Cleared;
      var rest := names;
      RanReflexive(View(), held);
      while rest != {}
        invariant rest <= names
        invariant Sound(View()) && Cleared(View(), target, names)
        invariant Ran(old(View()), View(), held) && NasKeptOutside(old(View()), View(), target, names)
        decreases |rest|
      {
        var n :| n in rest;
        var arrived: Content := *;
        ghost var before := View();
        PutDuringTransfer(before, held, target, names, n, arrived);
        Put(Path(target, n), arrived);
        rest := rest - {n};
        ghost var middle := View();
        RanTransitive(old(View()), before, middle, held);
        stop := Pause(old(View()), held);
        if stop {
          return;
        }
        RanKeepsCleared(middle, View(), held, target, names);
      }
      stop := false;
    }

    // The local digests, each taken at its own moment.
    method HashSources(source: Source, names: set<Name>, held: set<Dir>)
      returns (r: Outcome<map<Name, Digest>>)
      requires Sound(View()) && PlainNames(names)
      modifies this`local, this`disk, this`clock, this`now, this`payload, this`written
      ensures Sound(View())
      ensures r.Failed? ==> Keeps(old(View()), View(), held, {})
      ensures r.Done? ==> Ran(old(View()), View(), held)
      ensures r.Done? ==> r.value.Keys == names && Hashed(source, r.value, old(View()), View())
    {
      hide Sound, Ran, Keeps, Hashed;
      var rest := names;
      var hashes: map<Name, Digest> := map[];
      RanReflexive(View(), held);
      NothingHashed(source, View());
      while rest != {}
        invariant rest <= names && hashes.Keys == names - rest
        invariant Sound(View()) && Ran(old(View()), View(), held)
        invariant Hashed(source, hashes, old(View()), View())
        decreases |rest|
      {
        var n :| n in rest;
        ghost var middle := View();
        if !ReadableAt(source, n, View()) {
          RanKeeps(old(View()), View(), held);
          return Failed;
        }
        OneMoreHashed(source, hashes, old(View()), View(), n);
        hashes := hashes[n := Sha256(ContentAt(source, n, View()))];
        rest := rest - {n};
        var stop := Pause(old(View()), held);
        if stop {
          return Failed;
        }
        RanKeepsHashed(source, hashes, old(View()), middle, View(), held);
      }
      return Done(hashes);
    }

    // The remote check: sizes and digests of what is really on the NAS.
    method VerifyRemote(expected: map<Name, nat>, hashes: map<Name, Digest>, target: Dir, held: set<Dir>)
      returns (ok: bool)
      requires Sound(View()) && hashes.Keys == expected.Keys
      modifies this`local, this`disk, this`clock, this`now, this`payload, this`written
      ensures Sound(View())
      ensures !ok ==> Keeps(old(View()), View(), held, {})
      ensures ok ==> Ran(old(View()), View(), held) && Verified(nas, expected, hashes, target)
    {
      hide Sound, Ran, Keeps;
      var rest := expected.Keys;
      RanReflexive(View(), held);
      while rest != {}
        invariant rest <= expected.Keys
        invariant Sound(View()) && Ran(old(View()), View(), held)
        invariant forall n :: n in expected && n !in rest ==> VerifiedName(nas, n, expected[n], hashes[n], target)
        decreases |rest|
      {
        var n :| n in rest;
        if !VerifiedName(nas, n, expected[n], hashes[n], target) {
          RanKeeps(old(View()), View(), held);
          return false;
        }
        rest := rest - {n};
        var stop := Pause(old(View()), held);
        if stop {
          return false;
        }
      }
      ok := true;
    }

    /** Transfer, then prove by digest that the NAS holds what the source held. */
    method CopyAndVerify(source: Source, expected: map<Name, nat>, target: Dir, held: set<Dir>)
      returns (r: Outcome<map<Name, Digest>>)
      requires Sound(View()) && PlainNames(expected.Keys) && Cleared(View(), target, expected.Keys)
      modifies this`local, this`disk, this`clock, this`now, this`payload, this`written, this`nas, this`uploads
      ensures Sound(View()) && uploads == old(uploads) + 1
      ensures NasKeptOutside(old(View()), View(), target, expected.Keys)
      ensures r.Failed? ==> Keeps(old(View()), View(), held, {})
      ensures r.Done? ==> Ran(old(View()), View(), held)
      ensures r.Done? ==> r.value.Keys == expected.Keys && Verified(nas, expected, r.value, target)
      ensures r.Done? ==> Hashed(source, r.value, old(View()), View())
    {
      hide Sound, Ran, Keeps, Hashed, Cleared, Verified;
      uploads := uploads + 1;
      var stop := Rsync(expected.Keys, target, held);
      if stop {
        return Failed;
      }
      ghost var copied := View();
      r := HashSources(source, expected.Keys, held);
      if r.Failed? {
        RanThenKeeps(old(View()), copied, View(), held);
        return;
      }
      ghost var hashed := View();
      RanTransitive(old(View()), copied, hashed, held);
      HashedFromEarlier(source, r.value, old(View()), copied, hashed, held);
      var ok := VerifyRemote(expected, r.value, target, held);
      if !ok {
        RanThenKeeps(old(View()), hashed, View(), held);
        return Failed;
      }
      RanTransitive(old(View()), hashed, View(), held);
      RanKeepsHashed(source, r.value, old(View()), hashed, View(), held);
    }

    /******* save_receipt *******/

    /** Publishes a receipt so that it is on disk, whole, before the caller goes on. */
    method SaveReceipt(to: Path, doc: Document, held: set<Dir>) returns (r: Outcome<()>)
      requires Sound(View()) && ToolOwned(to) && MayReplace(View(), to, doc)
      modifies this`local, this`disk, this`clock, this`now, this`payload, this`written
      ensures Sound(View())
      ensures r.Failed? ==> Keeps(old(View()), View(), held, {to, PendingPath(to)})
      ensures r.Done? ==> Saving(old(View()), View(), held, {to, PendingPath(to)})
      ensures r.Done? ==> Settled(View(), to) && Published(View(), to, doc)
    {
      hide Sound, Steps, Ran, Keeps, Saving, MayReplace;
      ghost var start, touched := View(), {to, PendingPath(to)};
      var staged := StageReceipt(to, doc, held);
      if !staged {
        return Failed;
      }
      ghost var before := View();
      ReplaceStage(before, to, doc, held);
      Replace(PendingPath(to), to);
      ghost var middle := View();
      SavingTransitive(start, before, middle, held, touched);
      var stop := PauseSaving(start, held, touched);
      if stop {
        return Failed;
      }
      RanKeepsPublished(middle, View(), held, to, doc);

      before := View();
      FsyncDirKeepsSound(before, to.dir);
      FsyncDirSaves(before, to.dir, held, touched);
      FsyncDir(to.dir);
      SavingTransitive(start, before, View(), held, touched);
      return Done(());
    }

    // The receipt under its temporary name, written and synchronised.
    method StageReceipt(to: Path, doc: Document, held: set<Dir>) returns (ok: bool)
      requires Sound(View()) && ToolOwned(to) && MayReplace(View(), to, doc)
      modifies this`local, this`disk, this`clock, this`now, this`payload, this`written
      ensures Sound(View())
      ensures !ok ==> Keeps(old(View()), View(), held, {to, PendingPath(to)})
      ensures ok ==> Saving(old(View()), View(), held, {to, PendingPath(to)}) && Staging(View(), to, doc, true)
    {
      hide Sound, Steps, Ran, Keeps, Saving, MayReplace;
      ghost var start, touched := View(), {to, PendingPath(to)};
      var length: nat :| true;
      WriteStage(start, to, doc, length, held);
      Write(PendingPath(to), Json(doc, length));
      ghost var middle := View();
      var stop := PauseSaving(start, held, touched);
      if stop {
        return false;
      }
      RanKeepsStaging(middle, View(), held, to, doc, false);

      ghost var before := View();
      FsyncStage(before, to, doc, held);
      Fsync(PendingPath(to));
      middle := View();
      SavingTransitive(start, before, middle, held, touched);
      stop := PauseSaving(start, held, touched);
      if stop {
        return false;
      }
      RanKeepsStaging(middle, View(), held, to, doc, true);
      return true;
    }

    method PauseSaving(ghost start: Stores, held: set<Dir>, ghost touched: set<Path>) returns (stop: bool)
      requires Sound(View()) && Saving(start, View(), held, touched)
      modifies this`local, this`disk, this`clock, this`now, this`payload, this`written
      ensures Sound(View())
      ensures stop ==> Keeps(start, View(), held, touched)
      ensures !stop ==> Saving(start, View(), held, touched) && Ran(old(View()), View(), held)
    {
      hide Sound, Ran, Keeps, Saving;
      RanReflexive(View(), held);
      stop := Pause(View(), held);
      if stop {
        SavingThenKeeps(start, old(View()), View(), held, touched);
      } else {
        SavingThenRan(start, old(View()), View(), held, touched);
      }
    }

    /******* migrate: one day's frame archive *******/

    // inspect: the manifest vouches for the archive beside it.
    function Inspect(day: int): Outcome<map<Name, nat>>
      reads this
    {
      var manifest, archive := Path(FrameDay(day), Manifest), Path(FrameDay(day), Frames);
      if manifest !in local || archive !in local || !local[manifest].content.Json? then Failed
      else
        var doc := local[manifest].content.doc;
        if !doc.ManifestDoc? || !doc.verified || doc.day != day || Length(local[archive].content) != doc.archiveBytes
        then Failed
        else Done(map[Manifest := Length(local[manifest].content), Frames := doc.archiveBytes])
    }

    // The file in sight is the one the digests describe and the NAS holds.
    ghost predicate Transferred(p: Path, sizes: map<Name, nat>, hashes: map<Name, Digest>)
      reads this
    {
      && p in local && p in nas && nas[p] == local[p].content
      && p.name in hashes && hashes[p.name] == Sha256(nas[p])
      && p.name in sizes && sizes[p.name] == Length(nas[p])
    }

    // Transfer of a frame archive or cold file, followed by the check that it did not change.
    method CopyFile(p: Path, expected: map<Name, nat>, held: set<Dir>) returns (r: Outcome<map<Name, Digest>>)
      requires Sound(View()) && IsPayload(p) && !p.dir.FeatureDay? && p in local
      requires p.name in expected && PlainNames(expected.Keys)
      requires forall n :: n in expected && IsPayload(Path(p.dir, n)) ==> n == p.name
      modifies this`local, this`disk, this`clock, this`now, this`payload, this`written, this`nas, this`uploads
      ensures Sound(View()) && uploads == old(uploads) + 1
      ensures r.Failed? ==> Keeps(old(View()), View(), held, {})
      ensures r.Done? ==> Ran(old(View()), View(), held)
      ensures r.Done? ==> Transferred(p, expected, r.value) && local[p] == old(local[p])
    {
      hide Sound, OwnFilesKept, Steps, Keeps, Cleared, Hashed, Verified, NasKeptOutside;
      ghost var start := View();
      var before := IdentityOf(local[p]);
      FileCleared(start, p, expected.Keys);
      var hashes := CopyAndVerify(Folder(p.dir), expected, p.dir, held);
      if hashes.Failed? {
        return Failed;
      }
      RanKeeps(start, View(), held);
      if p !in local || IdentityOf(local[p]) != before {
        return Failed;
      }
      TransferredFile(start, View(), held, p, expected, hashes.value);
      SameStampSameFile(start, View(), held, p);
      return hashes;
    }

    method Migrate(day: int, held: set<Dir>) returns (r: Outcome<nat>)
      requires Sound(View())
      modifies this`local, this`disk, this`clock, this`now, this`payload, this`written, this`nas, this`uploads
      ensures Sound(View())
      ensures OthersKept(old(View()), View(), {Path(FrameDay(day), Frames)})
      ensures r.Done? ==>
        var archive := Path(FrameDay(day), Frames);
        && archive in old(local) && archive !in local && archive !in disk
        && archive in payload && r.value == Length(payload[archive])
        && NoRawSegments(View(), day) && ManifestVouches(View(), day, r.value)
    {
      hide Sound, OwnFilesKept, Steps, Keeps, OthersKept, Transferred;
      var archive := Path(FrameDay(day), Frames);
      ghost var start, gone := View(), {archive};
      KeepsReflexive(start, held);
      KeepsKeepsOthers(start, start, gone, held, {});
      if exists p: Path :: p in local && p.dir == RawFrames(day) && p.name.RawSegment? {
        return Failed;
      }
      var locked := held + {RawFrames(day)};
      var expected := Inspect(day);
      if expected.Failed? {
        return Failed;
      }
      var hashes := CopyFile(archive, expected.value, locked);
      ghost var copied := View();
      if hashes.Failed? {
        KeepsKeepsOthers(start, copied, gone, locked, {});
        return Failed;
      }
      RanKeeps(start, copied, locked);
      KeepsKeepsOthers(start, copied, gone, locked, {});
      if Inspect(day) != expected {
        return Failed;
      }
      StepsKeepNoRawSegments(start, copied, locked, day);
      assert ManifestVouches(copied, day, Length(local[archive].content));
      // From here on nobody writes the folder: the archive is not looked at again.
      r := RecordAndRetire(archive, expected.value, hashes.value, locked + {archive.dir});
      OthersKeptTransitive(start, copied, View(), gone);
    }

    // The receipt, on disk, and then the removal.
    method RecordAndRetire(archive: Path, sizes: map<Name, nat>, hashes: map<Name, Digest>, held: set<Dir>) returns (r: Outcome<nat>)
      requires Sound(View()) && IsPayload(archive) && !archive.dir.FeatureDay? && archive.dir in held
      requires Transferred(archive, sizes, hashes)
      modifies this`local, this`disk, this`clock, this`now, this`payload, this`written
      ensures Sound(View()) && OthersKept(old(View()), View(), {archive})
      ensures r.Done? ==>
        && archive !in local && archive !in disk && archive in payload && r.value == Length(payload[archive])
        && (forall q: Path :: q in local && q.dir in held && !ToolOwned(q) ==> q in old(local))
        && (forall q: Path :: q in old(local) && q.dir in held && !ToolOwned(q) && q != archive ==> q in local && local[q] == old(local[q]))
        && r.value == Length(old(local[archive].content))
    {
      hide Sound, OwnFilesKept, Steps, Keeps, MayReplace, Settled, Published, Vouched, OthersKept, ReceiptPath;
      ghost var start := View();
      var doc := Receipt(None, archive.dir, sizes, map[], hashes);
      FileMayReplaceReceipt(start, archive, doc);
      var saved := SaveReceipt(ReceiptPath(archive), doc, held);
      ghost var receipted := View();
      if saved.Failed? {
        KeepsKeepsOthers(start, receipted, {archive}, held, {ReceiptPath(archive), PendingPath(ReceiptPath(archive))});
        return Failed;
      }
      KeepsKeepsOthers(start, receipted, {archive}, held, {ReceiptPath(archive), PendingPath(ReceiptPath(archive))});
      ReceiptVouches(start, receipted, held, archive, doc);
      NothingNewInHeld(start, receipted, held);
      HeldFilesStay(start, receipted, held);
      var bytes := Length(local[archive].content);
      var retired := Retire(archive, held);
      OthersKeptTransitive(start, receipted, View(), {archive});
      if retired.Failed? {
        return Failed;
      }
      return Done(bytes);
    }

    /** Unlinks a payload the NAS holds and makes the removal durable. */
    method Retire(p: Path, held: set<Dir>) returns (r: Outcome<()>)
      requires Sound(View()) && IsPayload(p) && p in local && p in payload && Vouched(View(), p, payload[p])
      modifies this`local, this`disk, this`clock, this`now, this`payload, this`written
      ensures Sound(View()) && OthersKept(old(View()), View(), {p}) && old(now) <= now
      ensures r.Done? ==> p !in local && p !in disk
      ensures p in payload && payload[p] == old(payload[p])
      ensures r.Done? ==> forall q: Path :: q in local && q.dir in held && !ToolOwned(q) ==> q in old(local)
      ensures r.Done? ==>
        forall q: Path :: q in old(local) && q.dir in held && !ToolOwned(q) && q != p ==> q in local && local[q] == old(local[q])
    {
      hide Sound, OwnFilesKept, Steps, Keeps, Vouched;
      ghost var start := View();
      VouchedIsRetired(start, p);
      UnlinkKeepsSound(start, p);
      Unlink(p);
      ghost var unlinked := View();
      assert OthersKept(start, unlinked, {p});
      var stop := Between(held);
      if stop {
        StopKeeps(unlinked, View(), held);
        KeepsClock(unlinked, View(), held, {});
        OthersKeptThenKeeps(start, unlinked, View(), {p}, held, {});
        return Failed;
      }
      RanKeeps(unlinked, View(), held);
      KeepsClock(unlinked, View(), held, {});
      OthersKeptThenKeeps(start, unlinked, View(), {p}, held, {});
      RanKeepsGone(unlinked, View(), held, p);
      NothingNewInHeld(unlinked, View(), held);
      HeldFilesStay(unlinked, View(), held);
      FsyncDirKeepsSound(View(), p.dir);
      FsyncDirSaves(View(), p.dir, held, {});
      ghost var pausedAt := View();
      FsyncDir(p.dir);
      OthersKeptThenKeeps(start, pausedAt, View(), {p}, held, {});
      return Done(());
    }

    /******* migrate_cold_file: one finalized operational archive or database backup *******/

    // What to transfer, once the local evidence for the file has been checked.
    function ColdExpected(p: Path): Outcome<map<Name, nat>>
      requires p in local
      reads this
    {
      var size := Length(local[p].content);
      match p.name
      case Operational(id) =>
        var content := local[p].content;
        if content.Gzip? && Sha256(content.of) == id then Done(map[p.name := size]) else Failed
      case Database(stem) =>
        var proof := Path(p.dir, Proof(stem));
        if proof !in local || !local[proof].content.Json? then Failed
        else
          var doc := local[proof].content.doc;
          if doc.ProofDoc? && doc.verified && doc.archiveBytes == size && doc.archive == p
          then Done(map[p.name := size, Proof(stem) := Length(local[proof].content)])
          else Failed
      case _ => Failed
    }

    // A receipt this tool wrote for exactly this version of the file.
    function ReusableReceipt(p: Path, before: Identity): bool
      reads this
    {
      var receipt := ReceiptPath(p);
      && receipt in local && local[receipt].content.Json? && local[receipt].content.doc.Receipt?
      && local[receipt].content.doc.source == Some(before) && local[receipt].content.doc.destination == p.dir
    }

    // Transfer and receipt; the receipt is on disk, and vouches for the file while it is unchanged.
    method TransferCold(p: Path, expected: map<Name, nat>, held: set<Dir>) returns (r: Outcome<()>)
      requires Sound(View()) && IsCold(p) && p in local
      requires p.name in expected && PlainNames(expected.Keys)
      requires forall n :: n in expected && IsPayload(Path(p.dir, n)) ==> n == p.name
      modifies this`local, this`disk, this`clock, this`now, this`payload, this`written, this`nas, this`uploads
      ensures Sound(View()) && uploads == old(uploads) + 1
      ensures Keeps(old(View()), View(), held, {ReceiptPath(p), PendingPath(ReceiptPath(p))})
      ensures r.Done? && p in local && local[p].stamp == old(local[p].stamp) ==>
        && local[p] == old(local[p]) && Recorded(View(), p)
        && p in payload && Vouched(View(), p, payload[p])
      ensures r.Done? && p.dir in held ==> p in local && local[p] == old(local[p])
      ensures r.Done? ==> Settled(View(), ReceiptPath(p))
    {
      hide Sound, OwnFilesKept, Steps, Keeps, MayReplace, Vouched, ReceiptPath;
      ghost var start, touched := View(), {ReceiptPath(p), PendingPath(ReceiptPath(p))};
      var identity := IdentityOf(local[p]);
      var hashes := CopyFile(p, expected, held);
      ghost var copied := View();
      if hashes.Failed? {
        KeepsWiden(start, copied, held, touched);
        return Failed;
      }
      RanKeeps(start, copied, held);
      KeepsWiden(start, copied, held, touched);
      var doc := Receipt(Some(identity), p.dir, expected, map[], hashes.value);
      FileMayReplaceReceipt(copied, p, doc);
      var saved := SaveReceipt(ReceiptPath(p), doc, held);
      KeepsTransitive(start, copied, View(), held, touched);
      if saved.Failed? {
        return Failed;
      }
      if p in local && (local[p].stamp == identity.stamp || p.dir in held) {
        SameStampSameFile(copied, View(), held, p);
        ReceiptVouches(copied, View(), held, p, doc);
        ColdFileSettled(View(), p);
      }
      if p.dir in held {
        HeldFileStays(copied, View(), held, p);
      }
      return Done(());
    }

    method MigrateColdFile(p: Path, held: set<Dir>) returns (r: Outcome<nat>)
      requires Sound(View())
      modifies this`local, this`disk, this`clock, this`now, this`payload, this`written, this`nas, this`uploads
      ensures Sound(View()) && OthersKept(old(View()), View(), {p})
      ensures old(uploads) <= uploads <= old(uploads) + 1 && old(now) <= now
      // unlinked only after a verification in this very call, past the grace period, and unchanged to the last
      ensures p in old(local) && p !in local ==>
        && uploads == old(uploads) + 1 && !InGrace(View(), old(local[p].mtime))
        && p in payload && payload[p] == old(local[p].content)
      ensures p in old(local) && p.dir in held && InGrace(View(), old(local[p].mtime)) ==>
        p in local && local[p] == old(local[p])
      // a recorded file in its grace period is left alone
      ensures old(Recorded(View(), p)) && InGrace(View(), old(local[p].mtime)) ==>
        uploads == old(uploads) && View() == old(View())
      // a call that succeeds leaves an unchanged file recorded, and on disk if it transferred it
      ensures r.Done? && p in old(local) && p in local && (local[p].stamp == old(local[p].stamp) || p.dir in held) ==>
        Recorded(View(), p) && (uploads > old(uploads) ==> Settled(View(), ReceiptPath(p)))
      // what a success means: on good evidence, kept in its grace period, and removed for good behind it
      ensures r.Done? || (p in old(local) && p !in local) ==> IsCold(p) && old(Evidenced(View(), p))
      ensures r.Done? && InGrace(old(View()), old(local[p].mtime)) ==> p in local && r.value == 0
      ensures r.Done? && !InGrace(old(View()), old(local[p].mtime)) ==>
        p !in local && p !in disk && r.value == Length(old(local[p].content))
    {
      hide Sound, OwnFilesKept, Steps, Keeps, MayReplace, Published, Vouched, OthersKept;
      ghost var start, gone := View(), {p};
      KeepsReflexive(start, held);
      KeepsKeepsOthers(start, start, gone, held, {});
      if !IsCold(p) || p !in local {
        return Failed;
      }
      ColdFileSettled(start, p);
      var before := IdentityOf(local[p]);
      var expected := ColdExpected(p);
      if expected.Failed? {
        return Failed;
      }
      assert Evidenced(start, p);
      var recent := InGrace(View(), before.mtime);
      if !recent || !ReusableReceipt(p, before) {
        var recorded := TransferCold(p, expected.value, held);
        KeepsKeepsOthers(start, View(), gone, held, {ReceiptPath(p), PendingPath(ReceiptPath(p))});
        ColdFileStays(start, View(), held, {ReceiptPath(p), PendingPath(ReceiptPath(p))}, p);
        if recorded.Failed? {
          return Failed;
        }
      }
      if recent {
        ColdFileSettled(View(), p);
        assert p.dir in held ==> local[p].stamp == old(local[p].stamp);
        return Done(0);
      }
      if p !in local || IdentityOf(local[p]) != before {
        return Failed;
      }
      ghost var ready := View();
      ColdFileSettled(ready, p);
      var retired := Retire(p, held + {p.dir});
      OthersKeptTransitive(start, ready, View(), gone);
      if retired.Failed? {
        return Failed;
      }
      return Done(before.size);
    }

    /******* migrate_features: one partition of one diagnostic dataset *******/

    // gzip each file into the staging directory, each at its own moment.
    method StageFeatures(folder: Dir, files: set<Name>, held: set<Dir>)
      returns (r: Outcome<map<Name, Content>>, ghost read: map<Name, Digest>)
      requires Sound(View()) && forall n :: n in files ==> n.Jsonl?
      modifies this`local, this`disk, this`clock, this`now, this`payload, this`written
      ensures Sound(View())
      ensures r.Failed? ==> Keeps(old(View()), View(), held, {})
      ensures r.Done? ==> Ran(old(View()), View(), held)
      ensures r.Done? ==> Packs(r.value, read) && read.Keys == files
      ensures r.Done? ==> Hashed(Folder(folder), read, old(View()), View())
    {
      hide Sound, Ran, Keeps, Hashed, Packs;
      var rest := files;
      var staged: map<Name, Content> := map[];
      read := map[];
      RanReflexive(View(), held);
      NothingHashed(Folder(folder), View());
      NothingPacked();
      while rest != {}
        invariant rest <= files && read.Keys == files - rest
        invariant Sound(View()) && Ran(old(View()), View(), held)
        invariant Packs(staged, read) && Hashed(Folder(folder), read, old(View()), View())
        decreases |rest|
      {
        var n :| n in rest;
        ghost var middle := View();
        if Path(folder, n) !in local {
          RanKeeps(old(View()), View(), held);
          r := Failed;
          return;
        }
        var length: nat :| true;
        var packed := Gzip(local[Path(folder, n)].content, length);
        PackOneMore(staged, read, n, packed);
        OneMoreHashed(Folder(folder), read, old(View()), View(), n);
        staged := staged[NasName(n) := packed];
        read := read[n := Sha256(packed.of)];
        rest := rest - {n};
        var stop := Pause(old(View()), held);
        if stop {
          r := Failed;
          return;
        }
        RanKeepsHashed(Folder(folder), read, old(View()), middle, View(), held);
      }
      r := Done(staged);
    }

    // Compress and transfer; nothing is compared yet.
    method SendPartition(folder: Dir, files: set<Name>, held: set<Dir>)
      returns (r: Outcome<(map<Name, nat>, map<Name, Digest>)>,
               ghost staged: map<Name, Content>, ghost read: map<Name, Digest>)
      requires Sound(View()) && folder.FeatureDay? && AllDurable(View(), folder)
      requires files == FeatureFiles(View(), folder)
      modifies this`local, this`disk, this`clock, this`now, this`payload, this`written, this`nas, this`uploads
      ensures Sound(View())
      ensures r.Failed? ==> Keeps(old(View()), View(), held, {})
      ensures r.Done? ==> Ran(old(View()), View(), held) && AllDurable(View(), folder)
      ensures r.Done? ==> read.Keys == files && Sent(old(View()), View(), folder, r.value.0, r.value.1, staged, read)
    {
      hide Sound, Steps, OwnFilesKept, Keeps, Hashed, Packs, Cleared, Verified, NasKeptOutside, AllDurable;
      ghost var start := View();
      var stage;
      stage, read := StageFeatures(folder, files, held);
      ghost var packedAt := View();
      staged := map[];
      if stage.Failed? {
        r := Failed;
        return;
      }
      staged := stage.value;
      RanKeepsDurable(start, packedAt, held, folder);
      StagedIsPlain(staged, read);
      FilesStay(start, packedAt, held, folder, files);
      FeaturesCleared(packedAt, folder, files);
      var packed := map g | g in stage.value :: Length(stage.value[g]);
      assert packed.Keys == stage.value.Keys;
      var hashes := CopyAndVerify(Staged(stage.value), packed, folder, held);
      ghost var copied := View();
      if hashes.Failed? {
        RanThenKeeps(start, packedAt, copied, held);
        r := Failed;
        return;
      }
      RanTransitive(start, packedAt, copied, held);
      RanKeepsDurable(packedAt, copied, held, folder);
      RanKeepsHashed(Folder(folder), read, start, packedAt, copied, held);
      StagedHashes(staged, hashes.value, packedAt, start, copied);
      r := Done((packed, hashes.value));
    }

    // Everything up to the receipt: compress, transfer, and compare the identities.
    method CopyPartition(dataset: Dataset, day: int, held: set<Dir>)
      returns (r: Outcome<(Document, map<Name, Identity>)>)
      requires Sound(View())
      modifies this`local, this`disk, this`clock, this`now, this`payload, this`written, this`nas, this`uploads
      ensures Sound(View())
      ensures r.Failed? ==> Keeps(old(View()), View(), held, {})
      ensures r.Done? ==> Ran(old(View()), View(), held)
      ensures r.Done? ==>
        var (folder, (doc, before)) := (FeatureDay(dataset, day), r.value);
        && doc.Receipt? && doc.destination == folder && AllDurable(View(), folder)
        && doc.sizes.Keys == before.Keys == FeatureFiles(View(), folder)
        && forall n :: n in before ==>
             FeatureCopied(View(), Path(folder, n), doc) && before[n] == IdentityOf(local[Path(folder, n)])
      ensures r.Done? ==> old(Candidate(View(), dataset, day))
    {
      hide Sound, Steps, OwnFilesKept, Keeps, Hashed, Packs, Verified, AllDurable, FeatureCopied;
      var folder := FeatureDay(dataset, day);
      ghost var start := View();
      KeepsReflexive(start, held);
      RanReflexive(start, held);
      if !Candidate(View(), dataset, day) {
        return Failed;
      }
      QuietIsDurable(start, folder);
      var stop := Pause(start, held);
      if stop {
        return Failed;
      }
      ghost var listed := View();
      RanKeepsDurable(start, listed, held, folder);
      var files := FeatureFiles(View(), folder);
      var before := map n | n in files :: IdentityOf(local[Path(folder, n)]);
      var sent, staged, read := SendPartition(folder, files, held);
      ghost var copied := View();
      if sent.Failed? {
        RanThenKeeps(start, listed, copied, held);
        return Failed;
      }
      RanTransitive(start, listed, copied, held);
      RanKeeps(start, copied, held);
      if before != map n | n in FeatureFiles(View(), folder) :: IdentityOf(local[Path(folder, n)]) {
        return Failed;
      }
      assert before.Keys == files == FeatureFiles(copied, folder);
      var (packed, hashes) := sent.value;
      var doc := Receipt(None, folder, map n | n in files :: before[n].size, packed, hashes);
      forall n | n in doc.sizes
        ensures FeatureCopied(copied, Path(folder, n), doc)
      {
        assert before[n] == IdentityOf(copied.local[Path(folder, n)]) == IdentityOf(listed.local[Path(folder, n)]);
        TransferredFeature(listed, copied, held, Path(folder, n), staged, read, hashes, doc);
      }
      assert doc.sizes.Keys == files;
      return Done((doc, before));
    }

    // The removal loop: a file whose identity still matches is unlinked.
    method RemoveFeatures(folder: Dir, before: map<Name, Identity>, held: set<Dir>, ghost contents: map<Name, Content>)
      returns (r: Outcome<()>)
      requires Sound(View()) && folder.FeatureDay? && contents.Keys == before.Keys
      requires AllVouched(View(), folder, contents) && AllMean(View(), folder, before, contents, before.Keys)
      modifies this`local, this`disk, this`clock, this`now, this`payload, this`written
      ensures Sound(View())
      ensures r.Failed? ==> ReceiptsStay(old(View()), View()) && OthersKept(old(View()), View(), PathsIn(folder, before.Keys))
      ensures r.Done? ==> RemovedOnly(old(View()), View(), held, folder, before.Keys) && AllGone(View(), folder, before.Keys)
    {
      hide Removing, Ran, Sound, AllMean, AllVouched, AllGone, ReceiptsStay, OthersKept, SamePayloadIn, NothingNewIn;
      ghost var start := View();
      RemovingStarts(start, held, folder, before, contents);
      var rest := before.Keys;
      while rest != {}
        invariant rest <= before.Keys && Sound(View())
        invariant Removing(start, View(), held, folder, before, contents, rest)
        decreases |rest|
      {
        var n :| n in rest;
        var p := Path(folder, n);
        if p !in local || IdentityOf(local[p]) != before[n] {
          RemovingEnds(start, View(), held, folder, before, contents, rest);
          return Failed;
        }
        RemovingUnlink(start, View(), held, folder, before, contents, rest, n);
        Unlink(p);
        rest := rest - {n};
        ghost var unlinked := View();
        RemovingSound(start, unlinked, held, folder, before, contents, rest);
        var stop := Between(held);
        if stop {
          RemovingStopped(start, unlinked, View(), held, folder, before, contents, rest);
          return Failed;
        }
        RemovingRan(start, unlinked, View(), held, folder, before, contents, rest);
      }
      RemovingEnds(start, View(), held, folder, before, contents, rest);
      return Done(());
    }

    method MigrateFeatures(dataset: Dataset, day: int, held: set<Dir>) returns (r: Outcome<set<Name>>)
      requires Sound(View())
      modifies this`local, this`disk, this`clock, this`now, this`payload, this`written, this`nas, this`uploads
      ensures Sound(View())
      ensures OthersKeptOutside(old(View()), View(), FeatureDay(dataset, day))
      // whatever this call removed is listed in a receipt that is on disk
      ensures RemovalsListed(old(View()), View(), dataset, day)
      // only a partition older than thirty days, none of whose files changed for two days
      ensures r.Done? ==>
        && day < old(now) / (24 * 3600) - 30
        && forall p :: p in old(local) && p.dir == FeatureDay(dataset, day) && p.name.Jsonl? ==> old(local[p].mtime) < old(now) - 48 * 3600
      ensures r.Done? ==> PartitionArchived(old(View()), View(), dataset, day, r.value)
      // with the partition left alone by its producers: exactly what was in sight is archived
      ensures r.Done? && FeatureDay(dataset, day) in held ==>
        && r.value == old(FeatureFiles(View(), FeatureDay(dataset, day)))
        && SamePayloadIn(old(View()), View(), FeatureDay(dataset, day))
        && NoneLeft(View(), FeatureDay(dataset, day))
      // the receipt is complete exactly when no file of the partition was missing before the call
      ensures r.Done? && FeatureDay(dataset, day) in held ==>
        (ReceiptComplete(View(), dataset, day) <==> old(PartitionPresent(View(), FeatureDay(dataset, day))))
    {
      hide Sound, Steps, OwnFilesKept, Keeps, MayReplace, AllDurable, FeatureCopied, AllVouched, AllMean,
           AllGone, RemovedOnly, RemovalsListed, PartitionArchived, ReceiptComplete, PartitionPresent,
           OthersKeptOutside, SamePayloadIn, NoneLeft, ReceiptsStay, OthersKept, Candidate;
      var folder, receipt := FeatureDay(dataset, day), Path(FeatureReceipts(dataset), DayReceipt(day));
      ghost var start := View();
      CandidateMeans(start, dataset, day);
      var sent := CopyPartition(dataset, day, held);
      ghost var copied := View();
      if sent.Failed? {
        KeepsRemovesNothing(start, copied, held, {}, dataset, day);
        return Failed;
      }
      var (doc, before) := sent.value;
      FeaturesMayReplaceReceipt(copied, dataset, day, doc);
      var saved := SaveReceipt(receipt, doc, held);
      ghost var receipted := View();
      if saved.Failed? {
        RanKeeps(start, copied, held);
        KeepsRemovesNothing(start, copied, held, {}, dataset, day);
        KeepsRemovesNothing(copied, receipted, held, {receipt, PendingPath(receipt)}, dataset, day);
        RemovesNothingTransitive(start, copied, receipted, dataset, day);
        return Failed;
      }
      ghost var contents := map n | n in before :: copied.local[Path(folder, n)].content;
      assert contents.Keys == before.Keys;
      PartitionVouched(copied, receipted, held, folder, doc, before, contents);
      var removed := RemoveFeatures(folder, before, held, contents);
      ghost var cleared := View();
      if removed.Failed? {
        RemovalLists(start, copied, receipted, cleared, held, dataset, day, doc);
        return Failed;
      }
      FsyncDirKeepsSound(cleared, folder);
      FsyncDirSaves(cleared, folder, held, {});
      FsyncDir(folder);
      PartitionDone(start, copied, receipted, cleared, held, dataset, day, doc);
      return Done(before.Keys);
    }

    /******* restore_features: one partition back to its original paths *******/

    // One file: download, check against the receipt, decompress, check again, publish atomically.
    method RestoreFile(folder: Dir, n: Name, doc: Document, held: set<Dir>) returns (ok: bool)
      requires Sound(View()) && doc.Receipt? && n in doc.sizes
      requires folder.FeatureDay? && Path(folder, n) in payload && IsPayload(Path(folder, n))
      requires PartitionReceipt(folder.dataset, folder.day) in local
      requires local[PartitionReceipt(folder.dataset, folder.day)].content.Json?
      requires local[PartitionReceipt(folder.dataset, folder.day)].content.doc == doc
      modifies this`local, this`disk, this`clock, this`now, this`payload, this`written, this`restored
      ensures Sound(View())
      ensures !ok ==> Keeps(old(View()), View(), held, {})
      ensures !ok && folder in held ==> Bounded(old(View()), View(), folder, {})
      ensures ok ==> Restoring(old(View()), View(), held, folder, {n}) && Path(folder, n) in local
    {
      hide Sound, OwnFilesKept, Keeps, Restoring, Bounded;
      var p := Path(folder, n);
      ghost var start := View();
      var stop := Between(held);
      if stop {
        StopKeeps(start, View(), held);
        StoppedBounded(start, View(), folder);
        return false;
      }
      ghost var arrived := View();
      OwnFileStays(start, arrived, held, PartitionReceipt(folder.dataset, folder.day));
      RestoringRan(start, arrived, held, folder);
      RestoringIsBounded(start, arrived, held, folder, {}, n);
      if p in local {
        return Length(local[p].content) == doc.sizes[n];
      }
      var packed: Content := *;   // what the download left in the staging directory
      var g := NasName(n);
      if g !in doc.packed || Length(packed) != doc.packed[g] {
        return false;
      }
      if g in doc.sha256 && Sha256(packed) != doc.sha256[g] {
        return false;
      }
      if !packed.Gzip? || Length(packed.of) != doc.sizes[n] {
        return false;
      }
      RestoredBytes(arrived, p, doc, packed);
      LinkKeepsSound(arrived, p, packed.of);
      RestoringLink(arrived, held, folder, n, packed.of);
      Link(p, packed.of);
      RestoringTransitive(start, arrived, View(), held, folder, {}, {n});
      assert {} + {n} == {n};
      return true;
    }

    method RestorePartition(dataset: Dataset, day: int, held: set<Dir>) returns (r: Outcome<()>)
      requires Sound(View())
      modifies this`local, this`disk, this`clock, this`now, this`payload, this`written, this`restored
      ensures Sound(View()) && Keeps(old(View()), View(), held, {})
      ensures FeatureDay(dataset, day) in held ==>
        Bounded(old(View()), View(), FeatureDay(dataset, day), old(ListedNames(View(), dataset, day)))
      ensures r.Done? ==> ExistingKept(old(View()), View(), held)
      ensures r.Done? ==> forall n :: n in old(ListedNames(View(), dataset, day)) ==>
        Path(FeatureDay(dataset, day), n) in payload && OnLocal(View(), Path(FeatureDay(dataset, day), n))
    {
      hide Sound, Keeps, Bounded, ExistingKept, Restoring, OnLocal, InPlace;
      var folder, receipt := FeatureDay(dataset, day), PartitionReceipt(dataset, day);
      ghost var start := View();
      RestoringReflexive(start, held, folder);
      if receipt !in local || !local[receipt].content.Json? || !local[receipt].content.doc.Receipt? {
        if folder in held {
          BoundedMonotone(start, start, folder, {}, ListedNames(start, dataset, day));
        }
        return Failed;
      }
      var doc := local[receipt].content.doc;
      ReceiptNamesPayload(start, dataset, day, doc);
      var rest := doc.sizes.Keys;
      assert doc.sizes.Keys - rest == {};
      NothingInPlace(start, folder);
      while rest != {}
        invariant rest <= doc.sizes.Keys && Sound(View())
        invariant Restoring(start, View(), held, folder, doc.sizes.Keys - rest)
        invariant InPlace(View(), folder, doc.sizes.Keys - rest)
        decreases |rest|
      {
        var n :| n in rest;
        ghost var before, done := View(), doc.sizes.Keys - rest;
        RestoringKeepsReceipt(start, before, held, folder, done, receipt);
        RestoringKeepsPayload(start, before, held, folder, done, Path(folder, n));
        var ok := RestoreFile(folder, n, doc, held);
        if !ok {
          RestoringStopped(start, before, View(), held, folder, done, doc.sizes.Keys);
          return Failed;
        }
        OneMoreRestored(start, before, View(), held, folder, done, n);
        rest := rest - {n};
        assert done + {n} == doc.sizes.Keys - rest;
      }
      assert doc.sizes.Keys - rest == doc.sizes.Keys;
      RestoringEnds(start, View(), held, folder, doc.sizes.Keys);
      AllRestored(View(), folder, doc.sizes.Keys);
      return Done(());
    }

    /** Archiving a quiet partition and restoring it, however often the restore breaks off or the
        power fails in between, gives back exactly the files that were there. */
    method ArchiveThenRestore(dataset: Dataset, day: int, attempts: nat, held: set<Dir>) returns (r: Outcome<()>)
      requires Sound(View()) && FeatureDay(dataset, day) in held
      modifies this
      ensures Sound(View())
      ensures r.Done? ==>
        PartitionContents(View(), FeatureDay(dataset, day)) == old(PartitionContents(View(), FeatureDay(dataset, day)))
    {
      hide Sound, Keeps, Bounded, ExistingKept, RemovalsListed, ReceiptComplete, PartitionPresent, OthersKeptOutside, Settled,
           FeatureFiles, PartitionContents, ListedNames;
      ghost var start := View();
      var archived := MigrateFeatures(dataset, day, held);
      if archived.Failed? {
        return Failed;
      }
      ghost var done, folder := View(), FeatureDay(dataset, day);
      BoundedReflexive(done, folder, archived.value);
      r := Failed;
      for i := 0 to attempts
        invariant Sound(View()) && Settled(View(), PartitionReceipt(dataset, day))
        invariant ListedNames(View(), dataset, day) == archived.value
        invariant Bounded(done, View(), folder, archived.value)
      {
        ghost var before := View();
        r := RestorePartition(dataset, day, held);
        SettledReceiptStays(before, View(), held, dataset, day);
        BoundedTransitive(done, before, View(), folder, archived.value, archived.value);
        assert archived.value + archived.value == archived.value;
        if r.Done? {
          RoundTripContents(start, done, View(), folder, archived.value);
          return;
        }
        before := View();
        PowerLoss();
        StopKeeps(before, View(), held);
        SettledReceiptStays(before, View(), held, dataset, day);
        StoppedBounded(before, View(), folder);
        BoundedTransitive(done, before, View(), folder, archived.value, {});
        assert archived.value + {} == archived.value;
      }
      r := Failed;
    }

    /** Over any number of runs, with producers, time and power losses between and within them: in its grace
        period a cold file that is still the one it was has been uploaded at most once, plus once for each run
        that failed to record its upload. */
    method GraceRuns(p: Path, runs: nat, held: set<Dir>) returns (failures: nat)
      requires Sound(View()) && IsCold(p) && p in local
      modifies this`local, this`disk, this`clock, this`now, this`payload, this`written, this`nas, this`uploads
      ensures Sound(View()) && failures <= runs
      ensures InGrace(View(), old(local[p].mtime)) && p.dir in held ==> p in local && local[p] == old(local[p])
      ensures InGrace(View(), old(local[p].mtime)) && p in local && local[p].stamp == old(local[p].stamp) ==>
        local[p] == old(local[p]) && uploads <= old(uploads) + 1 + failures
    {
      hide Sound, OthersKept, Keeps, HistoryKept, Recorded, Settled;
      ghost var file := local[p];
      ColdFileIsOld(View(), p);
      failures := 0;
      for i := 0 to runs
        invariant Sound(View()) && failures <= i && file.stamp < clock
        invariant InGrace(View(), file.mtime) && p.dir in held ==> p in local && local[p] == file
        invariant InGrace(View(), file.mtime) ==> OnlyInSight(file, View(), p)
        invariant InGrace(View(), file.mtime) && p in local && local[p] == file ==>
          uploads <= old(uploads) + failures + (if RecordedOnDisk(View(), p) then 1 else 0)
      {
        ghost var before := View();
        var stop := Between(held);
        if stop {
          StopKeeps(before, View(), held);
        } else {
          RanKeeps(before, View(), held);
        }
        ghost var between := View();
        ColdFileBetween(before, between, held, p, file);
        var r := MigrateColdFile(p, held);
        ColdFileAfter(between, View(), p, file);
        if r.Failed? {
          failures := failures + 1;
        }
      }
    }

    /******* Whole runs *******/

    // One run of the archiver, or what happens between two runs.
    method Run(command: Command)
      requires Sound(View())
      modifies this
      ensures Sound(View()) && HistoryKept(old(View()), View())
      ensures !command.Restore? ==> restored == old(restored)
    {
      hide Sound, Keeps, OthersKept, OthersKeptOutside, HistoryKept;
      ghost var before := View();
      match command
      case ArchiveDay(day) =>
        var _ := Migrate(day, {});
        HistoryOfOthers(before, View(), {Path(FrameDay(day), Frames)});
      case ArchivePartition(dataset, day) =>
        var _ := MigrateFeatures(dataset, day, {});
        HistoryOfOthersOutside(before, View(), FeatureDay(dataset, day));
      case ArchiveColdFile(p) =>
        var _ := MigrateColdFile(p, {});
        HistoryOfOthers(before, View(), {p});
      case Restore(dataset, day) =>
        var _ := RestorePartition(dataset, day, {});
        HistoryOfKeeps(before, View(), {}, {});
      case World =>
        var stop := Between({});
        if stop {
          StopKeeps(before, View(), {});
        } else {
          RanKeeps(before, View(), {});
        }
        HistoryOfKeeps(before, View(), {}, {});
      case Crash =>
        PowerLoss();
        StopKeeps(before, View(), {});
        HistoryOfKeeps(before, View(), {}, {});
    }

    /** Any sequence of archive runs, restores, crashes and producer activity loses no payload. */
    method AnyRun(commands: seq<Command>)
      requires Sound(View())
      modifies this
      ensures Sound(View()) && Conserved(View())
      ensures forall p :: p in old(payload) ==> p in payload && (payload[p] == old(payload[p]) || Since(written, p, old(clock)))
      ensures forall p :: p in old(payload) && p !in old(local) && p !in old(disk) ==>
        (payload[p] == old(payload[p]) && OnNas(View(), p)) || Since(restored, p, old(clock))
      ensures (forall i :: 0 <= i < |commands| ==> !commands[i].Restore?) ==> restored == old(restored)
    {
      hide Sound, HistoryKept, Keeps, OthersKept, OthersKeptOutside;
      ghost var start := View();
      NothingHappened(start);
      for i := 0 to |commands|
        invariant Sound(View()) && HistoryKept(start, View())
        invariant (forall j :: 0 <= j < i ==> !commands[j].Restore?) ==> restored == start.restored
      {
        ghost var before := View();
        Run(commands[i]);
        HistoryTransitive(start, before, View());
      }
      SoundIsConserved(View());
      HistoryOfAll(start, View());
    }
  }
}
