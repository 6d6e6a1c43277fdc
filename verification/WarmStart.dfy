/**
 Replacing the live state of the bar sampler by one with a warmed moving-average history: validation, then a
 locked compare-and-swap with a durable backup, a read-back and a restore that can itself fail.

 Every file operation can raise.  What imported code computes (the seeded state, whether its diagnostics are
 ready, which of its bars are live) is a parameter.
 */
module WarmStart {
  import opened Options
  import opened OverlapAudit

  datatype Json = Null | Flag(b: bool) | Number(n: int) | Text(s: string) | Items(items: seq<Json>) | Fields(fields: map<string, Json>)

  type State = map<string, Json>

  // The bytes of a file: some rendering of a state, or something that is not one.
  datatype Bytes = Rendered(state: State, layout: nat) | Garbage(id: nat)

  function Get(state: State, key: string): Json {
    if key in state then state[key] else Null
  }

  function Decode(bytes: Bytes): Option<State> {
    if bytes.Rendered? then Some(bytes.state) else None
  }

  datatype Request = Request(schemaVersion: Json, intervalSeconds: Json, audit: Audit,
                             live: State -> Option<seq<LiveBar>>, seed: State -> State, ready: State -> bool, apply: bool)

  /******* Validation *******/

  predicate SchemaMatches(state: State, request: Request) {
    Get(state, "schema_version") == request.schemaVersion && Get(state, "interval_seconds") == request.intervalSeconds
  }

  predicate Blank(identity: Json) { identity == Null || identity == Text("") }

  // Whether the state's evidence allows the contract; the result says that the identity is to be filled in.
  function Promotes(state: State, identity: string): Option<bool> {
    var active := Get(state, "contract_identity");
    if !Blank(active) && active != Text(identity) then None
    else if CurrentBarRefuses(Get(state, "current_bar"), identity) then None
    else
      match Get(state, "closed_bars")
      case Items(items) => if items == [] then None else Some(Blank(active))
      case _ => None
  }

  predicate CurrentBarRefuses(bar: Json, identity: string) {
    bar.Fields? &&
    (Get(bar.fields, "contract_identity_ambiguous") == Flag(true) ||
     (!Blank(Get(bar.fields, "contract_identity")) && Get(bar.fields, "contract_identity") != Text(identity)))
  }

  predicate FullHistory(state: State, maxBars: nat) {
    match Get(state, "rth_ma_history")
    case Items(items) => |items| == maxBars
    case Text(s) => |s| == maxBars
    case Fields(fields) => |fields| == maxBars
    case Null => maxBars == 0
    case Flag(b) => !b && maxBars == 0
    case Number(n) => n == 0 && maxBars == 0
  }

  predicate Approved(key: string, promote: bool) {
    key == "rth_ma_history" || key == "diagnostics" || (promote && key == "contract_identity")
  }

  // Nothing the original state holds is changed but the approved keys.
  predicate KeepsTheRest(original: State, candidate: State, promote: bool) {
    forall key | key in original :: Approved(key, promote) || Get(candidate, key) == Get(original, key)
  }

  // The last historical bar ends at the cutoff.
  predicate SeedReachesCutoff(audit: Audit) {
    audit.rows != [] && audit.rows[|audit.rows| - 1].end == Some(audit.cutoff)
  }

  /******* The files *******/

  class Files {
    // What the state path and the backup directory hold.
    var state: Option<Bytes>
    var backups: map<nat, Bytes>

    // Backups whose content has reached the disk, and those that survive a power loss, name and all.
    ghost var written: set<nat>
    ghost var durable: map<nat, Bytes>
    ghost var directoryDurable: bool

    // A monitor: the state path was written while no durable backup held what was found there.
    ghost var found: Option<Bytes>
    ghost var unbackedWrite: bool

    constructor (state: Option<Bytes>)
      ensures this.state == found == state && !unbackedWrite && Valid()
    {
      this.state, backups := state, map[];
      written, durable, directoryDurable := {}, map[], false;
      found, unbackedWrite := state, false;
    }

    ghost predicate Valid()
      reads this
    {
      && (forall n :: n in written ==> n in backups)
      && (forall n :: n in durable ==> n in written && durable[n] == backups[n])
    }

    ghost predicate BackedUp()
      reads this`found, this`durable
    {
      found.Some? && exists n :: n in durable && durable[n] == found.value
    }

    // Other programs write the state path as long as no lock is held.
    method Others()
      requires Valid() && !unbackedWrite
      modifies this
      ensures Valid() && !unbackedWrite && found == state
    {
      state := *;
      found := state;
    }

    method ReadState() returns (bytes: Option<Bytes>)
      ensures bytes.Some? ==> bytes == state
    {
      bytes := None;
      if * {
        bytes := state;
      }
    }

    // Reading, decoding and the schema check; any of them may fail.
    method Snapshot(request: Request) returns (result: Option<(Bytes, State)>)
      ensures result.Some? ==> state == Some(result.value.0) && Decode(result.value.0) == Some(result.value.1)
                               && SchemaMatches(result.value.1, request)
    {
      var bytes := ReadState();
      result := None;
      if bytes.Some? && Decode(bytes.value).Some? && SchemaMatches(Decode(bytes.value).value, request) {
        result := Some((bytes.value, Decode(bytes.value).value));
      }
    }

    // A rename onto the state path.
    method ReplaceState(bytes: Bytes)
      requires Valid()
      modifies this`state, this`unbackedWrite
      ensures state == Some(bytes)
      ensures unbackedWrite == (old(unbackedWrite) || !BackedUp())
    {
      state := Some(bytes);
      unbackedWrite := unbackedWrite || !BackedUp();
    }

    method SyncParent() returns (ok: bool)
      modifies this`directoryDurable
      ensures ok ==> directoryDurable
      ensures !ok ==> directoryDurable == old(directoryDurable)
    {
      ok := *;
      if ok {
        directoryDurable := true;
      }
    }

    // A new, empty file under a name of its own.
    method CreateBackup() returns (name: Option<nat>)
      requires Valid()
      modifies this`backups
      ensures Valid()
      ensures name.None? ==> backups == old(backups)
      ensures name.Some? ==> name.value !in old(backups) && backups == old(backups)[name.value := Garbage(0)]
    {
      name := None;
      if * {
        var n: nat :| n !in backups by { SomeNameIsFree(backups.Keys); }
        backups := backups[n := Garbage(0)];
        name := Some(n);
      }
    }

    // Writing the content of a file that is not yet synchronised; it may stop half way.
    method WriteBackupContent(name: nat, payload: Bytes) returns (ok: bool)
      requires Valid() && name in backups && name !in written
      modifies this`backups
      ensures Valid() && backups.Keys == old(backups).Keys
      ensures forall n :: n in backups && n != name ==> backups[n] == old(backups)[n]
      ensures ok ==> backups[name] == payload
    {
      ok := *;
      var part: nat :| true;
      backups := backups[name := if ok then payload else Garbage(part)];
    }

    method SyncBackup(name: nat) returns (ok: bool)
      requires Valid() && name in backups
      modifies this`written
      ensures Valid()
      ensures ok ==> written == old(written) + {name}
      ensures !ok ==> written == old(written)
    {
      ok := *;
      if ok {
        written := written + {name};
      }
    }

    // Synchronising the backup directory makes the written files durable, if the directory itself is.
    method SyncBackupDirectory() returns (ok: bool)
      requires Valid()
      modifies this`durable
      ensures Valid()
      ensures ok && directoryDurable ==> durable == map n | n in written :: backups[n]
      ensures !(ok && directoryDurable) ==> durable == old(durable)
    {
      ok := *;
      if ok && directoryDurable {
        durable := map n | n in written :: backups[n];
      }
    }

    /** A backup that is reported is durable; nothing else changes, and no earlier backup is touched. */
    method WriteBackup(payload: Bytes) returns (name: Option<nat>)
      requires Valid()
      modifies this`backups, this`written, this`durable, this`directoryDurable
      ensures Valid()
      ensures name.Some? ==> name.value !in old(backups) && name.value in durable && durable[name.value] == payload
      ensures forall n :: n in old(durable) ==> n in durable && durable[n] == old(durable)[n]
      ensures forall n :: n in old(backups) ==> n in backups && backups[n] == old(backups)[n]
    {
      name := None;
      var ok := SyncParent();
      if ok {
        var created := CreateBackup();
        if created.Some? {
          assert created.value !in written;
          ok := WriteBackupContent(created.value, payload);
          if ok {
            ok := SyncBackup(created.value);
          }
          if ok {
            ok := SyncBackupDirectory();
          }
          if ok {
            name := created;
          }
        }
      }
    }

    // The imported atomic write: it may raise before or after its rename, and what it writes is not known.
    method WriteJson(candidate: State) returns (ok: bool)
      requires Valid()
      modifies this`state, this`unbackedWrite
      ensures Valid() && (unbackedWrite ==> old(unbackedWrite) || !BackedUp())
    {
      var bytes: Bytes := *;
      ok := *;
      var renamed := ok;
      if !ok {
        renamed := *;
      }
      if renamed {
        ReplaceState(bytes);
      }
    }

    /** The atomic write of the restore: temporary file, content, synchronisation, rename, mode, directory.  It
        may raise at any of them, also behind the rename. */
    method WriteBytes(payload: Bytes) returns (ok: bool)
      requires Valid()
      modifies this`state, this`unbackedWrite
      ensures Valid() && (unbackedWrite ==> old(unbackedWrite) || !BackedUp())
      ensures ok ==> state == Some(payload)
      ensures state == old(state) || state == Some(payload)
    {
      var prepared, renamed, finished, cleaned := *, *, *, *;
      ok := false;
      if prepared && renamed {
        ReplaceState(payload);
        ok := finished;
      }
      ok := ok && cleaned;
    }
  }

  lemma SomeNameIsFree(names: set<nat>)
    ensures exists n: nat :: n !in names
  {
    var n := GreaterThanAll(names);
  }

  lemma {:induction false} GreaterThanAll(names: set<nat>) returns (n: nat)
    ensures forall m :: m in names ==> m < n
    ensures n !in names
  {
    n := 0;
    if names != {} {
      var m :| m in names;
      var rest := GreaterThanAll(names - {m});
      assert forall k :: k in names ==> k == m || k in names - {m};
      n := if rest <= m then m + 1 else rest;
    }
  }

  /******* The transaction *******/

  datatype Outcome =
    | Rejected
    | DryRun
    | Refused
    | Applied(backup: nat)
    | OriginalRestored
    | RestoreFailed

  // What validation establishes about a candidate.
  ghost predicate Validated(original: State, candidate: State, request: Request) {
    && SchemaMatches(original, request)
    && Promotes(original, request.audit.identity).Some?
    && SeedReachesCutoff(request.audit)
    && AuditAccepts(request.live(original), request.audit)
    && candidate == request.seed(original)
    && FullHistory(candidate, request.audit.maxBars) && request.ready(candidate)
    && KeepsTheRest(original, candidate, Promotes(original, request.audit.identity).value)
  }

  // The guard: worker inactive, sampler lock taken, worker still inactive, state lock taken.
  method TakeLocks() returns (held: bool)
  {
    held := *;
  }

  method Validate(files: Files, request: Request) returns (result: Option<(Bytes, State, State)>)
    ensures result.Some? ==>
      && files.state == Some(result.value.0) && Decode(result.value.0) == Some(result.value.1)
      && Validated(result.value.1, result.value.2, request)
  {
    hide AuditAccepts, KeepsTheRest, Promotes, FullHistory;
    result := None;
    var snapshot := files.Snapshot(request);
    if snapshot.Some? {
      var (bytes, original) := snapshot.value;
      var promote := Promotes(original, request.audit.identity);
      if promote.Some? {
        var accepted := SeedReachesCutoff(request.audit);
        if accepted {
          accepted := AuditOverlap(request.live(original), request.audit);
        }
        var candidate := request.seed(original);
        if accepted && FullHistory(candidate, request.audit.maxBars) && request.ready(candidate)
           && KeepsTheRest(original, candidate, promote.value) {
          result := Some((bytes, original, candidate));
        }
      }
    }
  }

  /** Writing the candidate and reading it back. */
  method WriteAndVerify(files: Files, request: Request, candidate: State) returns (ok: bool)
    requires files.Valid()
    modifies files`state, files`unbackedWrite
    ensures files.Valid() && (files.unbackedWrite ==> old(files.unbackedWrite) || !files.BackedUp())
    ensures ok ==> files.state.Some? && Decode(files.state.value) == Some(candidate)
  {
    ok := files.WriteJson(candidate);
    if ok {
      ok := *;
    }
    if ok {
      var persisted := files.Snapshot(request);
      ok := persisted.Some? && persisted.value.1 == candidate && request.ready(persisted.value.1)
            && FullHistory(persisted.value.1, request.audit.maxBars);
    }
  }

  /** Writing the original bytes back and reading them again. */
  method Restore(files: Files, request: Request, bytes: Bytes, original: State) returns (ok: bool)
    requires files.Valid()
    modifies files`state, files`unbackedWrite
    ensures files.Valid() && (files.unbackedWrite ==> old(files.unbackedWrite) || !files.BackedUp())
    ensures ok ==> files.state == Some(bytes)
  {
    ok := files.WriteBytes(bytes);
    if ok {
      var restored := files.Snapshot(request);
      ok := restored.Some? && restored.value.0 == bytes && restored.value.1 == original;
    }
  }

  // What each outcome says about the state file and its backup.
  ghost predicate OutcomeHolds(outcome: Outcome, files: Files, request: Request, original: State, candidate: State)
    reads files
  {
    match outcome
    case Applied(backup) =>
      && files.state.Some? && Decode(files.state.value) == Some(candidate)
      && Validated(original, candidate, request)
      && files.found.Some? && Decode(files.found.value) == Some(original)
      && backup in files.durable && files.durable[backup] == files.found.value
    case OriginalRestored => files.state == files.found && files.BackedUp()
    case RestoreFailed => files.BackedUp()
    case _ => files.state == files.found
  }

  /** The command, with anything failing anywhere.  Success means that the file decodes to the validated
      candidate; a restored original is the file as it was found; every other failure before the first write
      leaves the file as it was found; and no write ever came before a durable backup of what it replaced. */
  method WarmStart(files: Files, request: Request) returns (outcome: Outcome, ghost original: State, ghost candidate: State)
    requires files.Valid() && !files.unbackedWrite
    modifies files
    ensures files.Valid() && !files.unbackedWrite
    ensures OutcomeHolds(outcome, files, request, original, candidate)
    ensures !request.apply ==> outcome == Rejected || outcome == DryRun
  {
    hide Validated;
    original, candidate := map[], map[];
    files.Others();
    var validated := Validate(files, request);
    if validated.None? {
      outcome := Rejected;
    } else if !request.apply {
      outcome := DryRun;
    } else {
      var (bytes, state, next) := validated.value;
      original, candidate := state, next;
      files.Others();
      outcome := Apply(files, request, bytes, state, next);
    }
  }

  method Apply(files: Files, request: Request, bytes: Bytes, original: State, candidate: State) returns (outcome: Outcome)
    requires files.Valid() && !files.unbackedWrite && files.found == files.state
    requires Validated(original, candidate, request)
    modifies files
    ensures files.Valid() && !files.unbackedWrite && files.found == old(files.found)
    ensures OutcomeHolds(outcome, files, request, original, candidate)
    ensures outcome != Rejected && outcome != DryRun
    ensures old(files.found) != Some(bytes) ==> outcome == Refused
  {
    hide Validated;
    outcome := Refused;
    var held := TakeLocks();
    if held {
      var current := files.Snapshot(request);
      if current.Some? && current.value.0 == bytes && current.value.1 == original {
        var backup := files.WriteBackup(bytes);
        if backup.Some? {
          assert files.BackedUp();
          var ok := WriteAndVerify(files, request, candidate);
          if ok {
            outcome := Applied(backup.value);
          } else {
            ok := Restore(files, request, bytes, original);
            outcome := if ok then OriginalRestored else RestoreFailed;
          }
        }
      }
    }
  }

  /** After an applied run every key of the original state but the approved ones has its original value. */
  lemma AppliedKeepsTheRest(files: Files, request: Request, original: State, candidate: State, outcome: Outcome, key: string)
    requires OutcomeHolds(outcome, files, request, original, candidate) && outcome.Applied?
    requires key in original && !Approved(key, Blank(Get(original, "contract_identity")))
    ensures Get(Decode(files.state.value).value, key) == Get(original, key)
  {
  }

  /** An applied run leaves the state's contract identity as it was, unless it was blank. */
  lemma AppliedKeepsTheContract(files: Files, request: Request, original: State, candidate: State, outcome: Outcome)
    requires OutcomeHolds(outcome, files, request, original, candidate) && outcome.Applied?
    requires !Blank(Get(original, "contract_identity"))
    ensures Get(Decode(files.state.value).value, "contract_identity") == Text(request.audit.identity)
  {
    AppliedKeepsTheRest(files, request, original, candidate, outcome, "contract_identity");
  }
}
