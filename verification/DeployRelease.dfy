/**
 Cutover to a new release with compensation.

 Any command may raise, having done any part of its work.  The machine's monitor
 `everIncompatible` looks at every state in which a long-running unit runs, or the database
 revision changes.
 */
module DeployRelease {
  import opened Options

  // The code a unit executes: the legacy checkout, or an immutable release.
  datatype Code = Legacy | Release(sha: string)

  datatype Unit =
    | Core | Worker | IbkrStream | SchwabMarketData | SchwabOAuth          // Python
    | RustCore | RustBridge | RustReport | RustDelivery
    | Scheduled(name: string)

  datatype Timer = WeeklyBacktest | Timer(name: string)

  // A drop-in either redirects its unit to the `current` link or is someone else's text.
  datatype DropIn = Cloud(sha: string) | Text(bytes: seq<char>)

  datatype Revision = Old | New | Other

  datatype Database = Database(revision: Revision, indexes: set<string>, rows: seq<string>, sound: bool)

  datatype Record = Record(python: Code, rust: Code, release: string, backup: Option<Database>,
                           dropins: map<Unit, Option<DropIn>>)

  datatype Outcome = Refused | AlreadyDeployed | Deployed | RolledBack | RollbackFailed | TimersDown(deployed: bool)

  const PYTHON_UNITS: set<Unit> := {Core, Worker, IbkrStream, SchwabMarketData, SchwabOAuth}
  const RUST_UNITS: set<Unit> := {RustCore, RustBridge, RustReport, RustDelivery}
  const LONG_RUNNING: set<Unit> := PYTHON_UNITS + RUST_UNITS
  const RETENTION_INDEXES: set<string> := {"ix_decisions_feature_snapshot", "ix_outcomes_decision"}
  const RETENTION_MIGRATION: string := "alembic/versions/0006_retention_indexes.py"
  const RETENTION_SHA256: string := "154a8b713815f24a50cff11d2173bf606fec10a6d4689b1661fdd38d37f2d0f2"

  /******* Which schema change is acceptable *******/

  datatype Review = NoChange | ReviewedChange | Rejected

  function ReviewedMigration(before: map<string, string>, after: map<string, string>): Review {
    if before == after then NoChange
    else if RETENTION_MIGRATION !in before && after == before[RETENTION_MIGRATION := RETENTION_SHA256] then ReviewedChange
    else Rejected
  }

  // A change passes review exactly when it adds the one reviewed file and touches no other.
  lemma ReviewAcceptsOnlyTheReviewedFile(before: map<string, string>, after: map<string, string>)
    ensures ReviewedMigration(before, after) == ReviewedChange <==>
      && RETENTION_MIGRATION !in before
      && RETENTION_MIGRATION in after && after[RETENTION_MIGRATION] == RETENTION_SHA256
      && forall f :: f != RETENTION_MIGRATION ==> (f in after <==> f in before) && (f in before ==> after[f] == before[f])
  {
    if && RETENTION_MIGRATION !in before
       && RETENTION_MIGRATION in after && after[RETENTION_MIGRATION] == RETENTION_SHA256
       && forall f :: f != RETENTION_MIGRATION ==> (f in after <==> f in before) && (f in before ==> after[f] == before[f])
    {
      assert after == before[RETENTION_MIGRATION := RETENTION_SHA256];
    }
  }

  /******* The machine *******/

  datatype Snapshot = Snapshot(
    python: Option<Code>,             // the `current` link of the Python runtime
    rust: Code,                       // the `current` link of the Rust core
    dropins: map<Unit, DropIn>,       // on disk
    loaded: map<Unit, DropIn>,        // as of the last daemon-reload
    running: map<Unit, Code>,         // the long-running units and the code they execute
    timers: set<Timer>,               // active
    enabled: set<Timer>,
    db: Database)

  // The code a unit would run if it were started now.
  function CodeOf(loaded: map<Unit, DropIn>, python: Option<Code>, rust: Code, u: Unit): Option<Code> {
    if u in RUST_UNITS then Some(rust)
    else if u in loaded && loaded[u].Cloud? then python
    else Some(Legacy)
  }

  // Target code runs only at the new revision, any other code only at the old one.
  predicate Compatible(running: map<Unit, Code>, revision: Revision, target: Code) {
    forall u :: u in running ==> if running[u] == target then revision == New else revision == Old
  }

  // The units run what the links and drop-ins say, and systemd knows the drop-ins on disk.
  predicate Settled(s: Snapshot) {
    && s.loaded == s.dropins
    && s.running.Keys == LONG_RUNNING
    && forall u :: u in s.running ==> CodeOf(s.loaded, s.python, s.rust, u) == Some(s.running[u])
  }

  predicate NoRowLost(before: Database, after: Database) {
    before.rows <= after.rows
  }

  // Rows are only added.
  predicate Grown(before: Database, after: Database) {
    NoRowLost(before, after) && after == before.(rows := after.rows)
  }

  // `changes` is what it takes to turn the drop-ins `after` back into `before`.
  predicate Undoes(changes: map<Unit, Option<DropIn>>, before: map<Unit, DropIn>, after: map<Unit, DropIn>) {
    && (forall u :: u in changes ==> changes[u] == Find(before, u))
    && (forall u :: u in before && u !in changes ==> u in after && after[u] == before[u])
    && (forall u :: u in after && u !in changes ==> u in before)
  }

  // Every unit of `units` could be started at this revision without mixing code and schema.
  predicate Startable(loaded: map<Unit, DropIn>, python: Option<Code>, rust: Code, units: set<Unit>,
                      revision: Revision, target: Code) {
    forall u :: u in units && CodeOf(loaded, python, rust, u).Some? ==>
      if CodeOf(loaded, python, rust, u).value == target then revision == New else revision == Old
  }

  // Units in `after` were running before, or are among `units` and run what links and drop-ins say.
  predicate StartedFrom(before: map<Unit, Code>, after: map<Unit, Code>, units: set<Unit>,
                        loaded: map<Unit, DropIn>, python: Option<Code>, rust: Code) {
    && (forall u :: u in before ==> u in after && after[u] == before[u])
    && (forall u :: u in after && u !in before ==> u in units && CodeOf(loaded, python, rust, u) == Some(after[u]))
  }

  lemma StartingStaysCompatible(before: map<Unit, Code>, after: map<Unit, Code>, units: set<Unit>,
                                loaded: map<Unit, DropIn>, python: Option<Code>, rust: Code, revision: Revision, target: Code)
    requires StartedFrom(before, after, units, loaded, python, rust)
    requires Compatible(before, revision, target) && Startable(loaded, python, rust, units, revision, target)
    ensures Compatible(after, revision, target)
  {
  }

  lemma SameMap<K, V>(a: map<K, V>, b: map<K, V>)
    requires forall k :: Find(a, k) == Find(b, k)
    ensures a == b
  {
    forall k
      ensures k in a <==> k in b
    {
      assert Find(a, k) == Find(b, k);
    }
    forall k | k in a
      ensures a[k] == b[k]
    {
      assert Find(a, k) == Find(b, k);
    }
  }

  // The database after the migration step, and until the rollback touches it.
  predicate DatabaseMidway(before: Database, after: Database, needsMigration: bool) {
    && NoRowLost(before, after)
    && after.sound == before.sound
    && (|| (after.revision == before.revision && after.indexes == before.indexes)
        || (needsMigration && before.revision == Old && after.revision == New
            && after.indexes == before.indexes + RETENTION_INDEXES))
  }

  predicate FewerTimers(before: set<Timer>, after: set<Timer>, names: set<Timer>) {
    before - names <= after <= before
  }

  predicate LongRunningOnly(running: map<Unit, Code>) {
    running.Keys <= LONG_RUNNING
  }

  predicate TimersMidway(before: set<Timer>, after: set<Timer>, names: set<Timer>) {
    before - names - {WeeklyBacktest} <= after <= before
  }

  predicate MaybeRetired(before: set<Timer>, after: set<Timer>) {
    after == before || after == before - {WeeklyBacktest}
  }

  /** A settled machine at the old revision, no part of which runs or points to the target yet,
      whose Python units are all redirected by drop-ins. */
  predicate CleanStart(s: Snapshot, units: set<Unit>, target: Code) {
    && Settled(s) && s.db.revision == Old && Compatible(s.running, Old, target)
    && PYTHON_UNITS <= units
  }

  lemma MidwayGrown(a: Database, b: Database, c: Database, needsMigration: bool)
    requires DatabaseMidway(a, b, needsMigration) && Grown(b, c)
    ensures DatabaseMidway(a, c, needsMigration)
  {
  }

  lemma TimersAreMidway(a: set<Timer>, b: set<Timer>, c: set<Timer>, names: set<Timer>)
    requires FewerTimers(a, b, names) && MaybeRetired(b, c)
    ensures TimersMidway(a, c, names)
  {
  }

  lemma MaybeRetiredReflexive(timers: set<Timer>)
    ensures MaybeRetired(timers, timers)
  {
  }

  lemma FewerAreLongRunning(before: map<Unit, Code>, after: map<Unit, Code>)
    requires LongRunningOnly(before) && forall u :: u in after ==> u in before
    ensures LongRunningOnly(after)
  {
  }

  lemma CleanIsCompatible(s: Snapshot, units: set<Unit>, target: Code)
    ensures CleanStart(s, units, target) ==>
      Compatible(s.running, s.db.revision, target) && s.db.revision == Old && PYTHON_UNITS <= units
  {
  }

  lemma NothingToUndo(dropins: map<Unit, DropIn>)
    ensures Undoes(map[], dropins, dropins)
  {
  }

  lemma FewerStayCompatible(before: map<Unit, Code>, after: map<Unit, Code>, revision: Revision, target: Code)
    requires forall u :: u in after ==> u in before && after[u] == before[u]
    ensures Compatible(before, revision, target) || after == map[] ==> Compatible(after, revision, target)
  {
  }

  lemma TargetStartable(loaded: map<Unit, DropIn>, python: Option<Code>, rust: Code, units: set<Unit>,
                        revision: Revision, target: Code)
    requires python == Some(target) && rust == target
    requires forall u :: u in units ==> u in loaded && loaded[u].Cloud?
    ensures PYTHON_UNITS <= units && revision == New ==>
      Startable(loaded, python, rust, LONG_RUNNING, revision, target)
  {
  }

  // A successful rollback leaves the old revision and every row.
  predicate RolledBackDatabase(before: Database, after: Database, needsMigration: bool) {
    && NoRowLost(before, after) && after.sound == before.sound
    && (!needsMigration ==> after.revision == before.revision && after.indexes == before.indexes)
    && (needsMigration ==>
          && before.revision != Other && after.revision == Old
          && after.indexes == if before.revision == Old then before.indexes else before.indexes - RETENTION_INDEXES)
  }

  lemma RollbackKeepsRows(a: Database, b: Database, c: Database, d: Database, needsMigration: bool)
    requires Grown(a, b) && Grown(c, d)
    requires if needsMigration
             then c.revision == Old && c.rows == b.rows && c.sound == b.sound && b.revision != Other
                  && c.indexes == if b.revision == Old then b.indexes else b.indexes - RETENTION_INDEXES
             else c == b
    ensures RolledBackDatabase(a, d, needsMigration)
    ensures d.revision == c.revision
  {
  }

  // The link a rollback leaves: none when the previous runtime was the legacy checkout.
  function PreviousLink(previous: Code): Option<Code> {
    if previous != Legacy then Some(previous) else None
  }

  predicate RolledBackCode(dropins: map<Unit, DropIn>, after: Snapshot, previous: Code, previousRust: Code) {
    && after.python == PreviousLink(previous) && after.rust == previousRust
    && after.dropins == dropins && after.loaded == dropins && after.running.Keys == LONG_RUNNING
    && StartedFrom(map[], after.running, LONG_RUNNING, after.loaded, after.python, after.rust)
  }

  /** Everything points to the target and runs; no row was lost. */
  ghost predicate CutOver(before: Snapshot, after: Snapshot, needsMigration: bool, units: set<Unit>, sha: string, target: Code) {
    && after.python == Some(target) && after.rust == target && after.loaded == after.dropins
    && (forall u :: u in units ==> u in after.dropins && after.dropins[u] == Cloud(sha))
    && (forall u :: u !in units ==> Find(after.dropins, u) == Find(before.dropins, u))
    && after.running.Keys == LONG_RUNNING
    && (forall u :: u in after.running ==> CodeOf(after.loaded, after.python, after.rust, u) == Some(after.running[u]))
    && DatabaseMidway(before.db, after.db, needsMigration) && Migrated(before.db, after.db, needsMigration)
  }

  // The schema of a cutover: the new one with its two indexes, or the one there was.
  predicate Migrated(before: Database, after: Database, needsMigration: bool) {
    if needsMigration then after.revision == New && RETENTION_INDEXES <= after.indexes
    else after.revision == before.revision && after.indexes == before.indexes
  }

  /** What the record keeps of the database: everything there was before the migration, if there was one to do;
      what the deployment left is that and nothing but the schema and later rows. */
  predicate BackedUp(before: Database, backup: Option<Database>, after: Database, needsMigration: bool) {
    if needsMigration && before.revision == Old then
      && backup.Some? && backup.value.revision == Old && backup.value.sound
      && Grown(before, backup.value) && DatabaseMidway(backup.value, after, true)
    else
      backup.None?
  }

  /** What previous.json says once a deployment succeeded: the code there was, what undoes the drop-ins, the backup. */
  predicate Recorded(record: Option<Record>, before: Snapshot, after: Snapshot, needsMigration: bool, sha: string) {
    && record.Some? && record.value.release == sha
    && record.value.python == PreviousCode(before.python) && record.value.rust == before.rust
    && Undoes(record.value.dropins, before.dropins, after.dropins)
    && BackedUp(before.db, record.value.backup, after.db, needsMigration)
  }

  lemma BackedUpGrown(before: Database, backup: Option<Database>, after: Database, later: Database, needsMigration: bool)
    requires BackedUp(before, backup, after, needsMigration) && Grown(after, later)
    ensures BackedUp(before, backup, later, needsMigration)
  {
  }

  lemma MigratedGrown(before: Database, after: Database, later: Database, needsMigration: bool)
    requires Migrated(before, after, needsMigration) && Grown(after, later)
    ensures Migrated(before, later, needsMigration)
  {
  }

  lemma CutOverHolds(before: Snapshot, after: Snapshot, changes: map<Unit, Option<DropIn>>, needsMigration: bool,
                     units: set<Unit>, sha: string, target: Code)
    requires after.python == Some(target) && after.rust == target && after.loaded == after.dropins
    requires Undoes(changes, before.dropins, after.dropins) && changes.Keys == units
    requires forall u :: u in units ==> u in after.dropins && after.dropins[u] == Cloud(sha)
    requires after.running.Keys == LONG_RUNNING && DatabaseMidway(before.db, after.db, needsMigration)
    requires StartedFrom(map[], after.running, LONG_RUNNING, after.loaded, after.python, after.rust)
    requires Migrated(before.db, after.db, needsMigration)
    ensures CutOver(before, after, needsMigration, units, sha, target)
  {
  }

  lemma CleanIsRestartable(s: Snapshot, units: set<Unit>, target: Code)
    requires CleanStart(s, units, target)
    ensures Startable(s.dropins, PreviousLink(PreviousCode(s.python)), s.rust, LONG_RUNNING, Old, target)
  {
  }

  function PreviousCode(python: Option<Code>): Code {
    if python.Some? then python.value else Legacy
  }

  /** Nothing is different from before the deployment, except that rows may have been added. */
  ghost predicate CodeAsBefore(before: Snapshot, after: Snapshot) {
    && after.rust == before.rust && after.dropins == before.dropins && after.loaded == before.loaded
    && after.running == before.running
    && (after.python == before.python || (before.python == Some(Legacy) && after.python == None))
  }

  lemma RolledBackIsAsBefore(before: Snapshot, after: Snapshot)
    requires Settled(before) && RolledBackCode(before.dropins, after, PreviousCode(before.python), before.rust)
    ensures CodeAsBefore(before, after)
    ensures after.python == before.python <==> before.python != Some(Legacy)
  {
    forall u
      ensures Find(after.running, u) == Find(before.running, u)
    {
      assert u in after.running <==> u in before.running;
    }
    SameMap(after.running, before.running);
  }

  predicate DatabaseAsBefore(before: Database, after: Database, needsMigration: bool) {
    && NoRowLost(before, after) && after.sound == before.sound
    && (needsMigration ==> after.revision == Old)
    && (before.revision == Old || !needsMigration ==> after.revision == before.revision)
    && (before.indexes !! RETENTION_INDEXES || !needsMigration ==> after.indexes == before.indexes)
  }

  lemma DatabaseRolledBack(a: Database, b: Database, c: Database, needsMigration: bool)
    requires DatabaseMidway(a, b, needsMigration) && RolledBackDatabase(b, c, needsMigration)
    ensures DatabaseAsBefore(a, c, needsMigration)
  {
  }

  // The timers of a rolled-back deployment, once those that were stopped are started again.
  predicate TimersAsBefore(before: set<Timer>, after: set<Timer>, names: set<Timer>) {
    after == before || (after == before - {WeeklyBacktest} && WeeklyBacktest !in names)
  }

  lemma TimersRestarted(a: set<Timer>, b: set<Timer>, c: set<Timer>, names: set<Timer>)
    requires TimersMidway(a, b, names) && names <= a && c == b + names
    ensures TimersAsBefore(a, c, names)
  {
    if WeeklyBacktest in c || WeeklyBacktest !in a {
      assert c == a;
    } else {
      assert c == a - {WeeklyBacktest};
    }
  }

  lemma TimersKeptOn(a: set<Timer>, b: set<Timer>, c: set<Timer>, names: set<Timer>)
    requires TimersMidway(a, b, names) && names <= a && c == b + (names - {WeeklyBacktest})
    ensures c - {WeeklyBacktest} == a - {WeeklyBacktest}
  {
  }

  // Starting timers touches nothing else.
  lemma SameExceptTimers(before: Snapshot, a: Snapshot, b: Snapshot, needsMigration: bool, units: set<Unit>, sha: string, target: Code)
    requires b == a.(timers := b.timers)
    ensures CutOver(before, a, needsMigration, units, sha, target) ==> CutOver(before, b, needsMigration, units, sha, target)
    ensures forall record :: Recorded(record, before, a, needsMigration, sha) ==> Recorded(record, before, b, needsMigration, sha)
    ensures forall previous, rust :: RolledBackCode(before.dropins, a, previous, rust) ==> RolledBackCode(before.dropins, b, previous, rust)
  {
  }

  class Machine {
    var target: Code                      // of the deployment at hand
    var python: Option<Code>
    var next: Option<Code>                // current.next
    var rust: Code
    var dropins: map<Unit, DropIn>
    var loaded: map<Unit, DropIn>
    var running: map<Unit, Code>
    var timers: set<Timer>
    var enabled: set<Timer>
    var weeklyKnown: bool                 // systemd has a unit for the weekly timer, neither missing nor masked
    var db: Database
    var record: Option<Record>            // previous.json
    ghost var everIncompatible: bool      // some observed state was incompatible
    ghost var restoreFailed: bool         // the pre-migration backup could not be put back

    // How far this deployment got: the last forward step before the record, that step's disabling of the
    // weekly timer, and the opening of previous.json, which empties it.
    ghost var retireReached: bool
    ghost var weeklyDisabled: bool
    ghost var recordTruncated: bool

    function View(): Snapshot
      reads this
    {
      Snapshot(python, rust, dropins, loaded, running, timers, enabled, db)
    }

    ghost method Observe()
      modifies this`everIncompatible
      ensures everIncompatible == (old(everIncompatible) || !Compatible(running, db.revision, target))
    {
      everIncompatible := everIncompatible || !Compatible(running, db.revision, target);
    }

    // Running units may commit rows at any time.
    method Writers()
      modifies this`db
      ensures Grown(old(db), db) && (running == map[] ==> db == old(db))
    {
      if running != map[] {
        var rows: seq<string> := *;
        db := db.(rows := db.rows + rows);
      }
    }

    /******* systemctl *******/

    method StopUnits(units: set<Unit>) returns (ok: bool)
      modifies this`running, this`db, this`everIncompatible
      ensures forall u :: u in running ==> u in old(running) && running[u] == old(running[u])
      ensures forall u :: u in old(running) && u !in units ==> u in running
      ensures ok ==> running.Keys !! units
      ensures Grown(old(db), db)
      ensures Compatible(old(running), old(db.revision), target) ==> everIncompatible == old(everIncompatible)
    {
      var rest := units;
      while rest != {}
        invariant rest <= units
        invariant forall u :: u in running ==> u in old(running) && running[u] == old(running[u]) && u !in units - rest
        invariant forall u :: u in old(running) && u !in units ==> u in running
        invariant Grown(old(db), db)
        invariant Compatible(old(running), old(db.revision), target) ==> everIncompatible == old(everIncompatible)
        decreases |rest|
      {
        Writers();
        var raises: bool := *;
        if raises {
          return false;
        }
        var u :| u in rest;
        running := running - {u};
        rest := rest - {u};
        Observe();
        raises := *;
        if raises {
          return false;
        }
      }
      ok := true;
    }

    method StartUnits(units: set<Unit>) returns (ok: bool)
      modifies this`running, this`db, this`everIncompatible
      ensures StartedFrom(old(running), running, units, loaded, python, rust)
      ensures ok ==> units <= running.Keys
      ensures Grown(old(db), db)
      ensures Compatible(old(running), old(db.revision), target) && Startable(loaded, python, rust, units, db.revision, target) ==>
        everIncompatible == old(everIncompatible) && Compatible(running, db.revision, target)
    {
      var rest := units;
      while rest != {}
        invariant rest <= units && units - rest <= running.Keys
        invariant StartedFrom(old(running), running, units, loaded, python, rust)
        invariant Grown(old(db), db)
        invariant Compatible(old(running), old(db.revision), target) && Startable(loaded, python, rust, units, db.revision, target) ==>
          everIncompatible == old(everIncompatible) && Compatible(running, db.revision, target)
        decreases |rest|
      {
        var u :| u in rest;
        var code := CodeOf(loaded, python, rust, u);
        var raises: bool := *;
        if raises || code.None? {
          return false;
        }
        if u !in running {
          running := running[u := code.value];
        }
        rest := rest - {u};
        Observe();
        Writers();
        raises := *;
        if raises {
          return false;
        }
      }
      ok := true;
    }

    method DaemonReload() returns (ok: bool)
      modifies this`loaded
      ensures loaded == old(loaded) || loaded == dropins
      ensures ok ==> loaded == dropins
    {
      var reloads: bool := *;
      if reloads {
        loaded := dropins;
      }
      ok := *;
      ok := ok && reloads;
    }

    method StopTimers(names: set<Timer>) returns (ok: bool)
      modifies this`timers
      ensures old(timers) - names <= timers <= old(timers)
      ensures ok ==> timers == old(timers) - names
    {
      var stopped: set<Timer> := *;
      timers := timers - (stopped * names);
      ok := *;
      ok := ok && names <= stopped;
    }

    method StartTimers(names: set<Timer>) returns (ok: bool)
      modifies this`timers
      ensures old(timers) <= timers <= old(timers) + names
      ensures ok ==> timers == old(timers) + names
    {
      var started: set<Timer> := *;
      timers := timers + (started * names);
      ok := *;
      ok := ok && names <= started;
    }

    // What is enabled, given what was: all of it, but for the weekly timer once this deployment disabled it.
    ghost predicate EnabledAs(before: set<Timer>)
      reads this`enabled, this`weeklyDisabled, this`retireReached
    {
      && enabled == (if weeklyDisabled then before - {WeeklyBacktest} else before)
      && (weeklyDisabled ==> retireReached)
    }

    // previous.json, given what it was: untouched, or empty once this deployment opened it.
    ghost predicate RecordAs(before: Option<Record>)
      reads this`record, this`recordTruncated, this`retireReached
    {
      && record == (if recordTruncated then None else before)
      && (recordTruncated ==> retireReached)
    }

    // The weekly timer neither runs nor will be started at boot.
    ghost predicate WeeklyGone()
      reads this`timers, this`enabled, this`weeklyKnown
    {
      weeklyKnown ==> WeeklyBacktest !in timers && WeeklyBacktest !in enabled
    }

    // The weekly research timer is disabled and stopped unless systemd does not know it.
    method RetireResearchTimer() returns (ok: bool)
      modifies this`timers, this`enabled, this`retireReached, this`weeklyDisabled
      ensures timers == old(timers) || timers == old(timers) - {WeeklyBacktest}
      ensures enabled == if weeklyDisabled then old(enabled) - {WeeklyBacktest} else old(enabled)
      ensures retireReached
      ensures ok ==> WeeklyGone()
    {
      retireReached, weeklyDisabled := true, false;
      var disabled: bool := *;
      var stopped: bool := *;
      if weeklyKnown && disabled {
        enabled := enabled - {WeeklyBacktest};
        weeklyDisabled := true;
      }
      if weeklyKnown && stopped {
        timers := timers - {WeeklyBacktest};
      }
      ok := *;
      ok := ok && (weeklyKnown ==> disabled && stopped);
    }

    /******* links and drop-ins *******/

    // The link is replaced by a rename: it is the old one or the new one, never absent.
    method AtomicLink(to: Code) returns (ok: bool)
      modifies this`python, this`next
      ensures python == old(python) || python == Some(to)
      ensures ok ==> python == Some(to)
    {
      ok := *;
      if !ok { return; }
      next := None;
      ok := *;
      if !ok { return; }
      next := Some(to);
      ok := *;
      if !ok { return; }
      python, next := next, None;
    }

    method LinkRust(to: Code) returns (ok: bool)
      modifies this`rust
      ensures rust == old(rust) || rust == to
      ensures ok ==> rust == to
    {
      var linked: bool := *;
      if linked {
        rust := to;
      }
      ok := *;
      ok := ok && linked;
    }

    method WriteDropIns(units: set<Unit>, sha: string) returns (ok: bool, changes: map<Unit, Option<DropIn>>)
      modifies this`dropins
      ensures Undoes(changes, old(dropins), dropins) && changes.Keys <= units
      ensures ok ==> changes.Keys == units && forall u :: u in units ==> u in dropins && dropins[u] == Cloud(sha)
    {
      changes := map[];
      var rest := units;
      while rest != {}
        invariant rest <= units && changes.Keys == units - rest
        invariant Undoes(changes, old(dropins), dropins)
        invariant forall u :: u in units - rest ==> u in dropins && dropins[u] == Cloud(sha)
        decreases |rest|
      {
        var u :| u in rest;
        ok := *;                   // reading the unit or the old drop-in
        if !ok {
          return;
        }
        changes := changes[u := Find(dropins, u)];
        rest := rest - {u};
        ok := *;                   // creating the directory
        if !ok {
          return;
        }
        ok := *;
        if !ok {
          var torn: DropIn := *;   // whatever the interrupted write left
          dropins := dropins[u := torn];
          return;
        }
        dropins := dropins[u := Cloud(sha)];
      }
      ok := true;
    }

    method RestoreDropIns(changes: map<Unit, Option<DropIn>>, ghost before: map<Unit, DropIn>) returns (ok: bool)
      requires Undoes(changes, before, dropins)
      modifies this`dropins
      ensures ok ==> dropins == before
    {
      var rest := changes.Keys;
      while rest != {}
        invariant rest <= changes.Keys
        invariant Undoes(changes, before, dropins)
        invariant forall u :: u in changes && u !in rest ==> Find(dropins, u) == changes[u]
        decreases |rest|
      {
        var u :| u in rest;
        rest := rest - {u};
        ok := *;
        if !ok {
          var torn: map<Unit, DropIn> := *;
          dropins := torn;
          return;
        }
        dropins := if changes[u].None? then dropins - {u} else dropins[u := changes[u].value];
      }
      forall u
        ensures Find(dropins, u) == Find(before, u)
      {
      }
      SameMap(dropins, before);
      ok := true;
    }

    /******* migrate_retention_indexes *******/

    method Migrate() returns (ok: bool, backup: Option<Database>)
      modifies this`db, this`everIncompatible, this`restoreFailed
      ensures running == map[] ==> everIncompatible == old(everIncompatible)
      ensures old(restoreFailed) ==> restoreFailed
      ensures !ok && !restoreFailed ==> db == old(db)
      ensures ok ==> restoreFailed == old(restoreFailed) && db.revision == New && db.rows == old(db.rows)
      ensures ok && old(db.revision) == Old ==> backup == Some(old(db)) && old(db.sound) && DatabaseMidway(old(db), db, true)
      ensures ok && old(db.revision) != Old ==> backup == None && db == old(db)
      ensures ok ==> RETENTION_INDEXES <= db.indexes
    {
      backup := None;
      if db.revision == New {
        return RETENTION_INDEXES <= db.indexes, None;
      }
      ok := *;
      if db.revision != Old || !ok || !db.sound {
        return false, None;
      }
      var saved := db;
      var completes: bool := *;
      if completes {
        // The reviewed script adds the two indexes; what it left is checked all the same.
        var revision: Revision := *;
        var sound: bool := *;
        db := db.(revision := revision, sound := sound, indexes := db.indexes + RETENTION_INDEXES);
      } else {
        db := *;
      }
      Observe();
      if !completes || db.revision != New || !db.sound {
        var restored: bool := *;
        if !restored {
          restoreFailed := true;
          return false, None;
        }
        db := saved;
        Observe();
        return false, None;
      }
      return true, Some(saved);
    }

    method MigrateBack() returns (ok: bool)
      modifies this`db, this`everIncompatible
      ensures running == map[] ==> everIncompatible == old(everIncompatible)
      ensures ok ==> db.revision == Old && db.rows == old(db.rows) && db.sound == old(db.sound)
      ensures ok ==> db.indexes == if old(db.revision) == Old then old(db.indexes) else old(db.indexes) - RETENTION_INDEXES
      ensures ok ==> old(db.revision) != Other
    {
      if db.revision == Old {
        return true;
      }
      if db.revision != New {
        return false;
      }
      var completes: bool := *;
      if !completes {
        db := *;
        Observe();
        return false;
      }
      var revision: Revision := *;
      db := db.(revision := revision, indexes := db.indexes - RETENTION_INDEXES);
      Observe();
      return db.revision == Old;
    }

    /******* install *******/

    // First the timers and every writer stop.
    method Quiesce(names: set<Timer>) returns (ok: bool)
      requires LongRunningOnly(running)
      modifies this`timers, this`running, this`db, this`everIncompatible
      ensures FewerTimers(old(timers), timers, names) && Grown(old(db), db)
      ensures forall u :: u in running ==> u in old(running) && running[u] == old(running[u])
      ensures ok ==> running == map[] && timers == old(timers) - names
      ensures Compatible(old(running), old(db.revision), target) ==> everIncompatible == old(everIncompatible)
    {
      ok := true;
      if names != {} {
        ok := StopTimers(names);
      }
      if ok {
        ok := StopUnits(PYTHON_UNITS);
      }
      if ok {
        ok := StopUnits(RUST_UNITS);
      }
    }

    method Halt() returns (ok: bool)
      requires LongRunningOnly(running)
      modifies this`running, this`db, this`everIncompatible
      ensures Grown(old(db), db) && LongRunningOnly(running)
      ensures ok ==> running == map[]
      ensures Compatible(old(running), old(db.revision), target) ==> everIncompatible == old(everIncompatible)
    {
      ok := StopUnits(PYTHON_UNITS);
      if ok {
        ok := StopUnits(RUST_UNITS);
      }
    }

    method RestoreCode(changes: map<Unit, Option<DropIn>>, previous: Code, previousRust: Code, ghost before: map<Unit, DropIn>)
      returns (ok: bool)
      requires Undoes(changes, before, dropins)
      modifies this`dropins, this`python, this`next, this`rust, this`loaded
      ensures ok ==> python == PreviousLink(previous) && rust == previousRust
      ensures ok ==> dropins == before && loaded == before
    {
      ok := RestoreDropIns(changes, before);
      if !ok { return; }
      if previous != Legacy {
        ok := AtomicLink(previous);
      } else {
        ok := *;
        python := if ok then None else python;
      }
      if !ok { return; }
      ok := LinkRust(previousRust);
      if ok {
        ok := DaemonReload();
      }
    }

    // Then drop-ins, links and systemd's view of them move to the target.
    method SwitchCode(units: set<Unit>, sha: string) returns (ok: bool, changes: map<Unit, Option<DropIn>>)
      modifies this`dropins, this`python, this`next, this`rust, this`loaded
      ensures Undoes(changes, old(dropins), dropins) && changes.Keys <= units
      ensures ok ==> python == Some(target) && rust == target && loaded == dropins && changes.Keys == units
      ensures ok ==> forall u :: u in units ==> u in dropins && dropins[u] == Cloud(sha)
    {
      ok, changes := WriteDropIns(units, sha);
      if ok {
        ok := AtomicLink(target);
      }
      if ok {
        ok := LinkRust(target);
      }
      if ok {
        ok := DaemonReload();
      }
    }

    // Finally the units start; Rust only after Python has.
    method StartAll() returns (ok: bool)
      requires running == map[]
      modifies this`running, this`db, this`everIncompatible
      ensures StartedFrom(map[], running, LONG_RUNNING, loaded, python, rust)
      ensures ok ==> running.Keys == LONG_RUNNING
      ensures Grown(old(db), db)
      ensures Startable(loaded, python, rust, LONG_RUNNING, db.revision, target) ==>
        everIncompatible == old(everIncompatible) && Compatible(running, db.revision, target)
    {
      ok := StartUnits(PYTHON_UNITS);
      if ok {
        ok := StartUnits(RUST_UNITS);
      }
    }

    // With the writers stopped: the schema, then the code.
    method Exchange(needsMigration: bool, units: set<Unit>, names: set<Timer>, sha: string)
      returns (ok: bool, changes: map<Unit, Option<DropIn>>, backup: Option<Database>)
      requires LongRunningOnly(running)
      modifies this`timers, this`running, this`db, this`everIncompatible, this`restoreFailed,
               this`dropins, this`python, this`next, this`rust, this`loaded
      ensures Undoes(changes, old(dropins), dropins) && changes.Keys <= units
      ensures old(restoreFailed) ==> restoreFailed
      ensures !restoreFailed ==> DatabaseMidway(old(db), db, needsMigration)
      ensures FewerTimers(old(timers), timers, names)
      ensures forall u :: u in running ==> u in old(running) && running[u] == old(running[u])
      ensures running == map[] || db.revision == old(db.revision)
      ensures Compatible(old(running), old(db.revision), target) ==> everIncompatible == old(everIncompatible)
      ensures ok ==> running == map[] && restoreFailed == old(restoreFailed) && timers == old(timers) - names
      ensures ok ==> python == Some(target) && rust == target && loaded == dropins && changes.Keys == units
      ensures ok ==> forall u :: u in units ==> u in dropins && dropins[u] == Cloud(sha)
      ensures ok ==> DatabaseMidway(old(db), db, needsMigration) && Migrated(old(db), db, needsMigration)
      ensures ok ==> BackedUp(old(db), backup, db, needsMigration) && (needsMigration ==> db.revision == New)
    {
      hide Undoes, Compatible;
      changes := map[];
      backup := None;
      NothingToUndo(dropins);
      ok := Quiesce(names);
      if !ok { return; }
      if needsMigration {
        ok, backup := Migrate();
        if !ok { return; }
      }
      ok, changes := SwitchCode(units, sha);
    }

    // Start, then wait for process identities, health and readiness; last, retire the research timer.
    method Launch() returns (ok: bool)
      requires running == map[] && !weeklyDisabled
      modifies this`running, this`db, this`everIncompatible, this`timers, this`enabled, this`retireReached, this`weeklyDisabled
      ensures LongRunningOnly(running)
      ensures StartedFrom(map[], running, LONG_RUNNING, loaded, python, rust)
      ensures ok ==> running.Keys == LONG_RUNNING
      ensures Grown(old(db), db)
      ensures MaybeRetired(old(timers), timers) && EnabledAs(old(enabled)) && (ok ==> retireReached && WeeklyGone())
      ensures Startable(loaded, python, rust, LONG_RUNNING, db.revision, target) ==>
        everIncompatible == old(everIncompatible) && Compatible(running, db.revision, target)
    {
      hide Compatible, Startable;
      ok := StartAll();
      if !ok { return; }
      Writers();
      ok := *;
      if !ok { return; }
      ok := RetireResearchTimer();
    }

    // Everything up to the record of the cutover.
    method Advance(needsMigration: bool, units: set<Unit>, names: set<Timer>, sha: string)
      returns (ok: bool, changes: map<Unit, Option<DropIn>>, backup: Option<Database>)
      requires LongRunningOnly(running) && !weeklyDisabled && EnabledAs(enabled)
      modifies this`timers, this`enabled, this`running, this`db, this`everIncompatible, this`restoreFailed,
               this`dropins, this`python, this`next, this`rust, this`loaded, this`retireReached, this`weeklyDisabled
      ensures Undoes(changes, old(dropins), dropins) && LongRunningOnly(running)
      ensures old(restoreFailed) ==> restoreFailed
      ensures !restoreFailed ==> DatabaseMidway(old(db), db, needsMigration)
      ensures TimersMidway(old(timers), timers, names) && EnabledAs(old(enabled)) && (ok ==> retireReached)
      ensures needsMigration && CleanStart(old(View()), units, target) ==>
        everIncompatible == old(everIncompatible) && Compatible(running, db.revision, target)
      ensures ok ==> CutOver(old(View()), View(), needsMigration, units, sha, target)
      ensures ok ==> restoreFailed == old(restoreFailed) && WeeklyGone() && BackedUp(old(db), backup, db, needsMigration)
    {
      hide Compatible, Startable, Undoes, StartedFrom, CutOver, CodeOf, DatabaseMidway, TimersMidway, FewerTimers,
           MaybeRetired, LongRunningOnly, CleanStart, NoRowLost, EnabledAs, WeeklyGone, Migrated, BackedUp;
      ok, changes, backup := Exchange(needsMigration, units, names, sha);
      FewerStayCompatible(old(running), running, db.revision, target);
      FewerAreLongRunning(old(running), running);
      CleanIsCompatible(old(View()), units, target);
      MaybeRetiredReflexive(timers);
      ghost var exchanged := View();
      if ok {
        TargetStartable(loaded, python, rust, units, db.revision, target);
        ok := Launch();
        MidwayGrown(old(db), exchanged.db, db, needsMigration);
      }
      TimersAreMidway(old(timers), exchanged.timers, timers, names);
      if ok {
        BackedUpGrown(old(db), backup, exchanged.db, db, needsMigration);
        MigratedGrown(old(db), exchanged.db, db, needsMigration);
        CutOverHolds(old(View()), View(), changes, needsMigration, units, sha, target);
      }
    }

    // Rust starts even when Python did not.
    method Restart() returns (ok: bool)
      requires running == map[]
      modifies this`running, this`db, this`everIncompatible
      ensures Grown(old(db), db)
      ensures ok ==> running.Keys == LONG_RUNNING && StartedFrom(map[], running, LONG_RUNNING, loaded, python, rust)
      ensures Startable(loaded, python, rust, LONG_RUNNING, db.revision, target) ==> everIncompatible == old(everIncompatible)
    {
      ok := StartUnits(PYTHON_UNITS);
      var rustOk := StartUnits(RUST_UNITS);
      ok := ok && rustOk;
    }

    // The compensation.  The monitored units start again only after everything else is back.
    method Rollback(needsMigration: bool, changes: map<Unit, Option<DropIn>>, previous: Code, previousRust: Code,
                    ghost before: Snapshot)
      returns (ok: bool)
      requires Undoes(changes, before.dropins, dropins) && LongRunningOnly(running)
      modifies this`running, this`db, this`everIncompatible, this`dropins, this`python, this`next, this`rust, this`loaded
      ensures ok ==> RolledBackCode(before.dropins, View(), previous, previousRust)
      ensures ok ==> RolledBackDatabase(old(db), db, needsMigration)
      ensures needsMigration && Compatible(old(running), old(db.revision), target)
              && Startable(before.dropins, PreviousLink(previous), previousRust, LONG_RUNNING, Old, target)
              ==> everIncompatible == old(everIncompatible)
    {
      hide Compatible, Startable, Undoes, StartedFrom, CodeOf, LongRunningOnly, RolledBackDatabase, Grown;
      ok := Halt();
      if !ok { return; }
      ghost var halted := db;
      if needsMigration {
        ok := MigrateBack();
      }
      if !ok { return; }
      ghost var migrated := db;
      ok := RestoreCode(changes, previous, previousRust, before.dropins);
      if !ok { return; }
      ok := Restart();
      RollbackKeepsRows(old(db), halted, migrated, db, needsMigration);
    }

    // previous.json: opening it may fail and leaves it alone; once open it is empty until it is written.
    method WriteRecord(next: Record) returns (ok: bool)
      requires !recordTruncated && retireReached
      modifies this`record, this`recordTruncated
      ensures ok ==> record == Some(next)
      ensures !ok ==> RecordAs(old(record))
    {
      ok := *;
      if !ok { return; }
      record, recordTruncated := None, true;
      ok := *;
      if !ok { return; }
      record := Some(next);
    }

    method Compensate(needsMigration: bool, changes: map<Unit, Option<DropIn>>, ghost units: set<Unit>, ghost before: Snapshot,
                      previous: Code, previousRust: Code) returns (ok: bool)
      requires Undoes(changes, before.dropins, dropins) && LongRunningOnly(running)
      requires previous == PreviousCode(before.python) && previousRust == before.rust
      modifies this`running, this`db, this`everIncompatible, this`dropins, this`python, this`next, this`rust, this`loaded
      ensures ok ==> RolledBackCode(before.dropins, View(), previous, previousRust)
      ensures ok && DatabaseMidway(before.db, old(db), needsMigration) ==> DatabaseAsBefore(before.db, db, needsMigration)
      ensures needsMigration && Compatible(old(running), old(db.revision), target) && CleanStart(before, units, target)
              ==> everIncompatible == old(everIncompatible)
    {
      hide Compatible, Startable, Undoes, CodeOf, LongRunningOnly, RolledBackDatabase, RolledBackCode, CleanStart, DatabaseMidway, DatabaseAsBefore;
      ghost var found := db;
      if CleanStart(before, units, target) {
        CleanIsRestartable(before, units, target);
      }
      ok := Rollback(needsMigration, changes, previous, previousRust, before);
      if ok && DatabaseMidway(before.db, found, needsMigration) {
        DatabaseRolledBack(before.db, found, db, needsMigration);
      }
    }

    ghost method Begin()
      modifies this`retireReached, this`weeklyDisabled, this`recordTruncated
      ensures !retireReached && !weeklyDisabled && !recordTruncated
      ensures EnabledAs(enabled) && RecordAs(record)
    {
      retireReached, weeklyDisabled, recordTruncated := false, false, false;
    }

    // Forward, and the record of it.
    method Forward(needsMigration: bool, units: set<Unit>, names: set<Timer>, sha: string)
      returns (ok: bool, changes: map<Unit, Option<DropIn>>)
      requires LongRunningOnly(running)
      modifies this`timers, this`enabled, this`running, this`db, this`everIncompatible, this`restoreFailed,
               this`dropins, this`python, this`next, this`rust, this`loaded, this`record,
               this`retireReached, this`weeklyDisabled, this`recordTruncated
      ensures Undoes(changes, old(dropins), dropins) && LongRunningOnly(running)
      ensures old(restoreFailed) ==> restoreFailed
      ensures !restoreFailed ==> DatabaseMidway(old(db), db, needsMigration)
      ensures TimersMidway(old(timers), timers, names)
      ensures !ok ==> EnabledAs(old(enabled)) && RecordAs(old(record))
      ensures ok ==> CutOver(old(View()), View(), needsMigration, units, sha, target)
      ensures ok ==> Recorded(record, old(View()), View(), needsMigration, sha) && WeeklyGone()
      ensures needsMigration && CleanStart(old(View()), units, target) ==>
        everIncompatible == old(everIncompatible) && Compatible(running, db.revision, target)
    {
      hide Compatible, Undoes, CutOver, DatabaseMidway, TimersMidway, LongRunningOnly, CleanStart, EnabledAs, BackedUp, WeeklyGone;
      var previous, previousRust := PreviousCode(python), rust;
      Begin();
      var backup;
      ok, changes, backup := Advance(needsMigration, units, names, sha);
      if ok {
        ok := WriteRecord(Record(previous, previousRust, sha, backup, changes));
      }
    }

    // Forward, else compensate.
    method Attempt(needsMigration: bool, units: set<Unit>, names: set<Timer>, sha: string)
      returns (succeeded: bool, compensated: bool)
      requires LongRunningOnly(running)
      modifies this`timers, this`enabled, this`running, this`db, this`everIncompatible, this`restoreFailed,
               this`dropins, this`python, this`next, this`rust, this`loaded, this`record,
               this`retireReached, this`weeklyDisabled, this`recordTruncated
      ensures succeeded ==>
        && CutOver(old(View()), View(), needsMigration, units, sha, target)
        && Recorded(record, old(View()), View(), needsMigration, sha) && WeeklyGone()
      ensures !succeeded && compensated ==> RolledBackCode(old(dropins), View(), PreviousCode(old(python)), old(rust))
      ensures !succeeded && compensated && !restoreFailed ==> DatabaseAsBefore(old(db), db, needsMigration)
      ensures !succeeded ==> EnabledAs(old(enabled)) && RecordAs(old(record))
      ensures TimersMidway(old(timers), timers, names) && (old(restoreFailed) ==> restoreFailed)
      ensures needsMigration && CleanStart(old(View()), units, target) ==> everIncompatible == old(everIncompatible)
    {
      hide Compatible, Undoes, CutOver, DatabaseMidway, TimersMidway, RolledBackCode, DatabaseAsBefore, LongRunningOnly,
           CleanStart, EnabledAs, RecordAs, Recorded, WeeklyGone;
      var previous, previousRust := PreviousCode(python), rust;
      ghost var before := View();
      var changes;
      succeeded, changes := Forward(needsMigration, units, names, sha);
      compensated := false;
      if !succeeded {
        compensated := Compensate(needsMigration, changes, units, before, previous, previousRust);
      }
    }

    // The guarded part; and in either case the timers start again.
    method Deploy(needsMigration: bool, units: set<Unit>, names: set<Timer>, sha: string) returns (r: Outcome)
      requires LongRunningOnly(running) && names <= timers
      modifies this`timers, this`enabled, this`running, this`db, this`everIncompatible, this`restoreFailed,
               this`dropins, this`python, this`next, this`rust, this`loaded, this`record,
               this`retireReached, this`weeklyDisabled, this`recordTruncated
      ensures r.Deployed? || r.RolledBack? || r.RollbackFailed? || r.TimersDown?
      ensures r == Deployed || r == TimersDown(true) ==>
        && CutOver(old(View()), View(), needsMigration, units, sha, target)
        && Recorded(record, old(View()), View(), needsMigration, sha) && WeeklyGone()
      ensures r == Deployed ==> timers - {WeeklyBacktest} == old(timers) - {WeeklyBacktest}
      ensures r == RolledBack || r == TimersDown(false) ==>
        RolledBackCode(old(dropins), View(), PreviousCode(old(python)), old(rust))
      ensures (r == RolledBack || r == TimersDown(false)) && !restoreFailed ==> DatabaseAsBefore(old(db), db, needsMigration)
      ensures r == RolledBack ==> TimersAsBefore(old(timers), timers, names)
      // what a failed deployment leaves behind, exactly
      ensures r == RolledBack || r == TimersDown(false) || r == RollbackFailed ==>
        EnabledAs(old(enabled)) && RecordAs(old(record))
      ensures needsMigration && CleanStart(old(View()), units, target) ==> everIncompatible == old(everIncompatible)
      ensures old(restoreFailed) ==> restoreFailed
      ensures r == RolledBack || r == TimersDown(false) || r == RollbackFailed ==>
        && (enabled == old(enabled) || enabled == old(enabled) - {WeeklyBacktest})
        && (record == old(record) || record == None)
    {
      hide Compatible, Undoes, CutOver, TimersMidway, RolledBackCode, DatabaseAsBefore, TimersAsBefore, LongRunningOnly, CleanStart,
           Recorded;
      ghost var before := View();
      var succeeded, compensated := Attempt(needsMigration, units, names, sha);
      ghost var settled := View();
      var restart := if succeeded then names - {WeeklyBacktest} else names;
      var timersOk := StartTimers(restart);
      SameExceptTimers(before, settled, View(), needsMigration, units, sha, target);
      if timersOk && succeeded {
        TimersKeptOn(before.timers, settled.timers, timers, names);
      } else if timersOk {
        TimersRestarted(before.timers, settled.timers, timers, names);
      }
      r := if succeeded then (if timersOk then Deployed else TimersDown(true))
           else if !compensated then RollbackFailed
           else if timersOk then RolledBack else TimersDown(false);
    }

    // The target is installed: it is healthy, or an operator has to look; only the research timer changes.
    method AlreadyThere() returns (r: Outcome)
      modifies this`timers, this`enabled, this`retireReached, this`weeklyDisabled
      ensures r == Refused || r == AlreadyDeployed
      ensures r == AlreadyDeployed ==> WeeklyGone() && running.Keys == LONG_RUNNING
    {
      var healthy: bool := *;
      if running.Keys != LONG_RUNNING || !healthy {
        return Refused;
      }
      var retired := RetireResearchTimer();
      return if retired then AlreadyDeployed else Refused;
    }

    /** Deploys the target release, or puts everything back. */
    method Install(sha: string, schemaBefore: map<string, string>, schemaAfter: map<string, string>,
                   units: set<Unit>, listed: set<Timer>)
      returns (r: Outcome)
      modifies this
      ensures r == Refused && old(python) != Some(Release(sha)) ==> View() == old(View()) && record == old(record)
      ensures r == AlreadyDeployed ==> old(python) == Some(Release(sha)) && old(running).Keys == LONG_RUNNING
      ensures old(python) == Some(Release(sha)) ==> CodeAsBefore(old(View()), View()) && db == old(db) && record == old(record)
      ensures r == Deployed || r == TimersDown(true) ==>
        && CutOver(old(View()), View(), ReviewedMigration(schemaBefore, schemaAfter) == ReviewedChange, units, sha, Release(sha))
        // the record leads back to the code before, and to a backup with every row exactly if there was a migration
        && Recorded(record, old(View()), View(), ReviewedMigration(schemaBefore, schemaAfter) == ReviewedChange, sha)
      // success retires the weekly timer and starts every other one again
      ensures (r == Deployed || r == TimersDown(true) || r == AlreadyDeployed ==> WeeklyGone()) && weeklyKnown == old(weeklyKnown)
      ensures r == Deployed ==> timers - {WeeklyBacktest} == old(timers) - {WeeklyBacktest}
      // exact rollback
      ensures (r == RolledBack || r == TimersDown(false)) && old(Settled(View())) ==>
        CodeAsBefore(old(View()), View()) && (python == old(python) <==> old(python) != Some(Legacy))
      ensures (r == RolledBack || r == TimersDown(false)) && !restoreFailed ==>
        DatabaseAsBefore(old(db), db, ReviewedMigration(schemaBefore, schemaAfter) == ReviewedChange)
      // with a migration, the revision is as before exactly when it was the old one
      ensures (r == RolledBack || r == TimersDown(false)) && !restoreFailed && ReviewedMigration(schemaBefore, schemaAfter) == ReviewedChange ==>
        db.revision == Old && (db.revision == old(db.revision) <==> old(db.revision) == Old)
      ensures r == RolledBack ==>
        TimersAsBefore(old(timers), timers, listed * old(timers))
      // a failed deployment loses the weekly timer's enablement exactly if it had disabled it, and the record of
      // the deployment before exactly if it had opened it; and neither before it reached the retiring of the timer
      ensures r == RolledBack || r == TimersDown(false) || r == RollbackFailed ==> EnabledAs(old(enabled)) && RecordAs(old(record))
      ensures r == RolledBack || r == TimersDown(false) || r == RollbackFailed ==>
        && (enabled == old(enabled) || enabled == old(enabled) - {WeeklyBacktest})
        && (record == old(record) || record == None)
      // what one deployment leaves to the next
      ensures r != RollbackFailed && old(Settled(View())) ==> Settled(View())
      ensures r != RollbackFailed && !restoreFailed ==> NoRowLost(old(db), db)
      ensures old(restoreFailed) ==> restoreFailed
      // a schema change outside the review never gets past the start
      ensures ReviewedMigration(schemaBefore, schemaAfter) == Rejected && old(python) != Some(Release(sha)) ==> r == Refused
      // compatibility at every step, whatever the outcome
      ensures ReviewedMigration(schemaBefore, schemaAfter) == ReviewedChange && old(CleanStart(View(), units, Release(sha))) ==>
        everIncompatible == old(everIncompatible)
    {
      hide Compatible, CutOver, Undoes, CodeOf, RolledBackCode, TimersAsBefore, MaybeRetired, CleanStart, NoRowLost, Settled,
           CodeAsBefore, DatabaseAsBefore, EnabledAs, RecordAs, Recorded, ReviewedMigration, WeeklyGone,
           PreviousCode, LongRunningOnly;
      target := Release(sha);
      ghost var before := View();
      Unchanged(before, View());
      r := Refused;
      var review := ReviewedMigration(schemaBefore, schemaAfter);
      if python == Some(target) {
        r := AlreadyThere();
        Unchanged(before, View());
      } else if review != Rejected && running.Keys == LONG_RUNNING {
        RunningIsLongRunning(running);
        var ready: bool := *;     // no scheduled job is running and the Rust bundle was copied
        if ready {
          r := Deploy(review == ReviewedChange, units, listed * timers, sha);
          DeployedMeans(before, View(), review == ReviewedChange, units, sha);
        }
      }
    }

    // What the states a deployment ends in are to the next.
    lemma DeployedMeans(before: Snapshot, after: Snapshot, needsMigration: bool, units: set<Unit>, sha: string)
      ensures CutOver(before, after, needsMigration, units, sha, target) ==> Settled(after) && NoRowLost(before.db, after.db)
      ensures RolledBackCode(before.dropins, after, PreviousCode(before.python), before.rust) ==>
        Settled(after) && (Settled(before) ==> CodeAsBefore(before, after) && (after.python == before.python <==> before.python != Some(Legacy)))
      ensures DatabaseAsBefore(before.db, after.db, needsMigration) ==>
        NoRowLost(before.db, after.db)
        && (needsMigration ==> after.db.revision == Old && (after.db.revision == before.db.revision <==> before.db.revision == Old))
    {
      hide CutOver, RolledBackCode, Settled, CodeAsBefore, DatabaseAsBefore, NoRowLost;
      if CutOver(before, after, needsMigration, units, sha, target) {
        CutOverIsSettled(before, after, needsMigration, units, sha, target);
      }
      if RolledBackCode(before.dropins, after, PreviousCode(before.python), before.rust) {
        RolledBackIsSettled(before.dropins, after, PreviousCode(before.python), before.rust);
        if Settled(before) {
          RolledBackIsAsBefore(before, after);
        }
      }
      if DatabaseAsBefore(before.db, after.db, needsMigration) {
        DatabaseAsBeforeMeans(before.db, after.db, needsMigration);
      }
    }

    /** Deployments one after the other, with rows committed in between, until one cannot be rolled back.  Each
        but that one leaves a settled machine to the next, so that a migration at the old revision, to a release
        that no unit runs yet and with every Python unit redirected, never mixes code and schema; and no row is
        ever lost as long as every backup that was needed could be restored. */
    method Deployments(requests: seq<Request>) returns (outcomes: seq<Outcome>, ghost starts: seq<Snapshot>, ghost mixed: seq<bool>)
      requires Settled(View()) && !restoreFailed
      modifies this
      ensures |outcomes| == |starts| == |mixed| <= |requests|
      ensures forall i :: 0 <= i < |outcomes| - 1 ==> outcomes[i] != RollbackFailed
      ensures |outcomes| < |requests| ==> outcomes != [] && outcomes[|outcomes| - 1] == RollbackFailed
      ensures forall i :: 0 <= i < |starts| ==> Settled(starts[i])
      ensures forall i :: 0 <= i < |starts| && CleanRequest(requests[i], starts[i]) ==> !mixed[i]
      ensures !restoreFailed ==> forall i :: 0 <= i < |starts| ==> NoRowLost(old(db), starts[i].db)
      ensures outcomes == [] || outcomes[|outcomes| - 1] != RollbackFailed ==>
        Settled(View()) && (!restoreFailed ==> NoRowLost(old(db), db))
    {
      hide Settled, NoRowLost, CleanRequest;
      outcomes, starts, mixed := [], [], [];
      RowsStay(db);
      var failed := false;
      while |outcomes| < |requests| && !failed
        invariant |outcomes| == |starts| == |mixed| <= |requests|
        invariant failed <==> outcomes != [] && outcomes[|outcomes| - 1] == RollbackFailed
        invariant forall i :: 0 <= i < |outcomes| - 1 ==> outcomes[i] != RollbackFailed
        invariant forall i :: 0 <= i < |starts| ==> Settled(starts[i])
        invariant forall i :: 0 <= i < |starts| && CleanRequest(requests[i], starts[i]) ==> !mixed[i]
        invariant !restoreFailed ==> forall i :: 0 <= i < |starts| ==> NoRowLost(old(db), starts[i].db)
        invariant !failed ==> Settled(View()) && (!restoreFailed ==> NoRowLost(old(db), db))
        decreases |requests| - |outcomes|, !failed
      {
        ghost var left := db;
        var r, start, incompatible := Next(requests[|outcomes|]);
        RowsChain(old(db), left, start.db);
        if r != RollbackFailed && !restoreFailed {
          RowsChain(old(db), start.db, db);
        }
        starts, mixed, outcomes := starts + [start], mixed + [incompatible], outcomes + [r];
        failed := r == RollbackFailed;
      }
    }

    // Rows committed since the last deployment, and then the next one.
    method Next(request: Request) returns (r: Outcome, ghost start: Snapshot, ghost incompatible: bool)
      requires Settled(View())
      modifies this
      ensures Settled(start) && (r != RollbackFailed ==> Settled(View()))
      ensures CleanRequest(request, start) ==> !incompatible
      ensures NoRowLost(old(db), start.db)
      ensures r != RollbackFailed && !restoreFailed ==> NoRowLost(start.db, db)
      ensures old(restoreFailed) ==> restoreFailed
    {
      hide Settled, CleanRequest, CleanStart, CutOver, CodeAsBefore, DatabaseAsBefore, TimersAsBefore, EnabledAs, RecordAs, Recorded;
      ghost var left := View();
      Writers();
      weeklyKnown := *;
      MoreRowsSettled(left, View());
      start := View();
      everIncompatible := false;
      RequestIsClean(request, start);
      r := Install(request.sha, request.schemaBefore, request.schemaAfter, request.units, request.listed);
      incompatible := everIncompatible;
    }
  }

  datatype Request = Request(sha: string, schemaBefore: map<string, string>, schemaAfter: map<string, string>,
                             units: set<Unit>, listed: set<Timer>)

  // A migration from the old revision, to a release that nothing runs yet, that redirects every Python unit.
  predicate CleanRequest(request: Request, s: Snapshot) {
    && ReviewedMigration(request.schemaBefore, request.schemaAfter) == ReviewedChange
    && s.db.revision == Old && PYTHON_UNITS <= request.units
    && forall u :: u in s.running ==> s.running[u] != Release(request.sha)
  }

  lemma RequestIsClean(request: Request, s: Snapshot)
    ensures CleanRequest(request, s) && Settled(s) ==>
      ReviewedMigration(request.schemaBefore, request.schemaAfter) == ReviewedChange && CleanStart(s, request.units, Release(request.sha))
  {
    hide Settled;
  }

  lemma RunningIsLongRunning(running: map<Unit, Code>)
    requires running.Keys == LONG_RUNNING
    ensures LongRunningOnly(running)
  {
  }

  lemma RowsStay(db: Database)
    ensures NoRowLost(db, db)
  {
  }

  // The timers are no part of what a machine settles.
  lemma Unchanged(a: Snapshot, b: Snapshot)
    requires b == a.(timers := b.timers, enabled := b.enabled)
    ensures CodeAsBefore(a, b) && (Settled(a) ==> Settled(b)) && NoRowLost(a.db, b.db)
  {
  }

  lemma DatabaseAsBeforeMeans(before: Database, after: Database, needsMigration: bool)
    requires DatabaseAsBefore(before, after, needsMigration)
    ensures NoRowLost(before, after)
    ensures needsMigration ==> after.revision == Old && (after.revision == before.revision <==> before.revision == Old)
  {
  }

  lemma RowsChain(a: Database, b: Database, c: Database)
    requires NoRowLost(b, c)
    ensures NoRowLost(a, b) ==> NoRowLost(a, c)
  {
  }

  lemma MoreRowsSettled(a: Snapshot, b: Snapshot)
    requires b == a.(db := b.db)
    ensures Settled(a) ==> Settled(b)
  {
  }

  lemma CutOverIsSettled(before: Snapshot, after: Snapshot, needsMigration: bool, units: set<Unit>, sha: string, target: Code)
    requires CutOver(before, after, needsMigration, units, sha, target)
    ensures Settled(after) && NoRowLost(before.db, after.db)
  {
  }

  lemma RolledBackIsSettled(dropins: map<Unit, DropIn>, after: Snapshot, previous: Code, previousRust: Code)
    requires RolledBackCode(dropins, after, previous, previousRust)
    ensures Settled(after)
  {
  }
}
