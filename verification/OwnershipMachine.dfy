/** Ownership transfer (src/sot_graph/cbm.py) as a state machine. */
module OwnershipMachine {
  import opened CbmStore

  // The steps are the atomic effects of reconcile_dispatch and publish_store: one engine commit, one
  // snapshot rename, one journal row. A crash, a change of the working tree, or a reader may come between
  // any two steps. There is one writer.

  /** Where the writer is. The last two phases carry what the run has read and has still to do. */
  datatype Phase =
    | Idle
    | Indexed                   // the engine committed, nothing published yet
    | Copying(source: Store)    // published.db.tmp is open, the backup is in flight
    | Copied                    // published.db.tmp holds the whole backup
    | PublishFailed             // the error path: published.db.tmp is to be unlinked
    | Resolving                 // publishing is over, find_cbm_db comes next
    | Scanning(covered: set<string>)
    | GapFilling(covered: set<string>, todo: set<string>)
    | Purging(covered: set<string>, rows: set<string>)

  datatype Read = Read(resolved: Resolved, afterPublish: bool)

  datatype World = World(
    disk: set<string>,          // canonical locations that exist
    journal: set<string>,       // spellings that own sot rows
    cache: seq<DbFile>,         // the engine's databases, in listing order
    tmp: Option<DbFile>,        // published.db.tmp
    published: Option<DbFile>,  // published.db
    hint: string,               // project name the last index run reported
    phase: Phase,
    filled: set<string>,        // paths gap-filled in this run
    purged: set<string>,        // journal spellings purged in this run
    reappeared: set<string>,    // locations that came into being after this run purged a row of theirs
    committed: seq<Store>,      // every generation the engine ever committed
    everPublished: bool,
    seen: seq<Read>)

  /** How the commit of a parsed file ends. Any exception in it is caught, a busy lock included. */
  datatype Commit = Accepted | Conflicting | GateBusy | CommitRaises

  /** What reconciling one gap path finds. Deletes take the publication gate outside any handler, so
      there `busy` surfaces as LockBusy. `sameHash` compares with whatever row the journal lookup returns,
      which need not be the path's own; see JournalLookup. */
  datatype Answer =
    | Gone(busy: bool) | Unsupported(busy: bool) | ParseFails | Parses(sameHash: bool, commit: Commit) | Raises

  datatype Outcome = Deleted | Excluded | Error | Unchanged | Conflict | Published | Raised | Deferred

  /** Reconciler.reconcile_path on a canonical, existing path of the scan. */
  function ReconcileOutcome(answer: Answer): Outcome {
    match answer
    case Gone(busy) => if busy then Deferred else Deleted
    case Unsupported(busy) => if busy then Deferred else Excluded
    case ParseFails => Error
    case Parses(same, commit) =>
      if same then Unchanged
      else (match commit
            case Accepted => Outcome.Published
            case Conflicting => Conflict
            case GateBusy => Error
            case CommitRaises => Error)
    case Raises => Raised
  }

  /** The reconcile runs into a held write lock, at a delete or at the commit. */
  predicate MeetsBusyLock(answer: Answer) {
    BusyAtDelete(answer) || BusyAtCommit(answer)
  }

  predicate BusyAtDelete(answer: Answer) {
    (answer.Gone? || answer.Unsupported?) && answer.busy
  }

  predicate BusyAtCommit(answer: Answer) {
    answer.Parses? && answer.commit.GateBusy? && !answer.sameHash
  }

  /** The journal after that outcome: rows are dropped under both spellings, written under one. */
  function AfterOutcome(fs: FileSystem, journal: set<string>, path: string, outcome: Outcome): set<string> {
    match outcome
    case Deleted => journal - {path, fs.relative(path)}
    case Excluded => journal - {path, fs.relative(path)}
    case Published => journal + {path}
    case _ => journal
  }

  /** The path has a row of its own that is up to date. */
  predicate Filled(journal: set<string>, path: string, outcome: Outcome) {
    outcome.Published? || (outcome.Unchanged? && path in journal)
  }

  /** The purge test: the row's path is covered by the engine or gone from disk. */
  predicate Stale(fs: FileSystem, disk: set<string>, covered: set<string>, row: string) {
    fs.Locate(row) in covered || fs.Locate(row) !in disk
  }

  datatype Action =
    | EngineCommit(slot: nat, added: bool, store: Store, hint: string)
    | BuiltinReconcile(journal: set<string>)
    | NothingLive
    | OpenCopy
    | BackupDone
    | PublishFault
    | Unlink(ok: bool)
    | Replace
    | ReadCoverage(readable: bool)
    | Scan(scan: set<string>)
    | FillGap(path: string, answer: Answer)
    | ListJournal
    | PurgeRow(row: string, ok: bool)
    | Finish
    | Crash
    | ChangeDisk(disk: set<string>)
    | Query

  function Resolve(fs: FileSystem, w: World): Resolved {
    FindCbmDb(fs, w.published, w.cache)
  }

  /** What the store readers resolve to at this moment covers. */
  function Covers(fs: FileSystem, w: World): set<string> {
    ResolvedCoverage(fs, Resolve(fs, w), w.hint)
  }

  ghost predicate Enabled(fs: FileSystem, w: World, a: Action) {
    match a
    case EngineCommit(slot, added, store, _) =>
      && w.phase.Idle?
      && (slot < |w.cache| || (added && slot == |w.cache|))
      && store.generation == |w.committed| && KeepsBinding(fs, w.cache, slot, added, store)
    case BuiltinReconcile(_) => w.phase.Idle?
    case NothingLive => w.phase.Indexed? && LiveCbmDb(fs, w.cache).None?
    case OpenCopy => w.phase.Indexed? && LiveCbmDb(fs, w.cache).Some?
    case BackupDone => w.phase.Copying?
    case PublishFault =>
      (w.phase.Indexed? && LiveCbmDb(fs, w.cache).Some?) || w.phase.Copying? || w.phase.Copied?
    case Unlink(_) => w.phase.PublishFailed?
    case Replace => w.phase.Copied? && w.tmp.Some?
    case ReadCoverage(_) => w.phase.Resolving?
    case Scan(scan) => w.phase.Scanning? && forall p :: p in scan ==> fs.isAbs(p) && fs.realpath(p) in w.disk
    case FillGap(path, _) => w.phase.GapFilling? && path in w.phase.todo
    case ListJournal => w.phase.GapFilling? && w.phase.todo == {}
    case PurgeRow(row, _) => w.phase.Purging? && row in w.phase.rows
    case Finish => w.phase.Purging? && w.phase.rows == {}
    case Crash => true
    case ChangeDisk(_) => true
    case Query => true
  }

  function Gaps(fs: FileSystem, scan: set<string>, covered: set<string>): set<string> {
    set p | p in scan && fs.realpath(p) !in covered
  }

  ghost function Next(fs: FileSystem, w: World, a: Action): World
    requires Enabled(fs, w, a)
  {
    match a
    case EngineCommit(slot, added, store, hint) =>
      w.(cache := WithCommit(w.cache, slot, added, store), committed := w.committed + [store], hint := hint,
         phase := Indexed, filled := {}, purged := {}, reappeared := {})
    case BuiltinReconcile(journal) => w.(journal := journal)
    case NothingLive => w.(phase := Resolving)
    case OpenCopy => w.(tmp := Some(Partial), phase := Copying(LiveCbmDb(fs, w.cache).value))
    case BackupDone => w.(tmp := Some(Complete(w.phase.source)), phase := Copied)
    case PublishFault => w.(phase := PublishFailed)
    case Unlink(ok) => w.(tmp := if ok then None else w.tmp, phase := Resolving)
    case Replace => w.(published := w.tmp, tmp := None, phase := Resolving, everPublished := true)
    case ReadCoverage(readable) => w.(phase := Scanning(if readable then Covers(fs, w) else {}))
    case Scan(scan) => w.(phase := GapFilling(w.phase.covered, Gaps(fs, scan, w.phase.covered)))
    case FillGap(path, answer) =>
      var outcome := ReconcileOutcome(answer);
      w.(journal := AfterOutcome(fs, w.journal, path, outcome),
         filled := if Filled(w.journal, path, outcome) then w.filled + {path} else w.filled,
         phase := GapFilling(w.phase.covered, w.phase.todo - {path}))
    case ListJournal => w.(phase := Purging(w.phase.covered, w.journal))
    case PurgeRow(row, ok) =>
      var hit := ok && Stale(fs, w.disk, w.phase.covered, row);
      w.(journal := if hit then w.journal - {row} else w.journal,
         purged := if hit then w.purged + {row} else w.purged,
         phase := Purging(w.phase.covered, w.phase.rows - {row}))
    case Finish => w.(phase := Idle)
    case Crash => w.(phase := Idle)
    case ChangeDisk(disk) =>
      w.(disk := disk, reappeared := w.reappeared + (disk - w.disk) * (set row | row in w.purged :: fs.Locate(row)))
    case Query => w.(seen := w.seen + [Read(Resolve(fs, w), w.everPublished)])
  }

  ghost predicate Legal(fs: FileSystem, start: World, run: seq<Action>)
    ensures Legal(fs, start, run) && run != [] ==> Legal(fs, start, run[..|run| - 1])
    decreases |run|, 0
  {
    run == [] || (var prefix := run[..|run| - 1];
                  Legal(fs, start, prefix) && Enabled(fs, After(fs, start, prefix), run[|run| - 1]))
  }

  ghost function After(fs: FileSystem, start: World, run: seq<Action>): World
    requires Legal(fs, start, run)
    decreases |run|, 1
  {
    if run == [] then start
    else Next(fs, After(fs, start, run[..|run| - 1]), run[|run| - 1])
  }

  /** `run` leads legally from `start` to `w`. The body is only looked at where the run is
      mentioned as Opened: code that merely extends a run has no use for its past steps. */
  ghost predicate Reaches(fs: FileSystem, start: World, run: seq<Action>, w: World) {
    forall r {:trigger Opened(r)} :: Opened(r) && r == run ==> Legal(fs, start, r) && After(fs, start, r) == w
  }

  ghost predicate Opened(run: seq<Action>) {
    true
  }

  lemma ReachesMeans(fs: FileSystem, start: World, run: seq<Action>, w: World)
    ensures Reaches(fs, start, run, w) <==> Legal(fs, start, run) && After(fs, start, run) == w
  {
    assert Opened(run);
  }

  lemma ReachesStep(fs: FileSystem, start: World, run: seq<Action>, w: World, a: Action)
    requires Reaches(fs, start, run, w) && Enabled(fs, w, a)
    ensures Reaches(fs, start, run + [a], Next(fs, w, a))
  {
    ReachesMeans(fs, start, run, w);
    assert (run + [a])[..|run + [a]| - 1] == run;
    ReachesMeans(fs, start, run + [a], Next(fs, w, a));
  }

  // ---- The invariant ----------------------------------------------------------------

  /** A file that reads as a database holds a generation the engine really committed. */
  predicate Genuine(w: World, file: DbFile) {
    file.Complete? ==> file.store.generation < |w.committed| && w.committed[file.store.generation] == file.store
  }

  ghost predicate StoresGenuine(w: World) {
    && (forall i :: 0 <= i < |w.committed| ==> w.committed[i].generation == i)
    && (forall i :: 0 <= i < |w.cache| ==> Genuine(w, w.cache[i]))
    && (w.tmp.Some? ==> Genuine(w, w.tmp.value))
  }

  /** The snapshot is whole, genuine, bound to the root, and not ahead of the live store. */
  ghost predicate SnapshotSound(fs: FileSystem, w: World) {
    && (w.everPublished ==> w.published.Some?)
    && (w.published.Some? ==>
          && DbBindsRoot(fs, w.published.value) && Genuine(w, w.published.value)
          && (LiveCbmDb(fs, w.cache).Some? ==>
                w.published.value.store.generation <= LiveCbmDb(fs, w.cache).value.generation))
  }

  /** A copy on its way to becoming the snapshot is a copy of the live store. */
  ghost predicate CopySound(fs: FileSystem, w: World) {
    && (w.phase.Copying? ==> LiveCbmDb(fs, w.cache) == Some(w.phase.source))
    && (w.phase.Copied? ==> LiveCbmDb(fs, w.cache).Some? && w.tmp == Some(Complete(LiveCbmDb(fs, w.cache).value)))
  }

  /** What readers were given: genuine, bound, never older than before, never live once published. */
  ghost predicate ReadsSound(fs: FileSystem, w: World) {
    && (forall i :: 0 <= i < |w.seen| ==> ReadSound(fs, w, w.seen[i]))
    && (forall i, j :: 0 <= i < j < |w.seen| && w.seen[i].resolved.Published? && w.seen[j].resolved.Published? ==>
          w.seen[i].resolved.store.generation <= w.seen[j].resolved.store.generation)
  }

  ghost predicate ReadSound(fs: FileSystem, w: World, r: Read) {
    && (r.resolved != NoStore ==> StoreBinds(fs, r.resolved.store) && Genuine(w, Complete(r.resolved.store)))
    && (r.afterPublish ==> r.resolved.Published?)
    && (r.resolved.Published? ==>
          w.published.Some? && w.published.value.Complete?
          && r.resolved.store.generation <= w.published.value.store.generation)
  }

  /** What the run believes covered is covered by the store readers resolve to now. */
  ghost predicate CoverageSound(fs: FileSystem, w: World) {
    && (w.phase.Scanning? || w.phase.GapFilling? || w.phase.Purging? ==> w.phase.covered <= Covers(fs, w))
    && (w.phase.GapFilling? || w.phase.Purging? ==>
          forall p :: p in w.filled ==> fs.isAbs(p) && fs.realpath(p) !in w.phase.covered)
    && (w.phase.GapFilling? ==> forall p :: p in w.phase.todo ==> fs.isAbs(p) && fs.realpath(p) !in w.phase.covered)
    && (!w.phase.Idle? && !w.phase.Purging? ==> w.purged == {})
    && (!w.phase.Idle? && !w.phase.GapFilling? && !w.phase.Purging? ==> w.filled == {})
  }

  predicate GoneOrBack(fs: FileSystem, w: World, row: string) {
    fs.Locate(row) !in w.disk || fs.Locate(row) in w.reappeared
  }

  /** Nothing is orphaned by a purge, and no fresh gap fill is undone by one. */
  ghost predicate PurgeSound(fs: FileSystem, w: World) {
    && (forall row :: row in w.purged ==> fs.Locate(row) in Covers(fs, w) || GoneOrBack(fs, w, row))
    && (forall row :: row in w.purged && row in w.filled ==> GoneOrBack(fs, w, row))
  }

  ghost predicate Inv(fs: FileSystem, w: World) {
    && StoresGenuine(w) && SnapshotSound(fs, w) && CopySound(fs, w)
    && ReadsSound(fs, w) && CoverageSound(fs, w) && PurgeSound(fs, w)
  }

  /** A checkout the engine never saw: no store, no snapshot, no readers yet, any journal. */
  ghost predicate Init(w: World) {
    && w.cache == [] && w.tmp.None? && w.published.None? && w.phase.Idle?
    && w.filled == {} && w.purged == {} && w.reappeared == {} && w.committed == [] && w.seen == [] && !w.everPublished
  }

  // ---- Every step keeps it ----------------------------------------------------------

  lemma CommitKeepsStores(fs: FileSystem, w: World, a: Action)
    requires StoresGenuine(w) && a.EngineCommit? && Enabled(fs, w, a)
    ensures StoresGenuine(Next(fs, w, a))
  {
    var w' := Next(fs, w, a);
    assert forall f :: Genuine(w, f) ==> Genuine(w', f);
    var k := if a.added then a.slot else a.slot + 1;
    forall i | 0 <= i < |w'.cache| ensures Genuine(w', w'.cache[i]) {
      if i < a.slot {
        assert w'.cache[i] == w'.cache[..a.slot][i] == w.cache[..a.slot][i] == w.cache[i];
      } else if i > a.slot {
        assert w'.cache[i] == w'.cache[a.slot + 1..][i - a.slot - 1] == w.cache[k..][i - a.slot - 1];
      }
    }
  }

  lemma CommitKeepsSnapshot(fs: FileSystem, w: World, a: Action)
    requires StoresGenuine(w) && SnapshotSound(fs, w) && a.EngineCommit? && Enabled(fs, w, a)
    ensures SnapshotSound(fs, Next(fs, w, a))
  {
    CommitMovesLiveForward(fs, w.cache, a.slot, a.added, a.store);
  }

  lemma CommitKeepsReads(fs: FileSystem, w: World, a: Action)
    requires StoresGenuine(w) && ReadsSound(fs, w) && a.EngineCommit? && Enabled(fs, w, a)
    ensures ReadsSound(fs, Next(fs, w, a))
  {
    var w' := Next(fs, w, a);
    forall i | 0 <= i < |w'.seen| ensures ReadSound(fs, w', w'.seen[i]) {
      assert ReadSound(fs, w, w.seen[i]);
    }
  }

  lemma CommitKeepsInv(fs: FileSystem, w: World, a: Action)
    requires Inv(fs, w) && a.EngineCommit? && Enabled(fs, w, a)
    ensures Inv(fs, Next(fs, w, a))
  {
    CommitKeepsStores(fs, w, a);
    CommitKeepsSnapshot(fs, w, a);
    CommitKeepsReads(fs, w, a);
  }

  lemma LiveIsGenuine(fs: FileSystem, w: World)
    requires StoresGenuine(w) && LiveCbmDb(fs, w.cache).Some?
    ensures Genuine(w, Complete(LiveCbmDb(fs, w.cache).value)) && StoreBinds(fs, LiveCbmDb(fs, w.cache).value)
  {
    var live := LiveCbmDb(fs, w.cache).value;
    var i :| 0 <= i < |w.cache| && w.cache[i] == Complete(live) && StoreBinds(fs, live);
    assert Genuine(w, w.cache[i]);
  }

  lemma PublishKeepsInv(fs: FileSystem, w: World, a: Action)
    requires Inv(fs, w) && Enabled(fs, w, a)
    requires a.NothingLive? || a.OpenCopy? || a.BackupDone? || a.PublishFault? || a.Unlink? || a.Replace?
    ensures Inv(fs, Next(fs, w, a))
  {
    var w' := Next(fs, w, a);
    if LiveCbmDb(fs, w.cache).Some? { LiveIsGenuine(fs, w); }
    forall i | 0 <= i < |w'.cache| ensures Genuine(w', w'.cache[i]) { assert Genuine(w, w.cache[i]); }
    forall i | 0 <= i < |w'.seen| ensures ReadSound(fs, w', w'.seen[i]) { assert ReadSound(fs, w, w.seen[i]); }
  }

  lemma TransferKeepsInv(fs: FileSystem, w: World, a: Action)
    requires Inv(fs, w) && Enabled(fs, w, a)
    requires a.ReadCoverage? || a.Scan? || a.FillGap? || a.ListJournal? || a.PurgeRow?
    ensures Inv(fs, Next(fs, w, a))
  {
    var w' := Next(fs, w, a);
    assert Covers(fs, w') == Covers(fs, w);
    forall i | 0 <= i < |w'.cache| ensures Genuine(w', w'.cache[i]) { assert Genuine(w, w.cache[i]); }
    forall i | 0 <= i < |w'.seen| ensures ReadSound(fs, w', w'.seen[i]) { assert ReadSound(fs, w, w.seen[i]); }
    forall row | row in w'.purged ensures fs.Locate(row) in Covers(fs, w') || GoneOrBack(fs, w', row) {
      if row in w.purged { assert fs.Locate(row) in Covers(fs, w) || GoneOrBack(fs, w, row); }
    }
  }

  lemma RestKeepsInv(fs: FileSystem, w: World, a: Action)
    requires Inv(fs, w) && Enabled(fs, w, a)
    requires a.BuiltinReconcile? || a.Finish? || a.Crash?
    ensures Inv(fs, Next(fs, w, a))
  {
    var w' := Next(fs, w, a);
    assert Covers(fs, w') == Covers(fs, w);
    forall i | 0 <= i < |w'.cache| ensures Genuine(w', w'.cache[i]) { assert Genuine(w, w.cache[i]); }
    forall i | 0 <= i < |w'.seen| ensures ReadSound(fs, w', w'.seen[i]) { assert ReadSound(fs, w, w.seen[i]); }
    forall row | row in w'.purged ensures fs.Locate(row) in Covers(fs, w') || GoneOrBack(fs, w', row) {
      assert fs.Locate(row) in Covers(fs, w) || GoneOrBack(fs, w, row);
    }
  }

  lemma ChangeKeepsInv(fs: FileSystem, w: World, a: Action)
    requires Inv(fs, w) && a.ChangeDisk?
    ensures Inv(fs, Next(fs, w, a))
  {
    var w' := Next(fs, w, a);
    assert Covers(fs, w') == Covers(fs, w);
    forall i | 0 <= i < |w'.cache| ensures Genuine(w', w'.cache[i]) { assert Genuine(w, w.cache[i]); }
    forall i | 0 <= i < |w'.seen| ensures ReadSound(fs, w', w'.seen[i]) { assert ReadSound(fs, w, w.seen[i]); }
    forall row | row in w'.purged && GoneOrBack(fs, w, row) ensures GoneOrBack(fs, w', row) {}
  }

  lemma QueryKeepsReads(fs: FileSystem, w: World)
    requires StoresGenuine(w) && SnapshotSound(fs, w) && ReadsSound(fs, w)
    ensures ReadsSound(fs, Next(fs, w, Query))
  {
    var w' := Next(fs, w, Query);
    if LiveCbmDb(fs, w.cache).Some? { LiveIsGenuine(fs, w); }
    forall i | 0 <= i < |w'.seen| ensures ReadSound(fs, w', w'.seen[i]) {
      if i < |w.seen| { assert ReadSound(fs, w, w.seen[i]); }
    }
    forall i, j | 0 <= i < j < |w'.seen| && w'.seen[i].resolved.Published? && w'.seen[j].resolved.Published?
      ensures w'.seen[i].resolved.store.generation <= w'.seen[j].resolved.store.generation
    {
      assert ReadSound(fs, w, w.seen[i]);
    }
  }

  lemma QueryKeepsInv(fs: FileSystem, w: World)
    requires Inv(fs, w)
    ensures Inv(fs, Next(fs, w, Query))
  {
    var w' := Next(fs, w, Query);
    QueryKeepsReads(fs, w);
    assert Covers(fs, w') == Covers(fs, w);
    forall i | 0 <= i < |w'.cache| ensures Genuine(w', w'.cache[i]) { assert Genuine(w, w.cache[i]); }
    forall row | row in w'.purged ensures fs.Locate(row) in Covers(fs, w') || GoneOrBack(fs, w', row) {
      assert fs.Locate(row) in Covers(fs, w) || GoneOrBack(fs, w, row);
    }
  }

  lemma StepKeepsInv(fs: FileSystem, w: World, a: Action)
    requires Inv(fs, w) && Enabled(fs, w, a)
    ensures Inv(fs, Next(fs, w, a))
  {
    match a
    case EngineCommit(_, _, _, _) => CommitKeepsInv(fs, w, a);
    case NothingLive => PublishKeepsInv(fs, w, a);
    case OpenCopy => PublishKeepsInv(fs, w, a);
    case BackupDone => PublishKeepsInv(fs, w, a);
    case PublishFault => PublishKeepsInv(fs, w, a);
    case Unlink(_) => PublishKeepsInv(fs, w, a);
    case Replace => PublishKeepsInv(fs, w, a);
    case ReadCoverage(_) => TransferKeepsInv(fs, w, a);
    case Scan(_) => TransferKeepsInv(fs, w, a);
    case FillGap(_, _) => TransferKeepsInv(fs, w, a);
    case ListJournal => TransferKeepsInv(fs, w, a);
    case PurgeRow(_, _) => TransferKeepsInv(fs, w, a);
    case Query => QueryKeepsInv(fs, w);
    case ChangeDisk(_) => ChangeKeepsInv(fs, w, a);
    case _ => RestKeepsInv(fs, w, a);
  }

  lemma {:induction false} RunKeepsInv(fs: FileSystem, start: World, run: seq<Action>)
    requires Inv(fs, start) && Legal(fs, start, run)
    ensures Inv(fs, After(fs, start, run))
    decreases |run|
  {
    if run != [] {
      RunKeepsInv(fs, start, run[..|run| - 1]);
      StepKeepsInv(fs, After(fs, start, run[..|run| - 1]), run[|run| - 1]);
    }
  }

  // ---- What holds at every step of every run ----------------------------------------

  /** What one step does to the flag, the snapshot and the set of paths that came back. */
  lemma OneStep(fs: FileSystem, w: World, a: Action)
    requires Enabled(fs, w, a)
    ensures w.everPublished || a.Replace? ==> Next(fs, w, a).everPublished
    ensures !a.Replace? ==> Next(fs, w, a).published == w.published
    ensures !a.ChangeDisk? && w.reappeared == {} ==> Next(fs, w, a).reappeared == {}
  {
  }

  lemma {:induction false} PublishedOnceMeansEver(fs: FileSystem, start: World, run: seq<Action>)
    requires Legal(fs, start, run) && (start.everPublished || Replace in run)
    ensures After(fs, start, run).everPublished
    decreases |run|
  {
    if run != [] {
      var prefix := run[..|run| - 1];
      assert run == prefix + [run[|run| - 1]];
      OneStep(fs, After(fs, start, prefix), run[|run| - 1]);
      if start.everPublished || Replace in prefix { PublishedOnceMeansEver(fs, start, prefix); }
    }
  }

  /** Over all interleavings of publishing, failures, crashes and queries, readers of the snapshot
      are given whole committed generations, never an older one than before; whatever they resolve
      to binds the root; and once a snapshot was published no query resolves to the live store. */
  lemma ReadersSeeWholeGenerations(fs: FileSystem, start: World, run: seq<Action>)
    requires Init(start) && Legal(fs, start, run)
    ensures var w := After(fs, start, run);
            && (forall i :: 0 <= i < |w.seen| && w.seen[i].resolved != NoStore ==>
                  StoreBinds(fs, w.seen[i].resolved.store) && w.seen[i].resolved.store in w.committed)
            && (forall i, j :: 0 <= i < j < |w.seen| && w.seen[i].resolved.Published? && w.seen[j].resolved.Published? ==>
                  w.seen[i].resolved.store.generation <= w.seen[j].resolved.store.generation)
            && (forall i :: 0 <= i < |w.seen| && w.seen[i].afterPublish ==> w.seen[i].resolved.Published?)
    ensures Replace in run ==> Resolve(fs, After(fs, start, run)).Published?
  {
    RunKeepsInv(fs, start, run);
    var w := After(fs, start, run);
    forall i | 0 <= i < |w.seen| && w.seen[i].resolved != NoStore
      ensures StoreBinds(fs, w.seen[i].resolved.store) && w.seen[i].resolved.store in w.committed
    {
      assert ReadSound(fs, w, w.seen[i]);
      assert w.committed[w.seen[i].resolved.store.generation] == w.seen[i].resolved.store;
    }
    forall i | 0 <= i < |w.seen| && w.seen[i].afterPublish ensures w.seen[i].resolved.Published? {
      assert ReadSound(fs, w, w.seen[i]);
    }
    if Replace in run { PublishedOnceMeansEver(fs, start, run); }
  }

  /** Without a rename there is no new snapshot: a run whose publishing failed or crashed, at
      whatever point, leaves the previous generation in place. */
  lemma {:induction false} FailedPublishKeepsSnapshot(fs: FileSystem, start: World, run: seq<Action>)
    requires Legal(fs, start, run) && Replace !in run
    ensures After(fs, start, run).published == start.published
    decreases |run|
  {
    if run != [] {
      var prefix := run[..|run| - 1];
      assert run == prefix + [run[|run| - 1]];
      FailedPublishKeepsSnapshot(fs, start, prefix);
      OneStep(fs, After(fs, start, prefix), run[|run| - 1]);
    }
  }

  lemma {:induction false} PrefixIsLegal(fs: FileSystem, start: World, run: seq<Action>, n: nat)
    requires Legal(fs, start, run) && n <= |run|
    ensures Legal(fs, start, run[..n])
    decreases |run|
  {
    if n < |run| {
      assert run[..n] == run[..|run| - 1][..n];
      PrefixIsLegal(fs, start, run[..|run| - 1], n);
    } else {
      assert run[..n] == run;
    }
  }

  ghost predicate NotOlder(before: Option<DbFile>, now: Option<DbFile>) {
    before.Some? && before.value.Complete? ==>
      now.Some? && now.value.Complete? && before.value.store.generation <= now.value.store.generation
  }

  lemma StepNeverGoesBack(fs: FileSystem, w: World, a: Action)
    requires Inv(fs, w) && Enabled(fs, w, a)
    ensures NotOlder(w.published, Next(fs, w, a).published)
  {
    if !a.Replace? { assert Next(fs, w, a).published == w.published; }
  }

  /** The snapshot on disk never goes back to an older generation. */
  lemma {:induction false} SnapshotNeverGoesBack(fs: FileSystem, start: World, run: seq<Action>, n: nat)
    requires Init(start) && Legal(fs, start, run) && n <= |run|
    ensures Legal(fs, start, run[..n])
    ensures NotOlder(After(fs, start, run[..n]).published, After(fs, start, run).published)
    decreases |run|
  {
    PrefixIsLegal(fs, start, run, n);
    if n == |run| {
      assert run[..n] == run;
    } else {
      var prefix := run[..|run| - 1];
      assert run[..n] == prefix[..n];
      SnapshotNeverGoesBack(fs, start, prefix, n);
      RunKeepsInv(fs, start, prefix);
      StepNeverGoesBack(fs, After(fs, start, prefix), run[|run| - 1]);
    }
  }

  /** At every step, crash or not, snapshot or not: a path whose rows the run purged is covered by
      the store readers resolve to at that moment, or is gone from disk, or came back to disk
      after it was purged; and a path gap-filled in the run was purged only in the latter cases. */
  lemma PurgedPathsKeepAnOwner(fs: FileSystem, start: World, run: seq<Action>, row: string)
    requires Init(start) && Legal(fs, start, run) && row in After(fs, start, run).purged
    ensures var w := After(fs, start, run);
            fs.Locate(row) in Covers(fs, w) || fs.Locate(row) !in w.disk || fs.Locate(row) in w.reappeared
    ensures var w := After(fs, start, run);
            row in w.filled ==> fs.Locate(row) !in w.disk || fs.Locate(row) in w.reappeared
  {
    RunKeepsInv(fs, start, run);
  }

  /** On a working tree nobody touches, the third case does not arise. */
  lemma {:induction false} QuietDiskBringsNothingBack(fs: FileSystem, start: World, run: seq<Action>)
    requires Legal(fs, start, run) && start.reappeared == {}
    requires forall a :: a in run ==> !a.ChangeDisk?
    ensures After(fs, start, run).reappeared == {}
    decreases |run|
  {
    if run != [] {
      var prefix := run[..|run| - 1];
      assert run == prefix + [run[|run| - 1]];
      QuietDiskBringsNothingBack(fs, start, prefix);
      OneStep(fs, After(fs, start, prefix), run[|run| - 1]);
    }
  }
}
