/** One reconcile run over a mutable repository. */
module OwnershipTransfer {
  import opened CbmStore
  import opened OwnershipMachine
  import opened JournalLookup

  // publish_store and reconcile_dispatch (src/sot_graph/cbm.py) and Reconciler.reconcile_paths
  // (src/sot_graph/reconciler.py) as methods. Every write is recorded as a step of OwnershipMachine, so
  // its step-by-step guarantees hold of every run of these methods, and of every run that crashes part
  // of the way.

  // ---- What a run computes ------------------------------------------------------------

  function Drops(outcome: Outcome): bool {
    outcome.Deleted? || outcome.Excluded?
  }

  function OutcomeOf(answer: string -> Answer, path: string): Outcome {
    ReconcileOutcome(answer(path))
  }

  /** The journal after the gap paths were reconciled, whatever the order. */
  ghost function FilledJournal(fs: FileSystem, journal: set<string>, gaps: set<string>, answer: string -> Answer): set<string> {
    (set row | row in journal && !DroppedBy(fs, journal, gaps, answer, row))
    + (set path | path in gaps && OutcomeOf(answer, path).Published?)
  }

  ghost predicate DroppedBy(fs: FileSystem, journal: set<string>, gaps: set<string>, answer: string -> Answer, row: string) {
    exists path :: path in gaps && Drops(OutcomeOf(answer, path)) && (row == path || row == fs.relative(path))
  }

  /** reconcile_paths counts every outcome that touched the index. */
  predicate Counted(outcome: Outcome) {
    outcome.Deleted? || outcome.Conflict? || outcome.Published?
  }

  /** The journal after the purge loop; a delete that raises leaves its row. */
  function PurgedJournal(fs: FileSystem, disk: set<string>, covered: set<string>, journal: set<string>,
                         failing: set<string>): set<string> {
    set row | row in journal && !(Stale(fs, disk, covered, row) && row !in failing)
  }

  /** A path's rows come from exactly one provider: no journalled path is covered by the
      engine's store or gone from disk. */
  ghost predicate SingleOwner(fs: FileSystem, disk: set<string>, coverage: set<string>, journal: set<string>) {
    forall row :: row in journal ==> !Stale(fs, disk, coverage, row)
  }

  // ---- Laws of a run ------------------------------------------------------------------

  ghost predicate ScanOf(fs: FileSystem, disk: set<string>, scan: set<string>) {
    forall p :: p in scan ==> fs.isAbs(p) && fs.realpath(p) in disk
  }

  /** The coverage the run goes by. */
  function SeenCoverage(coverage: set<string>, readable: bool): set<string> {
    if readable then coverage else {}
  }

  /** The journal a run that purges and fills by `seen` ends with. */
  ghost function JournalAfterRun(fs: FileSystem, disk: set<string>, seen: set<string>, journal: set<string>,
                                 scan: set<string>, answer: string -> Answer, failing: set<string>): set<string> {
    PurgedJournal(fs, disk, seen, FilledJournal(fs, journal, Gaps(fs, scan, seen), answer), failing)
  }

  /** Every stale row that the gap fill does not drop can be deleted, and is recognised as stale, which
      for a covered one means that the coverage was read; and an unread coverage makes the run publish
      no covered path. */
  ghost predicate Restorable(fs: FileSystem, disk: set<string>, coverage: set<string>, readable: bool, journal: set<string>,
                             scan: set<string>, answer: string -> Answer, failing: set<string>) {
    var gaps := Gaps(fs, scan, SeenCoverage(coverage, readable));
    && (forall row :: row in journal && Stale(fs, disk, coverage, row) && !DroppedBy(fs, journal, gaps, answer, row) ==>
          row !in failing && (readable || fs.Locate(row) !in disk))
    && (readable || forall p :: p in scan && fs.realpath(p) in coverage ==> !OutcomeOf(answer, p).Published?)
  }

  /** Whatever the journal was before (a builtin fallback, a crash, stale rows), an engine run, gap fill
      and purge together, ends in single ownership if and only if it was restorable. */
  lemma SingleOwnershipRestored(fs: FileSystem, disk: set<string>, coverage: set<string>, readable: bool,
                                journal: set<string>, scan: set<string>, answer: string -> Answer, failing: set<string>)
    requires ScanOf(fs, disk, scan)
    ensures var seen := SeenCoverage(coverage, readable);
            SingleOwner(fs, disk, coverage, JournalAfterRun(fs, disk, seen, journal, scan, answer, failing))
            <==> Restorable(fs, disk, coverage, readable, journal, scan, answer, failing)
  {
    var seen := SeenCoverage(coverage, readable);
    var gaps := Gaps(fs, scan, seen);
    var filled := FilledJournal(fs, journal, gaps, answer);
    var after := PurgedJournal(fs, disk, seen, filled, failing);
    if SingleOwner(fs, disk, coverage, after) {
      forall row | row in journal && Stale(fs, disk, coverage, row) && !DroppedBy(fs, journal, gaps, answer, row)
        ensures row !in failing && (readable || fs.Locate(row) !in disk)
      {
        assert row in filled && row !in after;
      }
      if !readable {
        forall p | p in scan && fs.realpath(p) in coverage ensures !OutcomeOf(answer, p).Published? {
          assert p in gaps && p !in after;
        }
      }
    }
  }

  /** An uncovered scanned path is journalled after the run exactly when it parsed, differed from what the
      lookup found and was committed, or when it had a row and was not found gone or unsupported with the
      lock free; reconcile_paths drops nothing else. */
  lemma GapPathJournalled(fs: FileSystem, disk: set<string>, coverage: set<string>, journal: set<string>,
                          scan: set<string>, answer: string -> Answer, failing: set<string>, path: string)
    requires fs.Valid() && ScanOf(fs, disk, scan) && path in scan && fs.realpath(path) !in coverage
    ensures path in JournalAfterRun(fs, disk, coverage, journal, scan, answer, failing)
            <==> answer(path) == Parses(false, Accepted)
                 || (path in journal && answer(path) != Gone(false) && answer(path) != Unsupported(false))
  {
    var gaps := Gaps(fs, scan, coverage);
    assert path in gaps;
    if path in journal && DroppedBy(fs, journal, gaps, answer, path) {
      var p :| p in gaps && Drops(OutcomeOf(answer, p)) && (path == p || path == fs.relative(p));
      assert fs.isAbs(path);
      assert !fs.isAbs(fs.relative(p));
    }
  }

  // ---- A run in terms of its answers ----------------------------------------------------

  /** What makes a row be there after the gap fill: a commit of the path itself, or an old row that no
      gap path found gone or unsupported stands for, under either spelling. */
  ghost predicate LeftByFill(fs: FileSystem, seen: set<string>, journal: set<string>, scan: set<string>,
                             answer: string -> Answer, row: string) {
    || (row in scan && fs.realpath(row) !in seen && answer(row) == Parses(false, Accepted))
    || (row in journal
        && forall p :: p in scan && fs.realpath(p) !in seen && (answer(p) == Gone(false) || answer(p) == Unsupported(false)) ==>
             row != p && row != fs.relative(p))
  }

  /** What makes the purge leave a row: its delete raises, or it is neither covered nor gone from disk. */
  predicate LeftByPurge(fs: FileSystem, disk: set<string>, seen: set<string>, failing: set<string>, row: string) {
    var location := fs.realpath(if fs.isAbs(row) then row else fs.underRoot(row));
    row in failing || (location !in seen && location in disk)
  }

  /** Gap paths that the report counts as published: deleted, committed or conflicting ones. */
  function PublishedCount(fs: FileSystem, seen: set<string>, scan: set<string>, answer: string -> Answer): nat {
    |set p | p in scan && fs.realpath(p) !in seen
             && (answer(p) == Gone(false) || answer(p) == Parses(false, Accepted) || answer(p) == Parses(false, Conflicting))|
  }

  /** Gap paths that the report counts as deferred: a delete met the held lock. */
  function DeferredCount(fs: FileSystem, seen: set<string>, scan: set<string>, answer: string -> Answer): nat {
    |set p | p in scan && fs.realpath(p) !in seen && (answer(p) == Gone(true) || answer(p) == Unsupported(true))|
  }

  /** The journal, row by row, and both counts of a run follow from the answers alone. */
  lemma RunByAnswers(fs: FileSystem, disk: set<string>, seen: set<string>, journal: set<string>,
                     scan: set<string>, answer: string -> Answer, failing: set<string>)
    ensures forall row :: row in JournalAfterRun(fs, disk, seen, journal, scan, answer, failing)
                          <==> LeftByFill(fs, seen, journal, scan, answer, row) && LeftByPurge(fs, disk, seen, failing, row)
    ensures forall row :: row in FilledJournal(fs, journal, Gaps(fs, scan, seen), answer)
                          <==> LeftByFill(fs, seen, journal, scan, answer, row)
    ensures |CountedGaps(Gaps(fs, scan, seen), answer)| == PublishedCount(fs, seen, scan, answer)
    ensures |DeferredGaps(Gaps(fs, scan, seen), answer)| == DeferredCount(fs, seen, scan, answer)
  {
    var gaps := Gaps(fs, scan, seen);
    CountsByAnswers(fs, seen, scan, answer);
    forall row
      ensures row in FilledJournal(fs, journal, gaps, answer) <==> LeftByFill(fs, seen, journal, scan, answer, row)
    {
      FillByAnswers(fs, seen, journal, scan, answer, row);
    }
  }

  lemma FillByAnswers(fs: FileSystem, seen: set<string>, journal: set<string>, scan: set<string>, answer: string -> Answer, row: string)
    ensures row in FilledJournal(fs, journal, Gaps(fs, scan, seen), answer) <==> LeftByFill(fs, seen, journal, scan, answer, row)
  {
    forall p ensures Drops(OutcomeOf(answer, p)) <==> answer(p) == Gone(false) || answer(p) == Unsupported(false) {}
    if forall p :: p in scan && fs.realpath(p) !in seen && (answer(p) == Gone(false) || answer(p) == Unsupported(false)) ==>
         row != p && row != fs.relative(p) {
      assert !DroppedBy(fs, journal, Gaps(fs, scan, seen), answer, row);
    }
  }

  lemma CountsByAnswers(fs: FileSystem, seen: set<string>, scan: set<string>, answer: string -> Answer)
    ensures |CountedGaps(Gaps(fs, scan, seen), answer)| == PublishedCount(fs, seen, scan, answer)
    ensures |DeferredGaps(Gaps(fs, scan, seen), answer)| == DeferredCount(fs, seen, scan, answer)
  {
    assert CountedGaps(Gaps(fs, scan, seen), answer)
        == set p | p in scan && fs.realpath(p) !in seen
                   && (answer(p) == Gone(false) || answer(p) == Parses(false, Accepted) || answer(p) == Parses(false, Conflicting));
    assert DeferredGaps(Gaps(fs, scan, seen), answer)
        == set p | p in scan && fs.realpath(p) !in seen && (answer(p) == Gone(true) || answer(p) == Unsupported(true));
  }

  /** The path is journalled, or in the deferred set, or counted as published, deleted or conflicting. */
  ghost predicate HasAPlace(journalled: set<string>, gaps: set<string>, answer: string -> Answer, path: string) {
    path in journalled || path in DeferredGaps(gaps, answer) || path in CountedGaps(gaps, answer)
  }

  /** The reconcile excluded the path, or it failed, or it found the path's hash on some row, and there is
      no row of the path itself. */
  predicate Traceless(journal: set<string>, path: string, answer: Answer) {
    || answer == Unsupported(false)
    || (path !in journal && (Fails(answer) || (answer.Parses? && answer.sameHash)))
  }

  predicate Fails(answer: Answer) {
    || answer.ParseFails? || answer.Raises?
    || answer == Parses(false, GateBusy) || answer == Parses(false, CommitRaises)
  }

  /** Every scanned path is meant to be covered, journalled or deferred. With the coverage read and every
      delete succeeding a covered path is not journalled, and an uncovered one has a place if and only if
      it is not traceless. */
  lemma EveryScannedPathHasOnePlace(fs: FileSystem, disk: set<string>, coverage: set<string>, journal: set<string>,
                                    scan: set<string>, answer: string -> Answer, path: string)
    requires fs.Valid() && ScanOf(fs, disk, scan) && path in scan
    ensures var gaps := Gaps(fs, scan, coverage);
            var after := JournalAfterRun(fs, disk, coverage, journal, scan, answer, {});
            if fs.realpath(path) in coverage then path !in after
            else HasAPlace(after, gaps, answer, path) <==> !Traceless(journal, path, answer(path))
  {
    if fs.realpath(path) !in coverage {
      GapPathJournalled(fs, disk, coverage, journal, scan, answer, {}, path);
    }
  }

  /** Nothing but the path's own row can be found by its lookup, in the journal or among what the same
      batch may journal first; and a hash is the same only as that of a row that is found. */
  ghost predicate OwnRowOnly(fs: FileSystem, journal: set<string>, gaps: set<string>, path: string, answer: Answer) {
    var rows := journal + (gaps - {path});
    && (forall row :: row in rows && Matches(fs, row, path) ==> row == path)
    && (answer.Parses? && answer.sameHash ==> exists row :: row in rows && Matches(fs, row, path))
  }

  /** Where the lookup cannot mistake another row for the path's own, only failure and exclusion leave no
      trace. */
  lemma UnaliasedPathHasAPlaceIff(fs: FileSystem, disk: set<string>, coverage: set<string>, journal: set<string>,
                                  scan: set<string>, answer: string -> Answer, path: string)
    requires fs.Valid() && ScanOf(fs, disk, scan) && path in scan && fs.realpath(path) !in coverage
    requires OwnRowOnly(fs, journal, Gaps(fs, scan, coverage), path, answer(path))
    ensures HasAPlace(JournalAfterRun(fs, disk, coverage, journal, scan, answer, {}), Gaps(fs, scan, coverage), answer, path)
            <==> answer(path) != Unsupported(false) && (path in journal || !Fails(answer(path)))
  {
    EveryScannedPathHasOnePlace(fs, disk, coverage, journal, scan, answer, path);
    if answer(path).Parses? && answer(path).sameHash {
      var row :| row in journal + (Gaps(fs, scan, coverage) - {path}) && Matches(fs, row, path);
      assert row == path;
    }
  }

  /** Paths whose lock is busy are said to be deferred, never dropped. That holds of a batch if and only
      if no file in it meets the busy lock at its commit: there the exception is caught and becomes an
      error, and the path is neither deferred nor counted, nor journalled unless it was before. */
  lemma BusyPathsDeferredIff(journal: set<string>, gaps: set<string>, answer: string -> Answer)
    ensures (forall p :: p in gaps && MeetsBusyLock(answer(p)) ==> p in DeferredGaps(gaps, answer))
            <==> forall p :: p in gaps ==> !BusyAtCommit(answer(p))
    ensures forall p :: p in DeferredGaps(gaps, answer) <==> p in gaps && BusyAtDelete(answer(p))
  {
    if forall p :: p in gaps && MeetsBusyLock(answer(p)) ==> p in DeferredGaps(gaps, answer) {
      forall p | p in gaps ensures !BusyAtCommit(answer(p)) {
        assert MeetsBusyLock(answer(p)) ==> p in DeferredGaps(gaps, answer);
      }
    }
  }

  /** So an uncovered new file whose own commit finds the lock held leaves no trace at all in the run. */
  lemma BusyCommitIsDropped(fs: FileSystem, disk: set<string>, coverage: set<string>, journal: set<string>,
                            scan: set<string>, answer: string -> Answer, failing: set<string>, path: string)
    requires fs.Valid() && ScanOf(fs, disk, scan) && path in scan && fs.realpath(path) !in coverage
    requires path !in journal && BusyAtCommit(answer(path))
    ensures var gaps := Gaps(fs, scan, coverage);
            && MeetsBusyLock(answer(path))
            && path !in JournalAfterRun(fs, disk, coverage, journal, scan, answer, failing)
            && path !in DeferredGaps(gaps, answer) && path !in CountedGaps(gaps, answer)
  {
    GapPathJournalled(fs, disk, coverage, journal, scan, answer, failing, path);
  }

  /** A second run over the same disk and the same coverage purges nothing, whatever its own
      gap fill does. */
  lemma SecondRunPurgesNothing(fs: FileSystem, disk: set<string>, coverage: set<string>, journal: set<string>,
                               scan: set<string>, answer: string -> Answer)
    requires ScanOf(fs, disk, scan)
    requires SingleOwner(fs, disk, coverage, journal)
    ensures var filled := FilledJournal(fs, journal, Gaps(fs, scan, coverage), answer);
            PurgedJournal(fs, disk, coverage, filled, {}) == filled
  {
    var filled := FilledJournal(fs, journal, Gaps(fs, scan, coverage), answer);
    forall row | row in filled ensures !Stale(fs, disk, coverage, row) {
      if row !in journal {
        assert row in scan && fs.realpath(row) !in coverage;
      }
    }
  }

  /** The report leaves scanned - unchanged - updated - failed paths unexplained: exactly the gap
      paths whose reconcile failed, a lock conflict at the commit included, was excluded, or found its
      hash unchanged. */
  lemma ReportedPathsAddUp(fs: FileSystem, scan: set<string>, covered: set<string>, journal: set<string>, answer: string -> Answer)
    ensures var gaps := Gaps(fs, scan, covered);
            |scan| - |scan - gaps| - |CountedGaps(gaps, answer)| - |DeferredGaps(gaps, answer)|
            == |set p | p in gaps && Silent(OutcomeOf(answer, p))|
  {
    var gaps := Gaps(fs, scan, covered);
    var counted, deferred := CountedGaps(gaps, answer), DeferredGaps(gaps, answer);
    var silent := set p | p in gaps && Silent(OutcomeOf(answer, p));
    GapsSplitScan(fs, scan, covered);
    GapsSplitByOutcome(journal, gaps, answer, silent);
  }

  lemma GapsSplitByOutcome(journal: set<string>, gaps: set<string>, answer: string -> Answer, silent: set<string>)
    requires silent == set p | p in gaps && Silent(OutcomeOf(answer, p))
    ensures |gaps| == |CountedGaps(gaps, answer)| + |DeferredGaps(gaps, answer)| + |silent|
  {
    var counted, deferred := CountedGaps(gaps, answer), DeferredGaps(gaps, answer);
    forall p | p in gaps ensures p in deferred <==> OutcomeOf(answer, p).Deferred? {}
    assert gaps == counted + deferred + silent;
    assert counted !! deferred;
    assert (counted + deferred) !! silent;
  }

  predicate Silent(outcome: Outcome) {
    outcome.Error? || outcome.Excluded? || outcome.Unchanged? || outcome.Raised?
  }

  // ---- The run itself -----------------------------------------------------------------

  datatype PublishFault = NoFault | OpenFails(unlinked: bool) | BackupFails(unlinked: bool) | ReplaceFails(unlinked: bool)

  datatype EngineRun =
    | NotIndexed(status: string)
    | IndexRun(slot: nat, added: bool, store: Store, hint: string)

  /** What the configuration and the surroundings of one call decide. */
  datatype Surroundings = Surroundings(
    builtinOnly: bool, enabled: bool, available: bool,
    engine: EngineRun,
    builtinJournal: set<string>,     // the journal a plain builtin reconcile leaves
    publishFault: PublishFault,
    coverageReadable: bool,
    scan: set<string>,
    answer: string -> Answer,
    failingDeletes: set<string>)

  /** Why the builtin extractor ran: no reason when it was asked for, and else the first thing that kept
      the engine from running. */
  predicate FallbackSays(s: Surroundings, fallback: Option<string>) {
    && (fallback.None? <==> s.builtinOnly)
    && (!s.builtinOnly && !s.enabled ==> fallback == Some("cbm_disabled"))
    && (!s.builtinOnly && s.enabled && !s.available ==> fallback == Some("cbm_unavailable"))
    && (!s.builtinOnly && s.enabled && s.available && s.engine.NotIndexed? ==>
          fallback == Some("cbm_index_failed:" + s.engine.status))
  }

  datatype Report =
    | Builtin(fallback: Option<string>)
    | Engine(storePublished: bool, gapPublished: nat, deferred: nat, purged: nat, scanned: nat, kept: nat)

  class Repository {
    const fs: FileSystem
    var disk: set<string>
    var journal: set<string>
    var cache: seq<DbFile>
    var tmp: Option<DbFile>
    var published: Option<DbFile>
    var hint: string

    ghost var start: World
    ghost var history: seq<Action>
    ghost var world: World

    ghost predicate Traced()
      reads this
    {
      fs.Valid() && Reaches(fs, start, history, world)
    }

    /** The fields are what the recorded steps lead to. */
    ghost predicate Valid()
      reads this
    {
      && Traced()
      && world.disk == disk && world.journal == journal && world.cache == cache
      && world.tmp == tmp && world.published == published && world.hint == hint
    }

    constructor (fs: FileSystem, disk: set<string>, journal: set<string>)
      requires fs.Valid()
      ensures Valid() && Init(world) && this.fs == fs && this.disk == disk && this.journal == journal
    {
      this.fs := fs;
      this.disk, this.journal, cache, tmp, published, hint := disk, journal, [], None, None, "";
      start := World(disk, journal, [], None, None, "", Idle, {}, {}, {}, [], false, []);
      history := [];
      world := World(disk, journal, [], None, None, "", Idle, {}, {}, {}, [], false, []);
      new;
      ReachesMeans(fs, start, history, world);
    }

    ghost method Record(a: Action)
      requires Traced() && Enabled(fs, world, a)
      modifies `history, `world
      ensures Traced() && world == Next(fs, old(world), a) && history == old(history) + [a]
    {
      ReachesStep(fs, start, history, world, a);
      world := Next(fs, world, a);
      history := history + [a];
    }

    /** Backup to a temporary file, then rename; a failure unlinks the temporary file if it can. */
    method PublishStore(source: Store, fault: PublishFault) returns (ok: bool)
      requires Valid() && world.phase.Indexed? && LiveCbmDb(fs, cache) == Some(source)
      modifies `tmp, `published, `history, `world
      ensures Valid() && old(history) <= history && world.phase.Resolving?
      ensures ok <==> fault.NoFault?
      ensures published == if ok then Some(Complete(source)) else old(published)
      ensures ok ==> tmp.None?
      ensures world == old(world).(tmp := tmp, published := published, phase := Resolving,
                                   everPublished := old(world).everPublished || ok)
    {
      ok := CopyAndReplace(source, fault);
      if !ok {
        if fault.unlinked {
          tmp := None;
        }
        Record(Unlink(fault.unlinked));
      }
    }

    /** The guarded part: any of its three steps may raise. */
    method CopyAndReplace(source: Store, fault: PublishFault) returns (ok: bool)
      requires Valid() && world.phase.Indexed? && LiveCbmDb(fs, cache) == Some(source)
      modifies `tmp, `published, `history, `world
      ensures Valid() && old(history) <= history
      ensures ok <==> fault.NoFault?
      ensures published == if ok then Some(Complete(source)) else old(published)
      ensures ok ==> tmp.None?
      ensures world == old(world).(tmp := tmp, published := published, phase := if ok then Resolving else PublishFailed,
                                   everPublished := old(world).everPublished || ok)
    {
      if fault.OpenFails? {
        Record(PublishFault);
        return false;
      }
      tmp := Some(Partial);
      Record(OpenCopy);
      if fault.BackupFails? {
        Record(PublishFault);
        return false;
      }
      ok := FinishCopy(source, fault);
    }

    method FinishCopy(source: Store, fault: PublishFault) returns (ok: bool)
      requires Valid() && world.phase == Copying(source) && LiveCbmDb(fs, cache) == Some(source)
      modifies `tmp, `published, `history, `world
      ensures Valid() && old(history) <= history
      ensures ok <==> !fault.ReplaceFails?
      ensures published == if ok then Some(Complete(source)) else old(published)
      ensures ok ==> tmp.None?
      ensures world == old(world).(tmp := tmp, published := published, phase := if ok then Resolving else PublishFailed,
                                   everPublished := old(world).everPublished || ok)
    {
      tmp := Some(Complete(source));
      Record(BackupDone);
      ok := !fault.ReplaceFails?;
      if ok {
        published, tmp := tmp, None;
        Record(Replace);
      } else {
        Record(PublishFault);
      }
    }

    method FillOne(path: string, answer: Answer) returns (outcome: Outcome)
      requires Valid() && world.phase.GapFilling? && path in world.phase.todo
      modifies `journal, `history, `world
      ensures Valid() && old(history) <= history && StoresKept(old(world), world)
      ensures world.phase == GapFilling(old(world).phase.covered, old(world).phase.todo - {path})
      ensures outcome == ReconcileOutcome(answer)
      ensures journal == AfterOutcome(fs, old(journal), path, outcome)
    {
      outcome := ReconcileOutcome(answer);
      journal := AfterOutcome(fs, journal, path, outcome);
      Record(FillGap(path, answer));
    }

    method PurgeOne(covered: set<string>, row: string, failing: set<string>) returns (deleted: bool)
      requires Valid() && world.phase.Purging? && world.phase.covered == covered && row in world.phase.rows
      modifies `journal, `history, `world
      ensures Valid() && old(history) <= history && StoresKept(old(world), world)
      ensures world.phase == Purging(covered, old(world).phase.rows - {row})
      ensures deleted <==> Stale(fs, disk, covered, row) && row !in failing
      ensures journal == if deleted then old(journal) - {row} else old(journal)
    {
      var ok := row !in failing;
      deleted := Stale(fs, disk, covered, row) && ok;
      if deleted {
        journal := journal - {row};
      }
      Record(PurgeRow(row, ok));
    }

    /** reconcile_paths: one path at a time; a lock that is busy at a delete defers the path, any other
        failure skips it. */
    method ReconcilePaths(gaps: set<string>, answer: string -> Answer) returns (count: nat, deferred: set<string>)
      requires Valid() && world.phase.GapFilling? && world.phase.todo == gaps
      requires forall p :: p in gaps ==> fs.isAbs(p)
      modifies `journal, `history, `world
      ensures Valid() && old(history) <= history && StoresKept(old(world), world)
      ensures world.phase == GapFilling(old(world).phase.covered, {})
      ensures journal == FilledJournal(fs, old(journal), gaps, answer)
      ensures count == |CountedGaps(gaps, answer)|
      ensures deferred == DeferredGaps(gaps, answer)
    {
      count, deferred := 0, {};
      var todo := gaps;
      assert gaps - todo == {};
      FillNothing(fs, journal, answer);
      while todo != {}
        invariant Valid() && old(history) <= history && StoresKept(old(world), world)
        invariant todo <= gaps
        invariant world.phase == GapFilling(old(world).phase.covered, todo)
        invariant FillProgress(fs, old(journal), gaps - todo, answer, journal, count, deferred)
        decreases todo
      {
        var path :| path in todo;
        FillProgressStep(fs, old(journal), gaps - todo, path, answer, journal, count, deferred);
        assert gaps - (todo - {path}) == gaps - todo + {path};
        var outcome := FillOne(path, answer(path));
        if outcome.Deferred? {
          deferred := deferred + {path};
        } else if !(outcome.Error? || outcome.Excluded? || outcome.Unchanged? || outcome.Raised?) {
          count := count + 1;
        }
        todo := todo - {path};
      }
      assert gaps - todo == gaps;
    }

    /** The purge loop: rows covered by the engine or gone from disk are deleted, and only those
        whose delete succeeds are counted. */
    method PurgeOwned(covered: set<string>, failing: set<string>) returns (purged: nat)
      requires Valid() && world.phase == GapFilling(covered, {})
      modifies `journal, `history, `world
      ensures Valid() && old(history) <= history && world.phase.Idle? && StoresKept(old(world), world)
      ensures journal == PurgedJournal(fs, disk, covered, old(journal), failing)
      ensures purged == |old(journal) - journal|
    {
      Record(ListJournal);
      purged := SweepRows(covered, failing);
      Record(Finish);
    }

    method SweepRows(covered: set<string>, failing: set<string>) returns (purged: nat)
      requires Valid() && world.phase == Purging(covered, journal)
      modifies `journal, `history, `world
      ensures Valid() && old(history) <= history && StoresKept(old(world), world)
      ensures world.phase == Purging(covered, {})
      ensures journal == PurgedJournal(fs, disk, covered, old(journal), failing)
      ensures purged == |old(journal) - journal|
    {
      purged := 0;
      var rows := journal;
      while rows != {}
        invariant Valid() && old(history) <= history && StoresKept(old(world), world)
        invariant world.phase == Purging(covered, rows)
        invariant Swept(fs, disk, covered, old(journal), failing, rows, journal, purged)
        decreases rows
      {
        var row :| row in rows;
        SweepStep(fs, disk, covered, old(journal), failing, rows, journal, purged, row);
        var deleted := PurgeOne(covered, row, failing);
        if deleted {
          purged := purged + 1;
        }
        rows := rows - {row};
      }
    }

    /** Index, then publish a snapshot before any reader-facing work. */
    method IndexAndPublish(engine: EngineRun, fault: PublishFault) returns (ok: bool)
      requires Valid() && engine.IndexRun?
      requires Enabled(fs, world, EngineCommit(engine.slot, engine.added, engine.store, engine.hint))
      modifies `cache, `tmp, `published, `hint, `history, `world
      ensures Valid() && old(history) <= history && world.phase.Resolving?
      ensures hint == engine.hint && cache == WithCommit(old(cache), engine.slot, engine.added, engine.store)
      ensures ok <==> fault.NoFault? && LiveCbmDb(fs, cache).Some?
      ensures published == if ok then Some(Complete(LiveCbmDb(fs, cache).value)) else old(published)
    {
      cache := WithCommit(cache, engine.slot, engine.added, engine.store);
      hint := engine.hint;
      Record(EngineCommit(engine.slot, engine.added, engine.store, engine.hint));
      var live := LiveCbmDb(fs, cache);
      if live.Some? {
        ok := PublishStore(live.value, fault);
      } else {
        Record(NothingLive);
        ok := false;
      }
    }

    /** Ownership transfer and gap fill, keyed off the coverage of the store readers resolve to. */
    method TransferOwnership(s: Surroundings) returns (covered: set<string>, count: nat, deferred: nat, purged: nat)
      requires Valid() && world.phase.Resolving? && ScanOf(fs, disk, s.scan)
      modifies `journal, `history, `world
      ensures Valid() && old(history) <= history && world.phase.Idle?
      ensures covered == if s.coverageReadable then ResolvedCoverage(fs, FindCbmDb(fs, published, cache), hint) else {}
      ensures var gaps := Gaps(fs, s.scan, covered);
              var filled := FilledJournal(fs, old(journal), gaps, s.answer);
              && journal == PurgedJournal(fs, disk, covered, filled, s.failingDeletes)
              && count == |CountedGaps(gaps, s.answer)|
              && deferred == |DeferredGaps(gaps, s.answer)|
              && purged == |filled - journal|
    {
      var resolved := FindCbmDb(fs, published, cache);
      covered := {};
      if resolved != NoStore && s.coverageReadable {
        covered := Coverage(fs, resolved.store, hint);
      }
      Record(ReadCoverage(s.coverageReadable));
      var gaps := Gaps(fs, s.scan, covered);
      Record(Scan(s.scan));
      var paths;
      count, paths := ReconcilePaths(gaps, s.answer);
      deferred := |paths|;
      purged := PurgeOwned(covered, s.failingDeletes);
    }

    /** One funnel for every reconcile: the engine first, the builtin extractor on any failure. */
    method ReconcileDispatch(s: Surroundings) returns (report: Report)
      requires Valid() && world.phase.Idle?
      requires ScanOf(fs, disk, s.scan)
      requires s.engine.IndexRun? ==> Enabled(fs, world, EngineCommit(s.engine.slot, s.engine.added, s.engine.store, s.engine.hint))
      modifies `journal, `cache, `tmp, `published, `hint, `history, `world
      ensures Valid() && old(history) <= history && world.phase.Idle?
      ensures report.Engine? <==> !s.builtinOnly && s.enabled && s.available && s.engine.IndexRun?
      ensures report.Builtin? ==>
                && journal == s.builtinJournal && cache == old(cache) && published == old(published)
                && FallbackSays(s, report.fallback)
      ensures report.Builtin? ==>
                var coverage := ResolvedCoverage(fs, FindCbmDb(fs, published, cache), hint);
                SingleOwner(fs, disk, coverage, journal)
                <==> forall row :: row in s.builtinJournal ==> fs.Locate(row) !in coverage && fs.Locate(row) in disk
      ensures report.Engine? ==>
                && (report.storePublished <==> s.publishFault.NoFault? && LiveCbmDb(fs, cache).Some?)
                && published == if report.storePublished then Some(Complete(LiveCbmDb(fs, cache).value)) else old(published)
      ensures report.Engine? ==>
                var covered := if s.coverageReadable then ResolvedCoverage(fs, FindCbmDb(fs, published, cache), hint) else {};
                var gaps := Gaps(fs, s.scan, covered);
                var filled := FilledJournal(fs, old(journal), gaps, s.answer);
                && journal == PurgedJournal(fs, disk, covered, filled, s.failingDeletes)
                && report == Engine(report.storePublished, |CountedGaps(gaps, s.answer)|,
                                    |DeferredGaps(gaps, s.answer)|, |filled - journal|, |s.scan|, |s.scan - gaps|)
      ensures report.Engine? ==>
                var covered := if s.coverageReadable then ResolvedCoverage(fs, FindCbmDb(fs, published, cache), hint) else {};
                && (forall row :: row in journal <==>
                      LeftByFill(fs, covered, old(journal), s.scan, s.answer, row)
                      && LeftByPurge(fs, disk, covered, s.failingDeletes, row))
                && report.gapPublished == PublishedCount(fs, covered, s.scan, s.answer)
                && report.deferred == DeferredCount(fs, covered, s.scan, s.answer)
      ensures report.Engine? ==>
                var coverage := ResolvedCoverage(fs, FindCbmDb(fs, published, cache), hint);
                SingleOwner(fs, disk, coverage, journal)
                <==> Restorable(fs, disk, coverage, s.coverageReadable, old(journal), s.scan, s.answer, s.failingDeletes)
    {
      if s.builtinOnly || !s.enabled || !s.available || s.engine.NotIndexed? {
        journal := s.builtinJournal;
        Record(BuiltinReconcile(journal));
        return Builtin(
            if s.builtinOnly then None
            else if !s.enabled then Some("cbm_disabled")
            else if !s.available then Some("cbm_unavailable")
            else Some("cbm_index_failed:" + s.engine.status));
      }
      var ok := IndexAndPublish(s.engine, s.publishFault);
      var covered, count, deferred, purged := TransferOwnership(s);
      var gaps := Gaps(fs, s.scan, covered);
      GapsSplitScan(fs, s.scan, covered);
      SingleOwnershipRestored(fs, disk, ResolvedCoverage(fs, FindCbmDb(fs, published, cache), hint), s.coverageReadable,
                              old(journal), s.scan, s.answer, s.failingDeletes);
      RunByAnswers(fs, disk, covered, old(journal), s.scan, s.answer, s.failingDeletes);
      report := Engine(ok, count, deferred, purged, |s.scan|, |s.scan| - |gaps|);
    }
  }

  lemma GapsSplitScan(fs: FileSystem, scan: set<string>, covered: set<string>)
    ensures Gaps(fs, scan, covered) <= scan
    ensures |scan| - |Gaps(fs, scan, covered)| == |scan - Gaps(fs, scan, covered)|
  {
  }

  function DeferredGaps(gaps: set<string>, answer: string -> Answer): set<string> {
    set p | p in gaps && BusyAtDelete(answer(p))
  }

  /** The snapshot and the engine's databases are as they were. */
  ghost predicate StoresKept(before: World, now: World) {
    now.published == before.published && now.cache == before.cache && now.hint == before.hint
  }

  function CountedGaps(gaps: set<string>, answer: string -> Answer): set<string> {
    set p | p in gaps && Counted(OutcomeOf(answer, p))
  }

  /** What reconcile_paths has done once the paths in `done` are behind it. */
  ghost predicate FillProgress(fs: FileSystem, journal: set<string>, done: set<string>, answer: string -> Answer,
                               now: set<string>, count: nat, deferred: set<string>) {
    && now == FilledJournal(fs, journal, done, answer)
    && count == |CountedGaps(done, answer)|
    && deferred == DeferredGaps(done, answer)
  }

  /** How far the purge loop got, with `rows` still to look at. */
  ghost predicate Swept(fs: FileSystem, disk: set<string>, covered: set<string>, was: set<string>, failing: set<string>,
                        rows: set<string>, now: set<string>, purged: nat) {
    && rows <= now <= was
    && (forall row :: row in was - rows ==> (row in now <==> !(Stale(fs, disk, covered, row) && row !in failing)))
    && purged == |was - now|
  }

  lemma SweepStep(fs: FileSystem, disk: set<string>, covered: set<string>, was: set<string>, failing: set<string>,
                  rows: set<string>, now: set<string>, purged: nat, row: string)
    requires Swept(fs, disk, covered, was, failing, rows, now, purged) && row in rows
    ensures var hit := Stale(fs, disk, covered, row) && row !in failing;
            Swept(fs, disk, covered, was, failing, rows - {row}, if hit then now - {row} else now,
                  if hit then purged + 1 else purged)
  {
    OneRowFewer(was, now, row);
  }

  lemma OneRowFewer(was: set<string>, now: set<string>, row: string)
    requires row in now && now <= was
    ensures |was - (now - {row})| == |was - now| + 1
  {
    assert was - (now - {row}) == was - now + {row};
  }

  lemma FillNothing(fs: FileSystem, journal: set<string>, answer: string -> Answer)
    ensures FillProgress(fs, journal, {}, answer, journal, 0, {})
  {
  }

  lemma FillProgressStep(fs: FileSystem, journal: set<string>, done: set<string>, path: string,
                         answer: string -> Answer, now: set<string>, count: nat, deferred: set<string>)
    requires fs.Valid() && path !in done && fs.isAbs(path) && forall p :: p in done ==> fs.isAbs(p)
    requires FillProgress(fs, journal, done, answer, now, count, deferred)
    ensures var outcome := ReconcileOutcome(answer(path));
            FillProgress(fs, journal, done + {path}, answer, AfterOutcome(fs, now, path, outcome),
                         if Counted(outcome) then count + 1 else count,
                         if outcome.Deferred? then deferred + {path} else deferred)
  {
    FillStep(fs, journal, done, path, answer);
    CountStep(journal, done, path, answer);
  }

  lemma CountStep(journal: set<string>, done: set<string>, path: string, answer: string -> Answer)
    requires path !in done
    ensures |CountedGaps(done + {path}, answer)|
            == |CountedGaps(done, answer)| + if Counted(OutcomeOf(answer, path)) then 1 else 0
  {
    var before, now := CountedGaps(done, answer), CountedGaps(done + {path}, answer);
    assert now == if Counted(OutcomeOf(answer, path)) then before + {path} else before;
  }

  lemma FillStep(fs: FileSystem, journal: set<string>, done: set<string>, path: string, answer: string -> Answer)
    requires fs.Valid() && path !in done && fs.isAbs(path) && forall p :: p in done ==> fs.isAbs(p)
    ensures var mid := FilledJournal(fs, journal, done, answer);
            && FilledJournal(fs, journal, done + {path}, answer)
               == AfterOutcome(fs, mid, path, OutcomeOf(answer, path))
  {
    var mid := FilledJournal(fs, journal, done, answer);
    var outcome := OutcomeOf(answer, path);
    assert forall p :: p in done ==> fs.relative(p) != path && fs.relative(path) != p;
    assert path in mid <==> path in journal;
    forall row
      ensures DroppedBy(fs, journal, done + {path}, answer, row)
              <==> DroppedBy(fs, journal, done, answer, row) || (Drops(outcome) && (row == path || row == fs.relative(path)))
    {
    }
  }

  /** A run that crashed after any number of its recorded steps left no purged path without an
      owner, and readers on a whole snapshot no older than before. */
  lemma EveryCrashPointIsSafe(repo: Repository, n: nat, row: string)
    requires repo.Valid() && Init(repo.start) && n <= |repo.history|
    ensures Legal(repo.fs, repo.start, repo.history[..n])
    ensures var w := After(repo.fs, repo.start, repo.history[..n]);
            && NotOlder(w.published, repo.published)
            && (row in w.purged ==> repo.fs.Locate(row) in Covers(repo.fs, w) || GoneOrBack(repo.fs, w, row))
  {
    ReachesMeans(repo.fs, repo.start, repo.history, repo.world);
    SnapshotNeverGoesBack(repo.fs, repo.start, repo.history, n);
    var prefix := repo.history[..n];
    if row in After(repo.fs, repo.start, prefix).purged {
      PurgedPathsKeepAnOwner(repo.fs, repo.start, prefix, row);
    }
  }
}
