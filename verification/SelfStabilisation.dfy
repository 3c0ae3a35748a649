/** One undisturbed engine run repairs whatever came before. */
module SelfStabilisation {
  import opened CbmStore
  import opened OwnershipMachine
  import opened OwnershipTransfer
  import opened JournalLookup

  // Ownership is not exclusive in every state: a builtin fallback journals everything, a crash leaves a
  // transfer half done, a failed delete leaves a row. One undisturbed run repairs all of it, and a second
  // one has nothing left to purge. Both are theorems about the steps of OwnershipMachine, so readers may
  // come between any two of them and publishing may still fail.

  /** Nothing interferes, the coverage can be read and every delete succeeds. */
  predicate Undisturbed(a: Action) {
    match a
    case EngineCommit(_, _, _, _) => false
    case BuiltinReconcile(_) => false
    case Crash => false
    case ChangeDisk(_) => false
    case ReadCoverage(readable) => readable
    case PurgeRow(_, ok) => ok
    case _ => true
  }

  predicate Late(phase: Phase) {
    phase.Scanning? || phase.GapFilling? || phase.Purging? || phase.Idle?
  }

  /** A row that is there to stay: not covered by the engine, and on disk. */
  predicate Kept(fs: FileSystem, w: World, covered: set<string>, row: string) {
    !Stale(fs, w.disk, covered, row)
  }

  // ---- What an undisturbed run works towards ------------------------------------------------

  /** What the run has left to do is exactly what is still wrong. */
  ghost predicate Repairing(fs: FileSystem, w: World) {
    && (w.phase.Scanning? || w.phase.GapFilling? || w.phase.Purging? ==> w.phase.covered == Covers(fs, w))
    && (w.phase.GapFilling? ==>
          forall p :: p in w.phase.todo ==> fs.isAbs(p) && Kept(fs, w, w.phase.covered, p) && p !in w.filled)
    && (w.phase.Purging? ==>
          w.phase.rows <= w.journal
          && forall row :: row in w.journal && row !in w.phase.rows ==> Kept(fs, w, w.phase.covered, row))
    && (w.phase.Idle? ==> SingleOwner(fs, w.disk, Covers(fs, w), w.journal))
    && (!Late(w.phase) || w.phase.Scanning? ==> w.filled == {})
    && (Late(w.phase) ==>
          forall p :: p in w.filled ==> fs.isAbs(p) && p in w.journal && Kept(fs, w, Covers(fs, w), p))
  }

  lemma StoresStay(fs: FileSystem, w: World, a: Action)
    requires Enabled(fs, w, a) && Undisturbed(a) && Late(w.phase)
    ensures Covers(fs, Next(fs, w, a)) == Covers(fs, w) && Next(fs, w, a).disk == w.disk && Late(Next(fs, w, a).phase)
  {
  }

  lemma FillKeepsRepairing(fs: FileSystem, w: World, a: Action)
    requires fs.Valid() && Repairing(fs, w) && Enabled(fs, w, a) && a.FillGap?
    ensures Repairing(fs, Next(fs, w, a))
  {
    var w' := Next(fs, w, a);
    StoresStay(fs, w, a);
    forall p | p in w'.filled ensures fs.isAbs(p) && p in w'.journal && Kept(fs, w', Covers(fs, w'), p) {
      assert !fs.isAbs(fs.relative(a.path));
    }
  }

  lemma PurgeKeepsRepairing(fs: FileSystem, w: World, a: Action)
    requires Repairing(fs, w) && Enabled(fs, w, a) && Undisturbed(a) && (a.PurgeRow? || a.ListJournal? || a.Finish?)
    ensures Repairing(fs, Next(fs, w, a))
  {
    StoresStay(fs, w, a);
  }

  lemma StepKeepsRepairing(fs: FileSystem, w: World, a: Action)
    requires fs.Valid() && Repairing(fs, w) && Enabled(fs, w, a) && Undisturbed(a)
    ensures Repairing(fs, Next(fs, w, a))
  {
    if a.FillGap? {
      FillKeepsRepairing(fs, w, a);
    } else if a.PurgeRow? || a.ListJournal? || a.Finish? {
      PurgeKeepsRepairing(fs, w, a);
    } else if Late(w.phase) {
      StoresStay(fs, w, a);
    }
  }

  lemma {:induction false} RunKeepsRepairing(fs: FileSystem, start: World, run: seq<Action>)
    requires fs.Valid() && Repairing(fs, start) && Legal(fs, start, run) && forall a :: a in run ==> Undisturbed(a)
    ensures Repairing(fs, After(fs, start, run))
    decreases |run|
  {
    if run != [] {
      var prefix := run[..|run| - 1];
      RunKeepsRepairing(fs, start, prefix);
      StepKeepsRepairing(fs, After(fs, start, prefix), run[|run| - 1]);
    }
  }

  /** From any state in which the engine has just committed, however it came about, an undisturbed run
      that gets to its end leaves no row covered or gone from disk, and keeps every path whose row it
      wrote or found up to date. */
  lemma UndisturbedRunRestoresOwnership(fs: FileSystem, start: World, run: seq<Action>)
    requires fs.Valid() && start.phase.Indexed? && start.filled == {}
    requires Legal(fs, start, run) && forall a :: a in run ==> Undisturbed(a)
    requires After(fs, start, run).phase.Idle?
    ensures var w := After(fs, start, run);
            SingleOwner(fs, w.disk, Covers(fs, w), w.journal) && w.filled <= w.journal
  {
    RunKeepsRepairing(fs, start, run);
  }

  // ---- The run after that -----------------------------------------------------------------------

  /** As long as the coverage is what the journal was settled for, there is nothing to purge. */
  ghost predicate Calm(fs: FileSystem, w: World, journal: set<string>, coverage: set<string>) {
    && (!Late(w.phase) ==> w.journal == journal && w.purged == {})
    && (Late(w.phase) && Covers(fs, w) == coverage ==>
          SingleOwner(fs, w.disk, coverage, w.journal) && w.purged == {})
  }

  lemma StepKeepsCalm(fs: FileSystem, w: World, a: Action, journal: set<string>, coverage: set<string>)
    requires fs.Valid() && Repairing(fs, w) && Calm(fs, w, journal, coverage)
    requires SingleOwner(fs, w.disk, coverage, journal)
    requires Enabled(fs, w, a) && Undisturbed(a)
    ensures Calm(fs, Next(fs, w, a), journal, coverage) && Next(fs, w, a).disk == w.disk
  {
    var w' := Next(fs, w, a);
    if Late(w.phase) {
      StoresStay(fs, w, a);
      if Covers(fs, w) == coverage {
        forall row | row in w'.journal ensures !Stale(fs, w'.disk, coverage, row) {
          assert row in w.journal || (a.FillGap? && row == a.path);
        }
      }
    }
  }

  lemma {:induction false} RunKeepsCalm(fs: FileSystem, start: World, run: seq<Action>, coverage: set<string>)
    requires fs.Valid() && Repairing(fs, start) && start.phase.Indexed? && start.purged == {}
    requires SingleOwner(fs, start.disk, coverage, start.journal)
    requires Legal(fs, start, run) && forall a :: a in run ==> Undisturbed(a)
    ensures Calm(fs, After(fs, start, run), start.journal, coverage) && After(fs, start, run).disk == start.disk
    decreases |run|
  {
    if run != [] {
      var prefix := run[..|run| - 1];
      RunKeepsCalm(fs, start, prefix, coverage);
      RunKeepsRepairing(fs, start, prefix);
      StepKeepsCalm(fs, After(fs, start, prefix), run[|run| - 1], start.journal, coverage);
    }
  }

  /** An engine run on a repository that is in single ownership under the coverage the run itself will
      see purges nothing, and leaves it so. */
  lemma SettledRunPurgesNothing(fs: FileSystem, start: World, run: seq<Action>)
    requires fs.Valid() && start.phase.Indexed? && start.filled == {} && start.purged == {}
    requires Legal(fs, start, run) && forall a :: a in run ==> Undisturbed(a)
    requires After(fs, start, run).phase.Idle?
    requires SingleOwner(fs, start.disk, Covers(fs, After(fs, start, run)), start.journal)
    ensures var w := After(fs, start, run);
            w.purged == {} && SingleOwner(fs, w.disk, Covers(fs, w), w.journal)
  {
    RunKeepsCalm(fs, start, run, Covers(fs, After(fs, start, run)));
  }

  // ---- Both together, from the first checkout on -----------------------------------------------

  /** Any history whatever, then an engine commit and an undisturbed run to its end: single ownership. */
  lemma AnyHistoryIsRepaired(fs: FileSystem, start: World, history: seq<Action>, commit: Action, run: seq<Action>)
    requires fs.Valid() && Init(start) && Legal(fs, start, history)
    requires commit.EngineCommit? && Enabled(fs, After(fs, start, history), commit)
    requires var committed := Next(fs, After(fs, start, history), commit);
             Legal(fs, committed, run) && After(fs, committed, run).phase.Idle?
    requires forall a :: a in run ==> Undisturbed(a)
    ensures var w := After(fs, Next(fs, After(fs, start, history), commit), run);
            && SingleOwner(fs, w.disk, Covers(fs, w), w.journal) && w.filled <= w.journal
            && forall row :: row in w.purged ==> fs.Locate(row) in Covers(fs, w) || fs.Locate(row) !in w.disk
  {
    var settled := After(fs, start, history);
    var committed := Next(fs, settled, commit);
    UndisturbedRunRestoresOwnership(fs, committed, run);
    RunKeepsInv(fs, start, history);
    StepKeepsInv(fs, settled, commit);
    RunKeepsInv(fs, committed, run);
    assert forall a :: a in run ==> !a.ChangeDisk?;
    QuietDiskBringsNothingBack(fs, committed, run);
  }

  /** And a second one right after it, over the same disk and the same coverage, has nothing to purge. */
  lemma SecondRunFindsNothing(fs: FileSystem, start: World, history: seq<Action>, first: Action, run: seq<Action>,
                              second: Action, again: seq<Action>)
    requires fs.Valid() && Init(start) && Legal(fs, start, history)
    requires first.EngineCommit? && Enabled(fs, After(fs, start, history), first)
    requires var committed := Next(fs, After(fs, start, history), first);
             && Legal(fs, committed, run) && (forall a :: a in run ==> Undisturbed(a))
             && var settled := After(fs, committed, run);
             && settled.phase.Idle? && second.EngineCommit? && Enabled(fs, settled, second)
             && var recommitted := Next(fs, settled, second);
             && Legal(fs, recommitted, again) && (forall a :: a in again ==> Undisturbed(a))
             && After(fs, recommitted, again).phase.Idle?
             && Covers(fs, After(fs, recommitted, again)) == Covers(fs, settled)
    ensures var settled := After(fs, Next(fs, After(fs, start, history), first), run);
            var w := After(fs, Next(fs, settled, second), again);
            w.purged == {} && SingleOwner(fs, w.disk, Covers(fs, w), w.journal)
  {
    AnyHistoryIsRepaired(fs, start, history, first, run);
    var settled := After(fs, Next(fs, After(fs, start, history), first), run);
    SettledRunPurgesNothing(fs, Next(fs, settled, second), again);
  }

  // ---- Between runs -----------------------------------------------------------------------------

  const PLAIN := FileSystem("/", p => p, p => p != "" && p[0] == '/', p => "/" + p, p => "")

  const ONE_FILE := Store(0, [Project("repo", "/")], {("repo", "a")})

  const UNTOUCHED := World({"/a"}, {}, [], None, None, "", Idle, {}, {}, {}, [], false, [])

  /** A complete engine run over one file, published, and then a builtin fallback. */
  const FALLBACK_RUN: seq<Action> := [
    EngineCommit(0, true, ONE_FILE, "repo"), OpenCopy, BackupDone, Replace, ReadCoverage(true), Scan({"/a"}),
    ListJournal, Finish, BuiltinReconcile({"/a"})]

  lemma OneFileIsCovered()
    ensures PLAIN.Valid() && StoreBinds(PLAIN, ONE_FILE) && Coverage(PLAIN, ONE_FILE, "repo") == {"/a"}
  {
    assert ONE_FILE.projects == [Project("repo", "/")];
    assert BoundRow(PLAIN, ONE_FILE.projects[0]);
    assert ("repo", "a") in ONE_FILE.hashes;
    assert "/" + "a" == "/a";
  }

  /** One more step of a run, from the world reached so far. */
  lemma OneStepOn(start: World, run: seq<Action>, n: nat, w: World)
    requires n < |run| && Reaches(PLAIN, start, run[..n], w) && Enabled(PLAIN, w, run[n])
    ensures Reaches(PLAIN, start, run[..n + 1], Next(PLAIN, w, run[n]))
  {
    assert run[..n + 1] == run[..n] + [run[n]];
    ReachesStep(PLAIN, start, run[..n], w, run[n]);
  }

  const FILE := Complete(ONE_FILE)

  const COMMITTED := UNTOUCHED.(cache := [FILE], committed := [ONE_FILE], hint := "repo", phase := Indexed)

  const PUBLISHED := COMMITTED.(published := Some(FILE), phase := Resolving, everPublished := true)

  lemma RunCommits()
    ensures Reaches(PLAIN, UNTOUCHED, FALLBACK_RUN[..1], COMMITTED)
  {
    OneFileIsCovered();
    assert FALLBACK_RUN[..0] == [];
    ReachesMeans(PLAIN, UNTOUCHED, FALLBACK_RUN[..0], UNTOUCHED);
    OneStepOn(UNTOUCHED, FALLBACK_RUN, 0, UNTOUCHED);
  }

  lemma RunPublishes()
    ensures Reaches(PLAIN, UNTOUCHED, FALLBACK_RUN[..4], PUBLISHED)
  {
    OneFileIsCovered();
    RunCommits();
    assert LiveCbmDb(PLAIN, COMMITTED.cache) == Some(ONE_FILE) by { assert COMMITTED.cache[0] == FILE; }
    OneStepOn(UNTOUCHED, FALLBACK_RUN, 1, COMMITTED);
    var copying := COMMITTED.(tmp := Some(Partial), phase := Copying(ONE_FILE));
    OneStepOn(UNTOUCHED, FALLBACK_RUN, 2, copying);
    OneStepOn(UNTOUCHED, FALLBACK_RUN, 3, copying.(tmp := Some(FILE), phase := Copied));
  }

  lemma RunTransfers()
    requires Reaches(PLAIN, UNTOUCHED, FALLBACK_RUN[..4], PUBLISHED) && Covers(PLAIN, PUBLISHED) == {"/a"}
    ensures Reaches(PLAIN, UNTOUCHED, FALLBACK_RUN[..8], PUBLISHED.(phase := Idle))
  {
    OneStepOn(UNTOUCHED, FALLBACK_RUN, 4, PUBLISHED);
    OneStepOn(UNTOUCHED, FALLBACK_RUN, 5, PUBLISHED.(phase := Scanning({"/a"})));
    assert Gaps(PLAIN, {"/a"}, {"/a"}) == {};
    OneStepOn(UNTOUCHED, FALLBACK_RUN, 6, PUBLISHED.(phase := GapFilling({"/a"}, {})));
    OneStepOn(UNTOUCHED, FALLBACK_RUN, 7, PUBLISHED.(phase := Purging({"/a"}, {})));
  }

  /** Single ownership is no invariant: a legal, complete and undisturbed engine run followed by a builtin
      fallback ends with a row that the published snapshot covers. */
  lemma FallbackBreaksOwnership()
    ensures PLAIN.Valid() && Init(UNTOUCHED) && Legal(PLAIN, UNTOUCHED, FALLBACK_RUN)
    ensures var w := After(PLAIN, UNTOUCHED, FALLBACK_RUN);
            && w.phase.Idle? && w.published == Some(FILE)
            && !SingleOwner(PLAIN, w.disk, Covers(PLAIN, w), w.journal)
  {
    OneFileIsCovered();
    RunPublishes();
    RunTransfers();
    OneStepOn(UNTOUCHED, FALLBACK_RUN, 8, PUBLISHED.(phase := Idle));
    var w := PUBLISHED.(phase := Idle, journal := {"/a"});
    assert FALLBACK_RUN[..9] == FALLBACK_RUN;
    ReachesMeans(PLAIN, UNTOUCHED, FALLBACK_RUN, w);
    assert Stale(PLAIN, w.disk, Covers(PLAIN, w), "/a");
  }

  // ---- A path that is nowhere --------------------------------------------------------------------

  const UPPER := "/A.py"

  const LOWER := "/a.py"

  const EMPTY_STORE := Store(0, [], {})

  /** Two files of equal content, the first of them journalled. */
  const TWO_FILES := UNTOUCHED.(disk := {UPPER, LOWER}, journal := {UPPER})

  const SAME := Parses(true, Accepted)

  /** An undisturbed run in which the lookup of either path finds the one row there is. */
  const ALIAS_RUN: seq<Action> := [
    EngineCommit(0, true, EMPTY_STORE, ""), NothingLive, ReadCoverage(true), Scan({UPPER, LOWER}),
    FillGap(UPPER, SAME), FillGap(LOWER, SAME), ListJournal, PurgeRow(UPPER, true), Finish]

  const INDEXED := TWO_FILES.(cache := [Complete(EMPTY_STORE)], committed := [EMPTY_STORE], phase := Indexed)

  lemma NothingIsCovered()
    ensures LiveCbmDb(PLAIN, INDEXED.cache).None? && Covers(PLAIN, INDEXED) == {}
  {
    assert INDEXED.cache[0] == Complete(EMPTY_STORE) && !DbBindsRoot(PLAIN, INDEXED.cache[0]);
  }

  lemma AliasRunScans()
    ensures Reaches(PLAIN, TWO_FILES, ALIAS_RUN[..4], INDEXED.(phase := GapFilling({}, {UPPER, LOWER})))
  {
    NothingIsCovered();
    assert ALIAS_RUN[..0] == [];
    ReachesMeans(PLAIN, TWO_FILES, ALIAS_RUN[..0], TWO_FILES);
    OneStepOn(TWO_FILES, ALIAS_RUN, 0, TWO_FILES);
    OneStepOn(TWO_FILES, ALIAS_RUN, 1, INDEXED);
    OneStepOn(TWO_FILES, ALIAS_RUN, 2, INDEXED.(phase := Resolving));
    OneStepOn(TWO_FILES, ALIAS_RUN, 3, INDEXED.(phase := Scanning({})));
    assert Gaps(PLAIN, {UPPER, LOWER}, {}) == {UPPER, LOWER};
  }

  lemma AliasRunFills()
    ensures Reaches(PLAIN, TWO_FILES, ALIAS_RUN[..6], INDEXED.(phase := GapFilling({}, {}), filled := {UPPER}))
  {
    AliasRunScans();
    assert UPPER[1] != LOWER[1];
    assert {UPPER, LOWER} - {UPPER} == {LOWER} && {LOWER} - {LOWER} == {};
    OneStepOn(TWO_FILES, ALIAS_RUN, 4, INDEXED.(phase := GapFilling({}, {UPPER, LOWER})));
    OneStepOn(TWO_FILES, ALIAS_RUN, 5, INDEXED.(phase := GapFilling({}, {LOWER}), filled := {UPPER}));
  }

  const SETTLED := INDEXED.(phase := Idle, filled := {UPPER})

  lemma AliasRunFinishes()
    ensures Reaches(PLAIN, TWO_FILES, ALIAS_RUN, SETTLED)
  {
    NothingIsCovered();
    AliasRunFills();
    OneStepOn(TWO_FILES, ALIAS_RUN, 6, SETTLED.(phase := GapFilling({}, {})));
    OneStepOn(TWO_FILES, ALIAS_RUN, 7, SETTLED.(phase := Purging({}, {UPPER})));
    assert {UPPER} - {UPPER} == {};
    OneStepOn(TWO_FILES, ALIAS_RUN, 8, SETTLED.(phase := Purging({}, {})));
    assert ALIAS_RUN[..9] == ALIAS_RUN;
  }

  /** A file whose lookup finds the row of another one, of equal content, under a name that differs in case
      only: it is on disk, scanned and not covered, and an undisturbed run after an engine commit leaves it
      without a row. */
  lemma AliasedPathIsNowhere()
    ensures Matches(PLAIN, UPPER, LOWER) && UPPER != LOWER
    ensures Legal(PLAIN, TWO_FILES, ALIAS_RUN) && forall a :: a in ALIAS_RUN[1..] ==> Undisturbed(a)
    ensures var w := After(PLAIN, TWO_FILES, ALIAS_RUN);
            && w.phase.Idle? && LOWER in w.disk && LOWER !in w.journal && PLAIN.Locate(LOWER) !in Covers(PLAIN, w)
  {
    CaseIsFolded();
    LowerIsLeftOut();
    AliasRunIsUndisturbed();
    AliasRunFinishes();
    ReachesMeans(PLAIN, TWO_FILES, ALIAS_RUN, SETTLED);
  }

  lemma LowerIsLeftOut()
    ensures LOWER in SETTLED.disk && LOWER !in SETTLED.journal && Covers(PLAIN, SETTLED) == {} && UPPER != LOWER
  {
    NothingIsCovered();
    assert UPPER[1] != LOWER[1];
  }

  lemma AliasRunIsUndisturbed()
    ensures forall a :: a in ALIAS_RUN[1..] ==> Undisturbed(a)
  {
    forall i | 1 <= i < 9 ensures Undisturbed(ALIAS_RUN[i]) {
      assert i == 1 || i == 2 || i == 3 || i == 4 || i == 5 || i == 6 || i == 7 || i == 8;
    }
  }

  /** Nor is it deferred or counted. */
  lemma AliasedPathHasNoPlace(answer: string -> Answer)
    requires answer(LOWER) == SAME
    ensures var scan := {UPPER, LOWER};
            !HasAPlace(JournalAfterRun(PLAIN, TWO_FILES.disk, {}, TWO_FILES.journal, scan, answer, {}),
                       Gaps(PLAIN, scan, {}), answer, LOWER)
  {
    assert UPPER[1] != LOWER[1];
    EveryScannedPathHasOnePlace(PLAIN, TWO_FILES.disk, {}, TWO_FILES.journal, {UPPER, LOWER}, answer, LOWER);
  }

  lemma CaseIsFolded()
    ensures Matches(PLAIN, UPPER, LOWER)
  {
    var upper, lower := "A.py", "a.py";
    forall i | 0 <= i < 4 ensures FoldChar(upper[i]) == FoldChar(lower[i]) {
      if i > 0 { assert upper[i] == lower[i]; }
    }
    assert Fold(upper) == Fold(lower);
    assert "" + "/" + upper == UPPER && "/" + lower == LOWER;
    FoldedSuffixMatches(PLAIN, "", lower, upper);
  }
}
