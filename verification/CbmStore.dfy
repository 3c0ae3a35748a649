/** Store discovery in src/sot_graph/cbm.py. */
module CbmStore {
  // Which SQLite file readers open, which project row is bound to the repository root, and which paths
  // that store covers. Path resolution is the operating system's business, so a file system is a few
  // uninterpreted functions. A database file is either complete, and then carries one committed
  // generation of the engine, or partial, and then every query on it raises.

  datatype Option<T> = None | Some(value: T)

  /** os.path.realpath, os.path.isabs, os.path.join(root, _) and os.path.relpath(_, root). */
  datatype FileSystem = FileSystem(
    root: string,
    realpath: string -> string,
    isAbs: string -> bool,
    underRoot: string -> string,
    relative: string -> string)
  {
    /** The two spellings a journal may use for one file are never confused. */
    ghost predicate Valid() {
      forall p {:trigger relative(p)} :: !isAbs(relative(p))
    }

    function Canonical(): string {
      realpath(root)
    }

    /** Where a path reported by the engine points. */
    function CoveredAt(rel: string): string {
      realpath(underRoot(rel))
    }

    /** Where a path spelled as in the journal points. */
    function Locate(raw: string): string {
      realpath(if isAbs(raw) then raw else underRoot(raw))
    }
  }

  datatype Project = Project(name: string, rootPath: string)

  /** One committed generation: the projects rows and the (project, rel_path) pairs of file_hashes. */
  datatype Store = Store(generation: nat, projects: seq<Project>, hashes: set<(string, string)>)

  datatype DbFile = Partial | Complete(store: Store)

  /** What find_cbm_db hands to a reader. */
  datatype Resolved = NoStore | Published(store: Store) | Live(store: Store)

  predicate BoundRow(fs: FileSystem, row: Project) {
    row.rootPath != "" && fs.realpath(row.rootPath) == fs.Canonical()
  }

  predicate StoreBinds(fs: FileSystem, store: Store) {
    exists i :: 0 <= i < |store.projects| && BoundRow(fs, store.projects[i])
  }

  predicate DbBindsRoot(fs: FileSystem, db: DbFile) {
    db.Complete? && StoreBinds(fs, db.store)
  }

  /** The first cache database, in listing order, that binds the root. */
  function LiveCbmDb(fs: FileSystem, cache: seq<DbFile>): (r: Option<Store>)
    ensures r.None? <==> forall i :: 0 <= i < |cache| ==> !DbBindsRoot(fs, cache[i])
    ensures r.Some? ==> exists i :: 0 <= i < |cache| && cache[i] == Complete(r.value)
                                    && StoreBinds(fs, r.value)
                                    && forall j :: 0 <= j < i ==> !DbBindsRoot(fs, cache[j])
  {
    if cache == [] then None
    else if DbBindsRoot(fs, cache[0]) then
      assert cache[0] == Complete(cache[0].store);
      Some(cache[0].store)
    else
      var rest := LiveCbmDb(fs, cache[1..]);
      assert rest.None? ==> forall i :: 0 < i < |cache| ==> cache[i] == cache[1..][i - 1];
      assert rest.Some? ==> exists i :: 0 <= i < |cache| && cache[i] == Complete(rest.value)
                                        && forall j :: 0 <= j < i ==> !DbBindsRoot(fs, cache[j]) by {
        if rest.Some? {
          var k :| 0 <= k < |cache[1..]| && cache[1..][k] == Complete(rest.value)
                   && forall j :: 0 <= j < k ==> !DbBindsRoot(fs, cache[1..][j]);
          assert cache[k + 1] == Complete(rest.value);
          forall j | 0 <= j < k + 1 ensures !DbBindsRoot(fs, cache[j]) {
            if j > 0 { assert cache[j] == cache[1..][j - 1]; }
          }
        }
      }
      rest
  }

  /** The published snapshot first, the engine's live store only when there is none that binds the root. */
  function FindCbmDb(fs: FileSystem, published: Option<DbFile>, cache: seq<DbFile>): (r: Resolved)
    ensures r != NoStore ==> StoreBinds(fs, r.store)
    ensures forall store :: published == Some(Complete(store)) && StoreBinds(fs, store) ==> r == Published(store)
    ensures r.Published? ==> published == Some(Complete(r.store))
    ensures r.Live? ==> LiveCbmDb(fs, cache) == Some(r.store)
    ensures r.Live? ==> published.None? || !DbBindsRoot(fs, published.value)
    ensures r.NoStore? ==> forall i :: 0 <= i < |cache| ==> !DbBindsRoot(fs, cache[i])
  {
    if published.Some? && DbBindsRoot(fs, published.value) then Published(published.value.store)
    else match LiveCbmDb(fs, cache)
      case None => NoStore
      case Some(store) => Live(store)
  }

  /** Name of the first bound project row; the empty name is kept, callers test it. */
  function LocateProject(fs: FileSystem, projects: seq<Project>): (r: Option<string>)
    ensures r.Some? <==> exists i :: 0 <= i < |projects| && BoundRow(fs, projects[i])
  {
    if projects == [] then None
    else if BoundRow(fs, projects[0]) then Some(projects[0].name)
    else
      var rest := LocateProject(fs, projects[1..]);
      assert forall i :: 0 < i < |projects| ==> projects[i] == projects[1..][i - 1];
      assert forall i :: 0 <= i < |projects[1..]| ==> projects[1..][i] == projects[i + 1];
      rest
  }

  /** The located name, or the one the engine reported when there is none or it is empty. */
  function ProjectName(fs: FileSystem, store: Store, hint: string): string {
    match LocateProject(fs, store.projects)
    case Some(name) => if name != "" then name else hint
    case None => hint
  }

  /** Canonical locations of the files the store indexes for the repository. */
  function Coverage(fs: FileSystem, store: Store, hint: string): set<string> {
    set row | row in store.hashes && row.0 == ProjectName(fs, store, hint) :: fs.CoveredAt(row.1)
  }

  /** A store binds the repository when one of its projects is rooted, links resolved, where the repository
      is; an empty root never counts. */
  lemma StoreBindsIff(fs: FileSystem, store: Store)
    ensures StoreBinds(fs, store)
            <==> exists project :: project in store.projects && project.rootPath != ""
                                   && fs.realpath(project.rootPath) == fs.realpath(fs.root)
  {
    if project :| project in store.projects && project.rootPath != ""
                  && fs.realpath(project.rootPath) == fs.realpath(fs.root) {
      var i :| 0 <= i < |store.projects| && store.projects[i] == project;
      assert BoundRow(fs, store.projects[i]);
    }
  }

  /** The store covers a location iff it has a file hashed there under the name of its first project rooted
      at the repository, or under the reported name where there is no such project or it has no name. */
  lemma CoversIff(fs: FileSystem, store: Store, hint: string, name: string, location: string)
    requires || (exists i :: FirstBound(fs, store, i) && store.projects[i].name == name && name != "")
             || (name == hint && forall i :: FirstBound(fs, store, i) ==> store.projects[i].name == "")
    ensures location in Coverage(fs, store, hint)
            <==> exists rel :: (name, rel) in store.hashes && fs.realpath(fs.underRoot(rel)) == location
  {
    if i :| FirstBound(fs, store, i) {
      FirstBoundIsLocated(fs, store.projects, i);
      forall j | FirstBound(fs, store, j) ensures j == i {}
    } else {
      NoneBound(fs, store);
    }
    assert ProjectName(fs, store, hint) == name;
    if rel :| (name, rel) in store.hashes && fs.realpath(fs.underRoot(rel)) == location {
      assert (name, rel).0 == name && fs.CoveredAt((name, rel).1) == location;
    }
  }

  predicate FirstBound(fs: FileSystem, store: Store, i: int) {
    && 0 <= i < |store.projects|
    && store.projects[i].rootPath != "" && fs.realpath(store.projects[i].rootPath) == fs.realpath(fs.root)
    && forall j :: 0 <= j < i ==> store.projects[j].rootPath == "" || fs.realpath(store.projects[j].rootPath) != fs.realpath(fs.root)
  }

  lemma {:induction false} FirstBoundIsLocated(fs: FileSystem, projects: seq<Project>, i: nat)
    requires i < |projects| && BoundRow(fs, projects[i]) && forall j :: 0 <= j < i ==> !BoundRow(fs, projects[j])
    ensures LocateProject(fs, projects) == Some(projects[i].name)
    decreases i
  {
    if i > 0 {
      assert !BoundRow(fs, projects[0]);
      FirstBoundIsLocated(fs, projects[1..], i - 1);
    }
  }

  lemma {:induction false} NoneBound(fs: FileSystem, store: Store)
    requires forall i :: !FirstBound(fs, store, i)
    ensures LocateProject(fs, store.projects).None?
  {
    var n := |store.projects|;
    NoneBoundBelow(fs, store, n);
  }

  lemma {:induction false} NoneBoundBelow(fs: FileSystem, store: Store, n: nat)
    requires n <= |store.projects| && forall i :: !FirstBound(fs, store, i)
    ensures forall i :: 0 <= i < n ==> !BoundRow(fs, store.projects[i])
    decreases n
  {
    if n > 0 {
      NoneBoundBelow(fs, store, n - 1);
      assert !FirstBound(fs, store, n - 1);
    }
  }

  /** Coverage of whatever store readers resolve to; no store covers nothing. */
  function ResolvedCoverage(fs: FileSystem, r: Resolved, hint: string): set<string> {
    if r.NoStore? then {} else Coverage(fs, r.store, hint)
  }

  /** The engine never rewrites a database bound to the root into one that is not. */
  predicate KeepsBinding(fs: FileSystem, cache: seq<DbFile>, slot: nat, added: bool, store: Store)
    requires slot < |cache| || added
  {
    StoreBinds(fs, store) || added || !DbBindsRoot(fs, cache[slot])
  }

  /** An engine commit that rewrites an entry of the cache listing, or adds one to it,
      can only move the live store to that commit: it never exposes an older generation. */
  lemma CommitMovesLiveForward(fs: FileSystem, cache: seq<DbFile>, slot: nat, added: bool, store: Store)
    requires slot < |cache| || (added && slot == |cache|)
    requires KeepsBinding(fs, cache, slot, added, store)
    ensures var live := LiveCbmDb(fs, WithCommit(cache, slot, added, store));
            live == LiveCbmDb(fs, cache) || live == Some(store)
  {
    var after := WithCommit(cache, slot, added, store);
    var rest := cache[if added then slot else slot + 1..];
    assert after == cache[..slot] + ([Complete(store)] + rest);
    LiveOfConcatenation(fs, cache[..slot], [Complete(store)] + rest);
    assert ([Complete(store)] + rest)[1..] == rest;
    LiveOfConcatenation(fs, cache[..slot], cache[slot..]);
    assert cache == cache[..slot] + cache[slot..];
    if !added { assert cache[slot..][1..] == rest; }
  }

  lemma {:induction false} LiveOfConcatenation(fs: FileSystem, a: seq<DbFile>, b: seq<DbFile>)
    ensures LiveCbmDb(fs, a + b) == if LiveCbmDb(fs, a).Some? then LiveCbmDb(fs, a) else LiveCbmDb(fs, b)
  {
    if a == [] {
      assert a + b == b;
    } else {
      assert (a + b)[1..] == a[1..] + b;
      LiveOfConcatenation(fs, a[1..], b);
    }
  }

  function WithCommit(cache: seq<DbFile>, slot: nat, added: bool, store: Store): (after: seq<DbFile>)
    requires slot < |cache| || (added && slot == |cache|)
    ensures slot < |after| && after[slot] == Complete(store) && after[..slot] == cache[..slot]
    ensures after[slot + 1..] == cache[if added then slot else slot + 1..]
  {
    if added then cache[..slot] + [Complete(store)] + cache[slot..]
    else cache[slot := Complete(store)]
  }
}
