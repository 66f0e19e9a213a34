/**
 * The project's file index and watch set, as `FileManager` keeps them: a map
 * from a directory to the bare names of the files in it, a set of watched
 * directories, and the operations that rebuild the map from a scan and
 * patch it from file-system notifications.
 */
module Files {
  import opened Paths
  import opened Scanner

  /** How `reload` runs the scan. */
  datatype Mode = Synchronous | Asynchronous

  /** What a notification handler did: patched the index, ignored the event, or asked for `reload(Asynchronous)`. */
  datatype Outcome = Applied | Ignored | ReloadRequested

  /** The project's root path while the project lives; `None` once it is gone. */
  datatype Project = Gone | Alive(root: Path)

  /** The index invariant: no empty directory key, no empty set of names. */
  ghost predicate IndexWellFormed(m: map<Path, set<Name>>) {
    forall d :: d in m ==> d != [] && m[d] != {}
  }

  /** The watch policy: watching is enabled and `p` is not inside version-control metadata. */
  predicate WatchAllowed(noWatch: bool, p: Path) {
    !noWatch && !ContainsText(p, "/.git/") && !ContainsText(p, "/.svn/") && !ContainsText(p, "/.cvs/")
  }

  /** No path inside a `.git`, `.svn` or `.cvs` directory is ever watched, nor anything when watching is off. */
  lemma WatchPolicy(noWatch: bool, p: Path)
    ensures WatchAllowed(noWatch, p)
        <==> !noWatch && !Occurs(p, "/.git/") && !Occurs(p, "/.svn/") && !Occurs(p, "/.cvs/")
  {
  }

  /** `(*map)[d]` followed by `insert(n)`: `n` joins the names under `d`. */
  function Insert(m: map<Path, set<Name>>, d: Path, n: Name): (r: map<Path, set<Name>>)
    ensures r.Keys == m.Keys + {d}
    ensures n in r[d] && r[d] - {n} == (if d in m then m[d] else {}) - {n}
    ensures forall k :: k in m && k != d ==> r[k] == m[k]
  {
    m[d := (if d in m then m[d] else {}) + {n}]
  }

  /** `remove(n)` under `d`, dropping the key `d` when no name is left. */
  function Erase(m: map<Path, set<Name>>, d: Path, n: Name): (r: map<Path, set<Name>>)
    requires d in m
    ensures d in r <==> m[d] - {n} != {}
    ensures d in r ==> r[d] == m[d] - {n}
    ensures forall k :: k != d ==> (k in r <==> k in m)
    ensures forall k :: k in m && k != d ==> r[k] == m[k]
  {
    var rest := m[d] - {n};
    if rest == {} then m - {d} else m[d := rest]
  }

  /** Inserting under a non-empty key keeps the index well formed. */
  lemma InsertWellFormed(m: map<Path, set<Name>>, d: Path, n: Name)
    requires IndexWellFormed(m) && d != []
    ensures IndexWellFormed(Insert(m, d, n))
  {
  }

  /** Erasing a name keeps the index well formed: an emptied key is dropped. */
  lemma EraseWellFormed(m: map<Path, set<Name>>, d: Path, n: Name)
    requires IndexWellFormed(m) && d in m
    ensures IndexWellFormed(Erase(m, d, n))
  {
  }

  /** The directories a scan result puts in the index: every non-empty parent. */
  function Parents(s: set<Path>): set<Path> {
    set p | p in s && ParentDir(p) != [] :: ParentDir(p)
  }

  /** The names a scan result puts under directory `d`. */
  function NamesIn(s: set<Path>, d: Path): set<Name> {
    set p | p in s && ParentDir(p) == d :: FileName(p)
  }

  /** The index a merge of `s` builds, whatever was there before. */
  function MergedIndex(s: set<Path>): map<Path, set<Name>> {
    map d | d in Parents(s) :: NamesIn(s, d)
  }

  /** The watch set a merge of `s` builds: the parents the policy lets through. */
  function MergedWatches(noWatch: bool, s: set<Path>): set<Path> {
    set d | d in Parents(s) && WatchAllowed(noWatch, d)
  }

  /** A merged index has no empty key and no empty set of names. */
  lemma MergedIndexWellFormed(s: set<Path>)
    ensures IndexWellFormed(MergedIndex(s))
  {
    forall d | d in MergedIndex(s)
      ensures d != [] && MergedIndex(s)[d] != {}
    {
      var p :| p in s && ParentDir(p) != [] && ParentDir(p) == d;
      assert FileName(p) in NamesIn(s, d);
    }
  }

  /**
   * The merged index records exactly the scanned paths that have a parent:
   * `n` is listed under `d` iff `d + n` was scanned and splits back into `d` and `n`.
   */
  lemma MergedIndexExact(s: set<Path>, d: Path, n: Name)
    ensures (d in MergedIndex(s) && n in MergedIndex(s)[d])
        <==> (d != [] && d + n in s && ParentDir(d + n) == d && FileName(d + n) == n)
  {
  }

  lemma ParentsStep(done: set<Path>, p: Path)
    ensures Parents(done + {p}) == Parents(done) + (if ParentDir(p) != [] then {ParentDir(p)} else {})
  {
  }

  lemma NamesStep(done: set<Path>, p: Path, k: Path)
    ensures NamesIn(done + {p}, k) == NamesIn(done, k) + (if ParentDir(p) == k then {FileName(p)} else {})
  {
  }

  /** A directory that no scanned path has for parent gets no names. */
  lemma NamesOutsideParents(s: set<Path>, k: Path)
    requires k != [] && k !in Parents(s)
    ensures NamesIn(s, k) == {}
  {
  }

  /** A scanned path without a parent leaves the merged index as it is. */
  lemma {:induction false} MergeSkip(done: set<Path>, p: Path)
    requires ParentDir(p) == []
    ensures MergedIndex(done + {p}) == MergedIndex(done)
  {
    var before := MergedIndex(done);
    var after := MergedIndex(done + {p});
    ParentsStep(done, p);
    forall k | k in after
      ensures after[k] == before[k]
    {
      NamesStep(done, p, k);
    }
  }

  /** A scanned path with a parent is filed under it. */
  lemma {:induction false} MergeFile(done: set<Path>, p: Path)
    requires ParentDir(p) != []
    ensures MergedIndex(done + {p}) == Insert(MergedIndex(done), ParentDir(p), FileName(p))
  {
    var d := ParentDir(p);
    var before := MergedIndex(done);
    var after := MergedIndex(done + {p});
    var expected := Insert(before, d, FileName(p));
    ParentsStep(done, p);
    forall k | k in after
      ensures after[k] == expected[k]
    {
      NamesStep(done, p, k);
      if k == d && d !in before {
        NamesOutsideParents(done, d);
      }
    }
  }

  /** One more scanned path: the merge watches its parent, if it has one and the policy allows. */
  lemma {:induction false} MergeWatchStep(noWatch: bool, done: set<Path>, p: Path)
    ensures MergedWatches(noWatch, done + {p})
         == MergedWatches(noWatch, done)
            + (if ParentDir(p) != [] && WatchAllowed(noWatch, ParentDir(p)) then {ParentDir(p)} else {})
  {
    ParentsStep(done, p);
  }

  /** `contains`, with `startsWith`'s assertion that `path` is not empty. */
  function Contains(project: Project, path: Path, resolved: Path): (r: bool)
    requires project.Alive? ==> path != []
    ensures r <==> project.Alive? && project.root != [] && project.root <= path
  {
    if project.Gone? then false
    else if StartsWith(path, project.root) then true
    else if resolved != path && StartsWith(path, project.root) then true
    else false
  }

  /** `startsWith(left, right)`: `right` is a non-empty prefix of `left`. */
  function StartsWith(left: Path, right: Path): bool
    requires left != []
  {
    right != [] && right <= left
  }

  /** As written, `contains` answers the same whatever the resolved path is. */
  lemma ContainsIgnoresResolved()
    ensures Contains(Alive("/proj/"), "/link/a.c", "/proj/a.c") == false
    ensures ContainsResolved(Alive("/proj/"), "/link/a.c", "/proj/a.c") == true
  {
    assert "/link/a.c"[1] != "/proj/"[1];
  }

  /** `contains` as evidently intended: the resolved path is tested on the second try. */
  function ContainsResolved(project: Project, path: Path, resolved: Path): (r: bool)
    requires project.Alive? ==> path != [] && resolved != []
    ensures r <==> project.Alive? && project.root != [] && (project.root <= path || project.root <= resolved)
  {
    if project.Gone? then false
    else if StartsWith(path, project.root) then true
    else if resolved != path && StartsWith(resolved, project.root) then true
    else false
  }

  /** The mode `reload` runs in: test mode forces a synchronous scan. */
  function EffectiveMode(requested: Mode, testsMode: bool): Mode {
    if testsMode then Synchronous else requested
  }

  class FileManager {
    /** The project's root path (`project->path()`). */
    const root: Path
    /** The `NoFileManagerWatch` option. */
    const noWatch: bool
    /** The project's files map: directory to the bare names in it. */
    var files: map<Path, set<Name>>
    /** The directories the file-system watcher is subscribed to. */
    var watched: set<Path>

    /**
     * The index is well formed, every watched directory passes the watch
     * policy, and every key the policy lets through is watched.  (The watch
     * set may hold more than the keys: a new directory is watched before any
     * file of it is indexed.)
     */
    ghost predicate Valid()
      reads this
    {
      && IndexWellFormed(files)
      && (forall w :: w in watched ==> WatchAllowed(noWatch, w))
      && (forall d :: d in files && WatchAllowed(noWatch, d) ==> d in watched)
    }

    constructor (root: Path, noWatch: bool)
      ensures Valid()
      ensures this.root == root && this.noWatch == noWatch
      ensures files == map[] && watched == {}
    {
      this.root := root;
      this.noWatch := noWatch;
      files := map[];
      watched := {};
    }

    /** `watch`: subscribe to `p` unless the policy excludes it. */
    method Watch(p: Path)
      modifies this`watched
      ensures watched == if WatchAllowed(noWatch, p) then old(watched) + {p} else old(watched)
    {
      if WatchAllowed(noWatch, p) {
        watched := watched + {p};
      }
    }

    /**
     * `onRecurseJobFinished`: clear the map and the watcher, then file every
     * scanned path under its parent, skipping paths without one.
     */
    method Merge(paths: set<Path>)
      modifies this`files, this`watched
      ensures Valid()
      ensures files == MergedIndex(paths)
      ensures watched == MergedWatches(noWatch, paths)
      ensures watched == set d | d in files && WatchAllowed(noWatch, d)
    {
      files := map[];
      watched := {};
      var todo := paths;
      while todo != {}
        invariant todo <= paths
        invariant files == MergedIndex(paths - todo)
        invariant watched == MergedWatches(noWatch, paths - todo)
        decreases todo
      {
        var p :| p in todo;
        var parent := ParentDir(p);
        MergeWatchStep(noWatch, paths - todo, p);
        assert paths - (todo - {p}) == (paths - todo) + {p};
        if parent != [] {
          MergeFile(paths - todo, p);
          files := Insert(files, parent, FileName(p));
          Watch(parent);
        } else {
          MergeSkip(paths - todo, p);
        }
        todo := todo - {p};
      }
      assert paths - todo == paths;
      MergedIndexWellFormed(paths);
    }

    /** `onFileAdded`, with `classify` the classifier consulted for a notification. */
    method OnFileAdded(path: Path, classify: Path -> Kind) returns (o: Outcome)
      requires Valid()
      modifies this`files, this`watched
      ensures Valid()
      ensures path == [] || classify(path) == Filtered ==>
        o == Ignored && files == old(files) && watched == old(watched)
      ensures path != [] && classify(path) == Directory ==>
        o == ReloadRequested && files == old(files)
        && watched == old(watched) + (if WatchAllowed(noWatch, path) then {path} else {})
      ensures path != [] && Included(classify(path)) && ParentDir(path) == [] ==>
        o == ReloadRequested && files == old(files) && watched == old(watched)
      ensures path != [] && Included(classify(path)) && ParentDir(path) != [] ==>
        o == Applied && files == Insert(old(files), ParentDir(path), FileName(path))
        && watched == old(watched) + (if WatchAllowed(noWatch, ParentDir(path)) then {ParentDir(path)} else {})
    {
      if path == [] {
        return Ignored;
      }
      match classify(path) {
        case Directory =>
          Watch(path);
          return ReloadRequested;
        case Filtered =>
          return Ignored;
        case _ =>
      }
      var parent := ParentDir(path);
      if parent != [] {
        files := Insert(files, parent, FileName(path));
        Watch(parent);
        o := Applied;
      } else {
        o := ReloadRequested;
      }
    }

    /** `onFileRemoved`. */
    method OnFileRemoved(path: Path) returns (o: Outcome)
      requires Valid()
      modifies this`files, this`watched
      ensures Valid()
      ensures path in old(files) ==>
        o == ReloadRequested && files == old(files) && watched == old(watched)
      ensures path !in old(files) && ParentDir(path) !in old(files) ==>
        o == Ignored && files == old(files) && watched == old(watched)
      ensures path !in old(files) && ParentDir(path) in old(files) ==>
        o == Applied && files == Erase(old(files), ParentDir(path), FileName(path))
        && watched == (if ParentDir(path) in files then old(watched) else old(watched) - {ParentDir(path)})
    {
      if path in files {
        return ReloadRequested;
      }
      var parent := ParentDir(path);
      if parent in files {
        var dir := files[parent] - {FileName(path)};
        if dir == {} {
          watched := watched - {parent};
          files := files - {parent};
        } else {
          files := files[parent := dir];
        }
        o := Applied;
      } else {
        o := Ignored;
      }
    }

    /**
     * `reload`: an asynchronous reload only starts a scan (its result comes
     * back through `DeliverScanResult`); a synchronous one scans the tree
     * under `root`, whose entries are `entries`, and merges the result.
     */
    method Reload(mode: Mode, testsMode: bool, entries: seq<Tree>, classify: Path -> Kind, ignored: Path -> bool)
      returns (scanStarted: bool)
      modifies this`files, this`watched
      ensures scanStarted <==> mode == Asynchronous && !testsMode
      ensures scanStarted ==> files == old(files) && watched == old(watched)
      ensures !scanStarted ==>
        Valid()
        && files == MergedIndex(Accepted(root, entries, classify, ignored))
        && watched == MergedWatches(noWatch, Accepted(root, entries, classify, ignored))
    {
      var m := EffectiveMode(mode, testsMode);
      if m == Asynchronous {
        return true;
      }
      var paths := ScanPaths(root, entries, classify, ignored);
      Merge(paths);
      scanStarted := false;
    }
  }

  /** The scan thread's callback: merge into the owner if it still exists, else drop the result. */
  method DeliverScanResult(owner: FileManager?, paths: set<Path>)
    modifies owner
    ensures owner != null ==>
      owner.Valid() && owner.files == MergedIndex(paths) && owner.watched == MergedWatches(owner.noWatch, paths)
  {
    if owner != null {
      owner.Merge(paths);
    }
  }
}
