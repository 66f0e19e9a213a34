/**
 * The filtered recursive scan of `ScanThread::paths`: walk the project
 * directory, keep what the classifier calls a file or a source file, skip
 * what it filters out, and descend into every directory that does not hold
 * an `.rtags-ignore` file.
 */
module Scanner {
  import opened Paths

  /** What the classifier (`Filter::filter`) says about a path. */
  datatype Kind = Filtered | Directory | File | Source

  /** A directory entry as the walk meets it: its name and, for a directory, its entries. */
  datatype Tree = Entry(name: Name, children: seq<Tree>)

  /** Entries whose names are bare names, all the way down (as a real directory listing gives them). */
  ghost predicate WellNamed(entries: seq<Tree>)
    decreases entries
  {
    forall i :: 0 <= i < |entries| ==> ValidName(entries[i].name) && WellNamed(entries[i].children)
  }

  /** The scan keeps paths of these kinds. */
  predicate Included(k: Kind) {
    k == File || k == Source
  }

  /** The scan descends into `p`: a directory that holds no `.rtags-ignore` file. */
  predicate Entered(classify: Path -> Kind, ignored: Path -> bool, p: Path) {
    classify(p) == Directory && !ignored(p)
  }

  /** What the scan of the entries of `dir` collects, entry by entry in listing order. */
  function Accepted(dir: Path, entries: seq<Tree>, classify: Path -> Kind, ignored: Path -> bool): set<Path>
    decreases entries
  {
    if entries == [] then {}
    else
      Accepted(dir, entries[..|entries| - 1], classify, ignored)
        + AcceptedEntry(dir, entries[|entries| - 1], classify, ignored)
  }

  /** What the scan collects from the one entry `t` of `dir`. */
  function AcceptedEntry(dir: Path, t: Tree, classify: Path -> Kind, ignored: Path -> bool): set<Path>
    decreases t
  {
    var p := Join(dir, t.name);
    match classify(p)
    case Filtered => {}
    case Directory => if ignored(p) then {} else Accepted(p, t.children, classify, ignored)
    case File => {p}
    case Source => {p}
  }

  /**
   * Reference definition: `p` is the path of an entry that the walk meets,
   * i.e. every directory on the way down to it (below `dir`) is entered.
   */
  ghost predicate Reaches(dir: Path, entries: seq<Tree>, classify: Path -> Kind, ignored: Path -> bool, p: Path)
    decreases entries
  {
    exists i :: 0 <= i < |entries| && ReachesEntry(dir, entries[i], classify, ignored, p)
  }

  ghost predicate ReachesEntry(dir: Path, t: Tree, classify: Path -> Kind, ignored: Path -> bool, p: Path)
    decreases t
  {
    var q := Join(dir, t.name);
    q == p || (Entered(classify, ignored, q) && Reaches(q, t.children, classify, ignored, p))
  }

  /**
   * `Path::visit` of `dir` with the classifying callback: `acc` is the
   * accumulator the callback inserts into, the recursive call is a `Recurse`
   * answer, an unentered directory is a `Continue` answer.
   */
  method Visit(dir: Path, entries: seq<Tree>, classify: Path -> Kind, ignored: Path -> bool, acc: set<Path>)
    returns (out: set<Path>)
    ensures out == acc + Accepted(dir, entries, classify, ignored)
    decreases entries
  {
    out := acc;
    var i := 0;
    while i < |entries|
      invariant 0 <= i <= |entries|
      invariant out == acc + Accepted(dir, entries[..i], classify, ignored)
    {
      var t := entries[i];
      var p := Join(dir, t.name);
      match classify(p) {
        case Filtered =>
        case Directory =>
          if !ignored(p) {
            out := Visit(p, t.children, classify, ignored, out);
          }
        case File =>
          out := out + {p};
        case Source =>
          out := out + {p};
      }
      assert entries[..i + 1][..i] == entries[..i];
      i := i + 1;
    }
    assert entries[..i] == entries;
  }

  /** `ScanThread::paths`: the accepted files below `root`, whose entries are `entries`. */
  method ScanPaths(root: Path, entries: seq<Tree>, classify: Path -> Kind, ignored: Path -> bool)
    returns (paths: set<Path>)
    ensures paths == Accepted(root, entries, classify, ignored)
  {
    paths := Visit(root, entries, classify, ignored, {});
  }

  /** The scan is sound and complete: it keeps exactly the files and sources the walk meets. */
  lemma {:induction false} AcceptedExact(dir: Path, entries: seq<Tree>, classify: Path -> Kind, ignored: Path -> bool, p: Path)
    ensures p in Accepted(dir, entries, classify, ignored)
        <==> Reaches(dir, entries, classify, ignored, p) && Included(classify(p))
    decreases entries
  {
    if entries != [] {
      var n := |entries| - 1;
      var front := entries[..n];
      var last := entries[n];
      AcceptedExact(dir, front, classify, ignored, p);
      AcceptedEntryExact(dir, last, classify, ignored, p);
      if Reaches(dir, entries, classify, ignored, p) {
        var i :| 0 <= i < |entries| && ReachesEntry(dir, entries[i], classify, ignored, p);
        if i < n {
          assert front[i] == entries[i];
          assert Reaches(dir, front, classify, ignored, p);
        }
      }
      if Reaches(dir, front, classify, ignored, p) {
        var i :| 0 <= i < |front| && ReachesEntry(dir, front[i], classify, ignored, p);
        assert entries[i] == front[i];
      }
    }
  }

  lemma {:induction false} AcceptedEntryExact(dir: Path, t: Tree, classify: Path -> Kind, ignored: Path -> bool, p: Path)
    ensures p in AcceptedEntry(dir, t, classify, ignored)
        <==> ReachesEntry(dir, t, classify, ignored, p) && Included(classify(p))
    decreases t
  {
    var q := Join(dir, t.name);
    if Entered(classify, ignored, q) {
      AcceptedExact(q, t.children, classify, ignored, p);
    }
  }

  /** Everything the walk meets below `dir` lies inside `dir`. */
  lemma {:induction false} ReachesInside(dir: Path, entries: seq<Tree>, classify: Path -> Kind, ignored: Path -> bool, p: Path)
    requires Reaches(dir, entries, classify, ignored, p)
    ensures AsDir(dir) <= p
    decreases entries
  {
    var i :| 0 <= i < |entries| && ReachesEntry(dir, entries[i], classify, ignored, p);
    var t := entries[i];
    var q := Join(dir, t.name);
    if q != p {
      ReachesInside(q, t.children, classify, ignored, p);
      assert AsDir(dir) <= q <= AsDir(q);
    }
  }

  /**
   * Nothing below a directory the scan does not enter (filtered out, holding
   * `.rtags-ignore`, or not a directory at all) is met by the walk.
   */
  lemma {:induction false} NotReachedBelow(dir: Path, entries: seq<Tree>, classify: Path -> Kind, ignored: Path -> bool, d: Path, p: Path)
    requires WellNamed(entries)
    requires AsDir(dir) <= d && |d| > |AsDir(dir)| && d[|d| - 1] != '/'
    requires !Entered(classify, ignored, d)
    requires d + "/" <= p
    ensures !Reaches(dir, entries, classify, ignored, p)
    decreases entries
  {
    if Reaches(dir, entries, classify, ignored, p) {
      var i :| 0 <= i < |entries| && ReachesEntry(dir, entries[i], classify, ignored, p);
      var t := entries[i];
      var a := AsDir(dir);
      var q := Join(dir, t.name);
      assert ValidName(t.name);
      assert p[|d|] == '/' && d == p[..|d|];
      if q != p {
        ReachesInside(q, t.children, classify, ignored, p);
        assert AsDir(q) == q + "/";
      }
      assert q == p[..|q|];
      forall k | |a| <= k < |q|
        ensures q[k] != '/'
      {
        assert q[k] == t.name[k - |a|];
      }
      if |d| > |q| {
        assert d[|q|] == '/' && q + "/" <= d;
        NotReachedBelow(q, t.children, classify, ignored, d, p);
      }
    }
  }

  /** No path the scan returns lies below a directory it does not enter. */
  lemma NothingBelowUnentered(root: Path, entries: seq<Tree>, classify: Path -> Kind, ignored: Path -> bool, d: Path, p: Path)
    requires WellNamed(entries)
    requires AsDir(root) <= d && |d| > |AsDir(root)| && d[|d| - 1] != '/'
    requires !Entered(classify, ignored, d)
    requires d + "/" <= p
    ensures p !in Accepted(root, entries, classify, ignored)
  {
    AcceptedExact(root, entries, classify, ignored, p);
    NotReachedBelow(root, entries, classify, ignored, d, p);
  }
}
