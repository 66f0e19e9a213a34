/**
 * Textual paths, as the file manager uses them: a path is a string, its
 * parent directory is everything up to and including the last '/', and its
 * file name is what follows that '/'.
 */
module Paths {

  type Path = string
  type Name = string

  /** A bare file name as a directory listing yields it: not empty, no separator. */
  predicate ValidName(n: Name) {
    n != [] && '/' !in n
  }

  /** A directory path as `parentDir` returns it: empty, or ending in '/'. */
  predicate DirForm(d: Path) {
    d == [] || d[|d| - 1] == '/'
  }

  /** Index of the last '/' in `p`, or -1 when `p` holds none. */
  function LastSlash(p: Path): (i: int)
    ensures -1 <= i < |p|
    ensures 0 <= i ==> p[i] == '/'
    ensures forall j :: i < j < |p| ==> p[j] != '/'
  {
    if p == [] then -1
    else if p[|p| - 1] == '/' then |p| - 1
    else LastSlash(p[..|p| - 1])
  }

  /** The directory holding `p`: empty exactly when `p` has no '/'. */
  function ParentDir(p: Path): (d: Path)
    ensures DirForm(d) && d <= p
    ensures d == [] <==> '/' !in p
  {
    p[..LastSlash(p) + 1]
  }

  /** The bare name of `p`; together with its parent it gives `p` back. */
  function FileName(p: Path): (n: Name)
    ensures '/' !in n
    ensures ParentDir(p) + n == p
  {
    p[LastSlash(p) + 1..]
  }

  /** Splitting a directory joined with a bare name gives both parts back. */
  lemma {:induction false} SplitJoined(d: Path, n: Name)
    requires DirForm(d) && '/' !in n
    ensures ParentDir(d + n) == d && FileName(d + n) == n
  {
    var p := d + n;
    var i := LastSlash(p);
    if d != [] {
      assert p[|d| - 1] == '/';
    }
    assert i == |d| - 1;
  }

  /** `d` as a directory prefix: `d` itself when it already ends in '/'. */
  function AsDir(d: Path): (r: Path)
    ensures r != [] && DirForm(r) && d <= r
  {
    if d != [] && d[|d| - 1] == '/' then d else d + "/"
  }

  /** The path of the entry `n` inside directory `d`, as a directory walk builds it. */
  function Join(d: Path, n: Name): Path {
    AsDir(d) + n
  }

  /** `needle` occurs in `hay` starting at index `i`. */
  ghost predicate OccursAt(hay: string, needle: string, i: int) {
    0 <= i <= |hay| - |needle| && hay[i..i + |needle|] == needle
  }

  /** `needle` occurs somewhere in `hay`. */
  ghost predicate Occurs(hay: string, needle: string) {
    exists i :: OccursAt(hay, needle, i)
  }

  lemma OccursShift(hay: string, needle: string)
    requires hay != [] && !(needle <= hay)
    ensures Occurs(hay, needle) <==> Occurs(hay[1..], needle)
  {
    var k := |needle|;
    if Occurs(hay, needle) {
      var i :| OccursAt(hay, needle, i);
      assert OccursAt(hay, needle, 0) ==> needle <= hay;
      assert hay[1..][i - 1..i - 1 + k] == hay[i..i + k];
      assert OccursAt(hay[1..], needle, i - 1);
    }
    if Occurs(hay[1..], needle) {
      var i :| OccursAt(hay[1..], needle, i);
      assert hay[i + 1..i + 1 + k] == needle;
      assert OccursAt(hay, needle, i + 1);
    }
  }

  /** Substring test, as the watch policy applies it to a path. */
  function ContainsText(hay: string, needle: string): (r: bool)
    ensures r <==> Occurs(hay, needle)
    decreases |hay|
  {
    if needle <= hay then
      assert OccursAt(hay, needle, 0);
      true
    else if hay == [] then
      false
    else
      OccursShift(hay, needle);
      ContainsText(hay[1..], needle)
  }
}
