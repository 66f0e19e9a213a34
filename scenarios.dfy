/** The scan of a small project tree, worked through by hand. */
module Scenarios {
  import opened Paths
  import opened Scanner

  /** A classifier for the tree below: `sub` is a directory, `.git` is excluded, everything else is source. */
  function ExampleClassify(p: Path): Kind {
    if p == "/r/sub" then Directory
    else if p == "/r/.git" then Filtered
    else Source
  }

  /**
   * Scanning `/r` holding `a.c`, `sub/b.c` and `.git/ignored.c` keeps
   * `/r/a.c` and `/r/sub/b.c`, and nothing from the excluded `.git`.
   */
  lemma ExampleScan()
    ensures Accepted("/r", [Entry("a.c", []), Entry("sub", [Entry("b.c", [])]), Entry(".git", [Entry("ignored.c", [])])],
                     ExampleClassify, p => false)
         == {"/r/a.c", "/r/sub/b.c"}
  {
    var top := [Entry("a.c", []), Entry("sub", [Entry("b.c", [])]), Entry(".git", [Entry("ignored.c", [])])];
    assert Join("/r", "a.c") == "/r/a.c";
    assert Join("/r", "sub") == "/r/sub";
    assert Join("/r/sub", "b.c") == "/r/sub/b.c";
    assert Join("/r", ".git") == "/r/.git";
    assert top[..2][..1] == top[..1];
    assert top[..3][..2] == top[..2];
    assert [Entry("b.c", [])][..0] == [];
    assert Accepted("/r", top[..1], ExampleClassify, p => false) == {"/r/a.c"};
    assert Accepted("/r/sub", [Entry("b.c", [])], ExampleClassify, p => false) == {"/r/sub/b.c"};
  }
}
