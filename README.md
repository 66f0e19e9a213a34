# RTags file manager: a Dafny model

This project models the core of RTags' `FileManager` (`src/FileManager.cpp`).
A `FileManager` keeps a project's files index. The index maps each directory
to the set of bare file names in it. Beside the index, the manager keeps the
set of directories the file-system watcher is subscribed to. The model covers:

- the filtered recursive scan of the project tree (`ScanThread::paths`);
- the full-replacement merge of a scan result (`onRecurseJobFinished`);
- the incremental handlers for watcher notifications (`onFileAdded`, `onFileRemoved`);
- the watch exclusion policy (`watch`);
- the containment test (`startsWith` / `contains`);
- the mode override in `reload`;
- the scan thread's "owner gone means drop the result" delivery.

Files:

- `paths.dfy`, module `Paths`: paths as strings. `ParentDir` and `FileName` split a
  path at its last `/`. The parent keeps its trailing `/`, as rct's `Path::parentDir`
  does. `Join` builds a child path the way a directory walk does. `ContainsText` is the
  substring test that the watch policy uses.
- `scanner.dfy`, module `Scanner`: the directory tree, the scan as a recursive method
  with an accumulator (`Visit`, `ScanPaths`), its specification `Accepted`, and an
  independent reachability definition `Reaches`. Soundness, completeness and "nothing
  below an unentered directory" are proved against `Reaches`.
- `file_manager.dfy`, module `Files`: the class `FileManager` with fields
  `files: map<Path, set<Name>>` and `watched: set<Path>`, plus the specification of
  merge (`MergedIndex`, `MergedWatches`), `contains`, and the reload mode.
- `scenarios.dfy`, module `Scenarios`: the scan of a small tree, worked by hand.

External inputs become parameters:

- The classifier `Filter::filter` becomes `classify: Path -> Kind`. For the scan, the
  exclude filters are folded into it. `onFileAdded` calls `Filter::filter(path)`
  without the exclude filters, so its caller passes that classifier.
- `Path::exists(path + "/.rtags-ignore")` becomes `ignored: Path -> bool`.
- The file-system tree becomes a `seq<Tree>` of entries of the project root.
- The `NoFileManagerWatch` option becomes the constant `noWatch`.
- The test-mode option becomes `testsMode`.
- `Path::resolved(path)` becomes the parameter `resolved`.
- Whether the project still exists becomes the `Project` datatype for `contains`, and a
  nullable owner for the scan-result delivery.

A handler that calls `reload(Asynchronous)` in the source returns
`ReloadRequested` here instead.

Where the code and the intended design differ, the model follows the code:

- The watch set equals the set of allowed index keys only right after a merge
  (`Merge`'s last ensures). `onFileAdded` on a directory watches a path that is not a
  key, so in general the invariant kept is weaker. Every allowed key is watched, and
  every watched path is allowed (`FileManager.Valid`).
- `contains` never looks at the resolved path (see Findings).
- `onFileAdded` classifies a notification without the exclude filters that the scan
  uses.

## Model

| member | source | states |
|---|---|---|
| `Paths.ParentDir` | src/FileManager.cpp:113 | the parent of a path is a prefix of it, empty or ending in `/`, and empty exactly when the path holds no `/` (assumed split of the library's `parentDir`) |
| `Paths.FileName` | src/FileManager.cpp:121 | the file name holds no `/`, and parent + name gives the path back |
| `Paths.LastSlash` | src/FileManager.cpp:113 | the split point is the last `/` of the path, or -1 when there is none |
| `Paths.SplitJoined` | src/FileManager.cpp:119-121 | a directory (empty or ending in `/`) joined with a bare name splits back into exactly that directory and that name |
| `Paths.ContainsText` | src/FileManager.cpp:204 | the substring test answers true exactly when the needle occurs at some index of the path |
| `Scanner.Visit` | src/FileManager.cpp:42-58 | the walk adds to the accumulator exactly what `Accepted` collects from the entries: it skips Filtered entries, descends into directories without `.rtags-ignore`, and inserts File and Source paths |
| `Scanner.ScanPaths` | src/FileManager.cpp:39-61 | the scan returns `Accepted(root, entries)`, starting from an empty set |
| `Scanner.AcceptedExact` | src/FileManager.cpp:42-58 | soundness and completeness: a path is in the scan result iff the walk reaches it through entered directories only and the classifier calls it File or Source |
| `Scanner.AcceptedEntryExact` | src/FileManager.cpp:45-56 | the same equivalence for one entry: Filtered gives nothing, an ignored or non-entered directory gives nothing below it, a file gives itself |
| `Scanner.ReachesInside` | src/FileManager.cpp:42 | everything the walk reaches lies inside the walked directory |
| `Scanner.NotReachedBelow` | src/FileManager.cpp:46-51 | nothing strictly below a directory that is not entered (Filtered, holding `.rtags-ignore`, or not a directory) is reached |
| `Scanner.NothingBelowUnentered` | src/FileManager.cpp:46-51 | no path of the scan result lies below a Filtered directory or one holding `.rtags-ignore` |
| `Scenarios.ExampleScan` | src/FileManager.cpp:39-61 | scanning `/r` with `a.c`, `sub/b.c` and an excluded `.git/ignored.c` yields exactly `/r/a.c` and `/r/sub/b.c` |
| `Files.WatchPolicy` | src/FileManager.cpp:203-204 | a path may be watched iff watching is enabled and it contains none of `/.git/`, `/.svn/`, `/.cvs/` |
| `Files.FileManager.Watch` | src/FileManager.cpp:201-207 | `watch` adds the path to the watch set exactly when the policy allows it; otherwise nothing changes |
| `Files.Insert` | src/FileManager.cpp:150-152 | inserting a name under a directory creates the key if missing, adds the name, and leaves every other key's set unchanged |
| `Files.Erase` | src/FileManager.cpp:172-177 | removing a name drops the key exactly when its set becomes empty, otherwise shrinks the set, and leaves every other key unchanged |
| `Files.InsertWellFormed` | src/FileManager.cpp:149-152 | inserting under a non-empty parent keeps "no empty key, no empty set" |
| `Files.EraseWellFormed` | src/FileManager.cpp:172-177 | removing a name keeps "no empty key, no empty set", because an emptied key is deleted |
| `Files.MergedIndexWellFormed` | src/FileManager.cpp:112-123 | a merged index has no empty key and no empty set of names |
| `Files.MergedIndexExact` | src/FileManager.cpp:112-122 | name `n` is listed under `d` after a merge iff `d` is non-empty and the path `d + n` was scanned and splits into `d` and `n` |
| `Files.NamesOutsideParents` | src/FileManager.cpp:112-122 | a directory that is no scanned path's parent gets no names |
| `Files.MergeSkip` | src/FileManager.cpp:113-117 | a scanned path with an empty parent is skipped: the index is unchanged |
| `Files.MergeFile` | src/FileManager.cpp:119-121 | a scanned path with a parent is filed under that parent |
| `Files.MergeWatchStep` | src/FileManager.cpp:120 | a scanned path adds its parent to the watch set when it has one and the policy allows it |
| `Files.FileManager.Merge` | src/FileManager.cpp:102-124 | after the merge the index is `MergedIndex(paths)` and the watch set is the allowed keys, whatever the state was before, so merging the same set twice gives the same state; the index invariant holds |
| `Files.FileManager.OnFileAdded` | src/FileManager.cpp:126-158 | an empty or Filtered path changes nothing; a directory is watched and a reload is requested with the index unchanged; a file with a parent is inserted and its parent watched; a file without a parent requests a reload; the invariant is kept |
| `Files.FileManager.OnFileRemoved` | src/FileManager.cpp:160-179 | a path that is itself a key requests a reload and changes nothing; otherwise, if its parent is a key, the name is removed and an emptied key is deleted and unwatched; otherwise nothing changes |
| `Files.FileManager.constructor` | src/FileManager.cpp:72-77 | a new manager has an empty index and an empty watch set |
| `Files.FileManager.Reload` | src/FileManager.cpp:85-100 | a scan is started (and the state left alone) exactly when Asynchronous is requested outside test mode; test mode forces Synchronous, and a synchronous reload leaves the merge of the scan of the root tree |
| `Files.DeliverScanResult` | src/FileManager.cpp:33-37 | the scan result is merged into the owner if it still exists, and dropped otherwise |
| `Files.Contains` | src/FileManager.cpp:181-199 | false when the project is gone; otherwise true iff the root is non-empty and a prefix of the path, whatever the resolved path is |
| `Files.ContainsIgnoresResolved` | src/FileManager.cpp:195-196 | a symlinked path whose resolved form lies under the root is rejected by `contains` as written, and accepted by the corrected test |
| `Files.ContainsResolved` | src/FileManager.cpp:195-197 | corrected `contains`: true iff the project lives, the root is non-empty, and the root is a prefix of the path or of its resolved form |

## Left out

- Threads: `ScanThread` as a thread, `setAutoDelete`, `EventLoop::callLater` and `startScanThread`. An asynchronous reload only reports that a scan was started; its result arrives through `DeliverScanResult`, which keeps only the weak-pointer rule (owner gone means no change).
- `std::mutex` locking: the model is sequential. In test mode, `reload(Asynchronous)` called from `onFileAdded` turns synchronous and would re-enter `onRecurseJobFinished`, which locks the same non-recursive mutex again. The model's handlers return `ReloadRequested` instead of calling `reload`, so this re-entry is not modelled.
- Out-of-order asynchronous reloads: the model keeps the source's behaviour. Every merge replaces the whole state, so the last merge wins. No sequence guard is added.
- `mLastReloadTime` (`Rct::monoMs`) and all `error()` logging.
- `init`: it stores the project and calls `reload`. This is the constructor followed by `Reload`.
- `Path::parentDir` and `Path::fileName` belong to a library that is not part of this model. They are modelled as a split at the last `/`. A lone `/` therefore gets parent `/` and name "", where the library gives an empty parent. Trailing `/` in a removed or added path is not normalised.
- `Path::visit`, `Path::exists`, `Path::resolved`, `Filter::filter` and the `FileSystemWatcher` are abstract inputs: the tree, the `ignored` predicate, the `resolved` parameter, the classifier and the `watched` set. Unreadable entries are not modelled; the tree holds only what can be listed.
- The `assert(project)` checks in `reload`, `onRecurseJobFinished` and `onFileAdded`, and the unchecked `project->files()` in `onFileRemoved`: a `FileManager` object here always has its project. Only `contains` and the scan-result delivery model a project that is gone.
- Files.Contains: its requires (a non-empty path when the project lives) is the `assert(!left.isEmpty())` of `startsWith`, which a release build does not check.

## Findings

| source | as written | input that shows it | evidently intended | confidence | as-written member | corrected member |
|---|---|---|---|---|---|---|
| src/FileManager.cpp:196 | after resolving `path` to `p`, the second test calls `startsWith(path, root)` again, so the resolved path is never tested | root `/proj/`, path `/link/a.c` whose resolved form is `/proj/a.c`: `contains` returns false | `startsWith(p, root)`: a path whose resolved form lies under the root is contained | high; not executed | `Files.ContainsIgnoresResolved` | `Files.ContainsResolved` |
