/**
 * The tree `begin_search_on_directory` hands to the printer: the arena frozen into a
 * value where each directory holds its children directly, with the facts the printer
 * relies on — every listed directory has something below it, and the files reachable
 * from the root are exactly the files the search stored.
 */
module TreeShape {
  import opened Wrappers
  import opened Paths
  import opened LineMatcher
  import opened TreeBuilder

  /** `Directory` once the search is over: the children are the directories themselves. */
  datatype Dir = Dir(name: string, children: seq<Dir>, foundFiles: seq<FileResult>)

  /** `SearchedTypes`: what a search produced, a directory tree or a single file. */
  datatype Searched = DirResult(dir: Dir) | FileResultOf(file: FileResult)

  /** The stored files of a tree in the order the printer lists them: the files below
      each child, child by child, then the directory's own files. */
  function Files(d: Dir): seq<FileResult>
    decreases d, 1
  {
    ChildFiles(d, |d.children|) + d.foundFiles
  }

  /** The files below the first `n` children of `d`. */
  function ChildFiles(d: Dir, n: nat): seq<FileResult>
    requires n <= |d.children|
    decreases d, 0, n
  {
    if n == 0 then [] else ChildFiles(d, n - 1) + Files(d.children[n - 1])
  }

  /** Every directory below `d` has a child directory or a stored file. */
  predicate Pruned(d: Dir)
    decreases d
  {
    forall k :: 0 <= k < |d.children| ==>
      (|d.children[k].children| > 0 || |d.children[k].foundFiles| > 0) && Pruned(d.children[k])
  }

  /** The deepest directory path in the arena. */
  function MaxDepth(nodes: seq<DirNode>): (r: nat)
    ensures forall i :: 0 <= i < |nodes| ==> |nodes[i].path| <= r
    ensures nodes != [] ==> exists i :: 0 <= i < |nodes| && |nodes[i].path| == r
  {
    if nodes == [] then 0
    else
      var m := MaxDepth(nodes[..|nodes| - 1]);
      if |nodes[|nodes| - 1].path| >= m then |nodes[|nodes| - 1].path| else m
  }

  /** A child lies one level below its parent. */
  lemma ChildDeeper(nodes: seq<DirNode>, directories: map<Path, nat>, root: Path, i: nat, k: nat)
    requires Valid(nodes, directories, root) && i < |nodes| && k < |nodes[i].children|
    ensures var c := nodes[i].children[k];
      1 <= c < |nodes| && !nodes[c].toAdd && |nodes[c].path| == |nodes[i].path| + 1
  {
    ParentOfFacts(nodes, directories, root, nodes[i].children[k]);
  }

  /** The directory at arena index `i` with its attached subdirectories in place. */
  function Freeze(nodes: seq<DirNode>, directories: map<Path, nat>, root: Path, i: nat): (r: Dir)
    requires Valid(nodes, directories, root) && i < |nodes|
    decreases MaxDepth(nodes) - |nodes[i].path|
  {
    Dir(nodes[i].name,
        seq(|nodes[i].children|, k requires 0 <= k < |nodes[i].children| =>
          ChildDeeper(nodes, directories, root, i, k);
          Freeze(nodes, directories, root, nodes[i].children[k])),
        nodes[i].foundFiles)
  }

  /** No directory is attached twice and the root is nobody's child, so the frozen tree
      shows each directory at most once. */
  lemma SingleAttachment(nodes: seq<DirNode>, directories: map<Path, nat>, root: Path)
    requires Valid(nodes, directories, root)
    ensures forall i, k :: 0 <= i < |nodes| && 0 <= k < |nodes[i].children| ==> nodes[i].children[k] != 0
    ensures forall i1, k1, i2, k2 ::
      && 0 <= i1 < |nodes| && 0 <= k1 < |nodes[i1].children|
      && 0 <= i2 < |nodes| && 0 <= k2 < |nodes[i2].children|
      && nodes[i1].children[k1] == nodes[i2].children[k2]
      ==> i1 == i2 && k1 == k2
  {
  }

  /** Directories without a matched file below them are never linked, so every directory
      of the frozen tree below its top has something to show. */
  lemma {:induction false} FreezePruned(nodes: seq<DirNode>, directories: map<Path, nat>, root: Path, i: nat)
    requires Valid(nodes, directories, root) && i < |nodes|
    ensures Pruned(Freeze(nodes, directories, root, i))
    decreases MaxDepth(nodes) - |nodes[i].path|
  {
    var d := Freeze(nodes, directories, root, i);
    forall k | 0 <= k < |d.children|
      ensures (|d.children[k].children| > 0 || |d.children[k].foundFiles| > 0) && Pruned(d.children[k])
    {
      var c := nodes[i].children[k];
      ChildDeeper(nodes, directories, root, i, k);
      FreezePruned(nodes, directories, root, c);
      assert d.children[k] == Freeze(nodes, directories, root, c);
    }
  }

  lemma ChildFilesIncludes(d: Dir, n: nat, k: nat, f: FileResult)
    requires k < n <= |d.children| && f in Files(d.children[k])
    ensures f in ChildFiles(d, n)
    decreases n
  {
    if k < n - 1 {
      ChildFilesIncludes(d, n - 1, k, f);
    }
  }

  lemma ChildFilesFrom(d: Dir, n: nat, f: FileResult) returns (k: nat)
    requires n <= |d.children| && f in ChildFiles(d, n)
    ensures k < n && f in Files(d.children[k])
    decreases n
  {
    if f in Files(d.children[n - 1]) {
      k := n - 1;
    } else {
      k := ChildFilesFrom(d, n - 1, f);
    }
  }

  /** A linked directory sits in the children of its parent, which is linked too. */
  lemma ParentAttached(nodes: seq<DirNode>, directories: map<Path, nat>, root: Path, c: nat) returns (p: nat)
    requires Valid(nodes, directories, root) && 1 <= c < |nodes| && !nodes[c].toAdd
    ensures p < |nodes| && c in nodes[p].children && (p == 0 || !nodes[p].toAdd)
    ensures |nodes[p].path| < |nodes[c].path|
  {
    ParentOfFacts(nodes, directories, root, c);
    p := ParentOf(directories, root, nodes[c].path);
  }

  /** A linked directory's files are listed under the root. */
  lemma {:induction false} SubtreeUnderRoot(nodes: seq<DirNode>, directories: map<Path, nat>, root: Path, c: nat, f: FileResult)
    requires Valid(nodes, directories, root) && c < |nodes| && (c == 0 || !nodes[c].toAdd)
    requires f in Files(Freeze(nodes, directories, root, c))
    ensures f in Files(Freeze(nodes, directories, root, 0))
    decreases |nodes[c].path|
  {
    if c != 0 {
      var p := ParentAttached(nodes, directories, root, c);
      var k :| 0 <= k < |nodes[p].children| && nodes[p].children[k] == c;
      var d := Freeze(nodes, directories, root, p);
      assert d.children[k] == Freeze(nodes, directories, root, c);
      ChildFilesIncludes(d, |d.children|, k, f);
      SubtreeUnderRoot(nodes, directories, root, p, f);
    }
  }

  /** Every file listed below node `i` is one the arena stores. */
  lemma {:induction false} ListedIsStored(nodes: seq<DirNode>, directories: map<Path, nat>, root: Path, i: nat, f: FileResult)
    requires Valid(nodes, directories, root) && i < |nodes|
    requires f in Files(Freeze(nodes, directories, root, i))
    ensures exists j, m :: 0 <= j < |nodes| && 0 <= m < |nodes[j].foundFiles| && nodes[j].foundFiles[m] == f
    decreases MaxDepth(nodes) - |nodes[i].path|
  {
    var d := Freeze(nodes, directories, root, i);
    if f in d.foundFiles {
      var m :| 0 <= m < |d.foundFiles| && d.foundFiles[m] == f;
      assert nodes[i].foundFiles[m] == f;
    } else {
      var k := ChildFilesFrom(d, |d.children|, f);
      ChildDeeper(nodes, directories, root, i, k);
      assert d.children[k] == Freeze(nodes, directories, root, nodes[i].children[k]);
      ListedIsStored(nodes, directories, root, nodes[i].children[k], f);
    }
  }

  /** The files the frozen tree lists are exactly the files stored in the arena: nothing
      is stranded in a directory that was never linked. */
  lemma FrozenFiles(nodes: seq<DirNode>, directories: map<Path, nat>, root: Path, f: FileResult)
    requires Valid(nodes, directories, root)
    ensures f in Files(Freeze(nodes, directories, root, 0)) <==>
      exists j, m :: 0 <= j < |nodes| && 0 <= m < |nodes[j].foundFiles| && nodes[j].foundFiles[m] == f
  {
    if f in Files(Freeze(nodes, directories, root, 0)) {
      ListedIsStored(nodes, directories, root, 0, f);
    }
    if exists j, m :: 0 <= j < |nodes| && 0 <= m < |nodes[j].foundFiles| && nodes[j].foundFiles[m] == f {
      var j, m :| 0 <= j < |nodes| && 0 <= m < |nodes[j].foundFiles| && nodes[j].foundFiles[m] == f;
      assert f in Files(Freeze(nodes, directories, root, j));
      SubtreeUnderRoot(nodes, directories, root, j, f);
    }
  }

  /** What the search hands to the printer: a tree named after the root whose
      subdirectories all have something to show, listing exactly the matched files of
      the walk. */
  lemma SearchTree(root: Path, walk: seq<WalkItem>, home: Option<Path>, patterns: seq<Pattern>, arena: Arena)
    requires Valid(arena.nodes, arena.directories, root) && arena.nodes[0].name == RootName(root)
    requires Recorded(walk, Contributions(walk, home, patterns), |walk|, arena.nodes, arena.directories)
    ensures var tree := Freeze(arena.nodes, arena.directories, root, 0);
      && tree.name == RootName(root)
      && Pruned(tree)
      && forall f :: f in Files(tree) <==> Some(f) in Contributions(walk, home, patterns)
  {
    FreezePruned(arena.nodes, arena.directories, root, 0);
    forall f ensures f in Files(Freeze(arena.nodes, arena.directories, root, 0)) <==> Some(f) in Contributions(walk, home, patterns) {
      SearchTreeFile(root, walk, home, patterns, arena, f);
    }
  }

  /** In the returned tree, every directory lists the walk's files that lie directly in
      it, in the order the walk yielded them; the printer shows them in that order. */
  lemma SearchTreeOrder(root: Path, walk: seq<WalkItem>, home: Option<Path>, patterns: seq<Pattern>, arena: Arena)
    requires Valid(arena.nodes, arena.directories, root)
    requires forall i :: 0 <= i < |arena.nodes| ==>
      arena.nodes[i].foundFiles == FilesIn(Contributions(walk, home, patterns), |walk|, arena.nodes[i].path)
    ensures forall i :: 0 <= i < |arena.nodes| ==>
      Freeze(arena.nodes, arena.directories, root, i).foundFiles ==
        FilesIn(Contributions(walk, home, patterns), |walk|, arena.nodes[i].path)
  {
  }

  /** One file at a time: it is in the frozen tree exactly when the walk contributed it. */
  lemma SearchTreeFile(root: Path, walk: seq<WalkItem>, home: Option<Path>, patterns: seq<Pattern>, arena: Arena, f: FileResult)
    requires Valid(arena.nodes, arena.directories, root)
    requires Recorded(walk, Contributions(walk, home, patterns), |walk|, arena.nodes, arena.directories)
    ensures f in Files(Freeze(arena.nodes, arena.directories, root, 0)) <==> Some(f) in Contributions(walk, home, patterns)
  {
    var stored := Contributions(walk, home, patterns);
    FrozenFiles(arena.nodes, arena.directories, root, f);
    if Some(f) in stored {
      var j :| 0 <= j < |stored| && stored[j] == Some(f);
      assert Contributes(stored, j);
    }
  }
}
