/**
 * The sparse tree builder of the searcher: the directory walker's entries are
 * visited in order, every directory gets one node in a path-keyed map, every
 * readable file is searched, and a file with matched lines is stored in its
 * directory's node, after which the chain of not yet attached directories
 * above it is linked up towards the root.
 *
 * The shared `Rc<RefCell<Directory>>` nodes are modelled as an arena: a
 * sequence of nodes addressed by index (the root at index 0) and a map from
 * path to index. The walker, the file system and the HOME lookup are inputs.
 */
module TreeBuilder {
  import opened Wrappers
  import opened Bytes
  import opened Paths
  import opened LineMatcher

  datatype Errors = CantGetName(cause: Path)

  // ---------------------------------------------------------------------------
  // get_name_as_string and search_file
  // ---------------------------------------------------------------------------

  /** Path::file_name: the last component when it is a normal one. */
  function FileName(p: Path): Option<Segment> {
    if p != [] && p[|p| - 1].Normal? then Some(p[|p| - 1]) else None
  }

  /** `get_name_as_string`: the file name, provided it exists and is valid UTF-8. */
  function GetNameAsString(p: Path): (r: Result<string, Errors>)
    ensures r.Success? <==> p != [] && p[|p| - 1].Normal? && p[|p| - 1].unicode
    ensures r.Success? ==> r.value == p[|p| - 1].name
    ensures r.Failure? ==> r.error == CantGetName(p)
  {
    match FileName(p)
    case None => Failure(CantGetName(p))
    case Some(segment) =>
      if segment.unicode then Success(segment.name) else Failure(CantGetName(p))
  }

  const TILDE: Segment := Normal("~", true)

  /** PathBuf::join: an absolute `rel` replaces `base`. */
  function Join(base: Path, rel: Path): Path {
    if rel != [] && rel[0] == RootDir then rel else base + rel
  }

  /** The `linked` field of `search_file`: the link target (None when the path is not a
      link), with a leading HOME directory written as "~". */
  function LinkedPath(target: Option<Path>, home: Option<Path>): (r: Option<Path>)
    ensures r.None? <==> target.None?
    ensures target.Some? && (home.None? || !IsPrefix(home.value, target.value)) ==> r == target
  {
    match target
    case None => None
    case Some(t) =>
      match home
      case None => Some(t)
      case Some(h) => if IsPrefix(h, t) then Some(Join([TILDE], t[|h|..])) else Some(t)
  }

  /** A path without a root component past its first place, as the OS produces them. */
  predicate WellFormedPath(p: Path) {
    forall i :: 0 < i < |p| ==> p[i] != RootDir
  }

  /** What a reader of "~/…" understands: HOME put back in place of the tilde. */
  function ExpandHome(p: Path, home: Path): Path {
    if p != [] && p[0] == TILDE then home + p[1..] else p
  }

  /** Abbreviating HOME loses nothing: expanding the tilde gives the link target back,
      unless the target itself began with a literal "~" outside HOME. */
  lemma LinkedPathRoundTrip(target: Path, home: Path)
    requires WellFormedPath(target) && home != []
    requires target == [] || target[0] != TILDE || IsPrefix(home, target)
    ensures ExpandHome(LinkedPath(Some(target), Some(home)).value, home) == target
  {
    if IsPrefix(home, target) {
      var rest := target[|home|..];
      assert rest == [] || rest[0] != RootDir by {
        if rest != [] {
          assert rest[0] == target[|home|];
        }
      }
      assert home + rest == target;
    }
  }

  /** What `search_file` yields for a walker entry: `Ok(None)` when the file cannot be
      read (the name is not looked at then), the name error when the name is missing or
      not UTF-8, otherwise the file with the records `add_matches` appends. */
  function SearchOutcome(path: Path, content: Option<seq<byte>>, link: Option<Path>,
                         home: Option<Path>, patterns: seq<Pattern>): (r: Result<Option<FileResult>, Errors>)
    ensures content.None? ==> r == Success(None)
    ensures r.Failure? <==> content.Some? && GetNameAsString(path).Failure?
    ensures r.Failure? ==> r.error == CantGetName(path)
    ensures r.Success? && r.value.Some? ==>
      && content.Some?
      && r.value.value.path == path
      && r.value.value.name == path[|path| - 1].name
      && r.value.value.linked == LinkedPath(link, home)
      && r.value.value.lines == Scan(content.value, patterns)
  {
    if content.None? then Success(None)
    else
      match GetNameAsString(path)
      case Failure(e) => Failure(e)
      case Success(name) => Success(Some(FileResult(name, path, LinkedPath(link, home), Scan(content.value, patterns))))
  }

  /** `search_file`: builds a `File` and lets `add_matches` fill it. */
  method SearchFile(path: Path, content: Option<seq<byte>>, link: Option<Path>,
                    home: Option<Path>, patterns: seq<Pattern>) returns (r: Result<Option<FileResult>, Errors>)
    ensures r == SearchOutcome(path, content, link, home, patterns)
  {
    if content.None? {
      return Success(None);
    }
    var linked := LinkedPath(link, home);
    var name := GetNameAsString(path);
    if name.Failure? {
      return Failure(name.error);
    }
    var file := new File(name.value, path, linked);
    file.AddMatches(content.value, patterns);
    assert file.lines == Scan(content.value, patterns);
    return Success(Some(file.Value()));
  }

  // ---------------------------------------------------------------------------
  // The walker
  // ---------------------------------------------------------------------------

  /** What `is_dir`/`is_file` report for an entry, with the bytes `fs::read` returns (None
      when it fails) and the target `fs::read_link` returns (None for a non-link). */
  datatype EntryKind = DirEntry | FileEntry(content: Option<seq<byte>>, link: Option<Path>) | OtherEntry

  datatype WalkItem = Entry(path: Path, kind: EntryKind) | WalkError

  /** What the walker guarantees below the root: every entry lies strictly inside it, and
      every directory between the root and an entry was yielded before the entry. */
  ghost predicate WalkOrdered(root: Path, walk: seq<WalkItem>) {
    && root != []
    && (forall k :: 0 <= k < |walk| && walk[k].Entry? ==> IsProperPrefix(root, walk[k].path))
    && (forall k, q :: 0 <= k < |walk| && walk[k].Entry? && IsProperPrefix(root, q) && IsProperPrefix(q, walk[k].path) ==>
          exists j :: 0 <= j < k && walk[j] == Entry(q, DirEntry))
  }

  /** The error an entry makes the search return, if any. */
  function EntryError(item: WalkItem, home: Option<Path>, patterns: seq<Pattern>): Option<Errors> {
    match item
    case Entry(p, DirEntry) => if GetNameAsString(p).Failure? then Some(GetNameAsString(p).error) else None
    case Entry(p, FileEntry(content, link)) =>
      var outcome := SearchOutcome(p, content, link, home, patterns);
      if outcome.Failure? then Some(outcome.error) else None
    case _ => None
  }

  /** The file an entry contributes to the tree: a searched file with matched lines. */
  function StoredFile(item: WalkItem, home: Option<Path>, patterns: seq<Pattern>): Option<FileResult> {
    match item
    case Entry(p, FileEntry(content, link)) =>
      var outcome := SearchOutcome(p, content, link, home, patterns);
      if outcome.Success? && outcome.value.Some? && |outcome.value.value.lines| > 0 then outcome.value else None
    case _ => None
  }

  // ---------------------------------------------------------------------------
  // The arena
  // ---------------------------------------------------------------------------

  /** `Directory`: `children` holds arena indices. */
  datatype DirNode = DirNode(name: string, path: Path, children: seq<nat>, foundFiles: seq<FileResult>, toAdd: bool)

  /** The result of `begin_search_on_directory`: node 0 is the root. */
  datatype Arena = Arena(nodes: seq<DirNode>, directories: map<Path, nat>)

  function Up(p: Path): Path
    requires p != []
  {
    p[..|p| - 1]
  }

  /** The map and the nodes agree: one node per directory path, all strictly below the
      root, each with its parent directory (or the root) present. */
  ghost predicate Indexed(nodes: seq<DirNode>, directories: map<Path, nat>, root: Path) {
    && |nodes| >= 1 && nodes[0].path == root && root != []
    && (forall p {:trigger directories[p]} :: p in directories ==> 1 <= directories[p] < |nodes| && nodes[directories[p]].path == p)
    && (forall c :: 1 <= c < |nodes| ==> nodes[c].path in directories && directories[nodes[c].path] == c)
    && (forall c :: 1 <= c < |nodes| ==> IsProperPrefix(root, nodes[c].path))
    && (forall c :: 1 <= c < |nodes| ==> Up(nodes[c].path) == root || Up(nodes[c].path) in directories)
  }

  /** The node a directory at `path` is linked into: the root's (0) when it lies directly
      in the root, otherwise its parent directory's. */
  function ParentOf(directories: map<Path, nat>, root: Path, path: Path): nat {
    if path == [] || Up(path) == root || Up(path) !in directories then 0 else directories[Up(path)]
  }

  /** Children are attached directories of the node's own directory, listed once. */
  ghost predicate ChildrenOk(nodes: seq<DirNode>, directories: map<Path, nat>, root: Path) {
    ChildrenPlaced(nodes, directories, root) && ChildrenDistinct(nodes)
  }

  /** Every child is a directory node other than the root, sits under its own parent, and has
      been attached. */
  ghost predicate ChildrenPlaced(nodes: seq<DirNode>, directories: map<Path, nat>, root: Path) {
    && (forall i, k :: 0 <= i < |nodes| && 0 <= k < |nodes[i].children| ==>
          1 <= nodes[i].children[k] < |nodes| && ParentOf(directories, root, nodes[nodes[i].children[k]].path) == i)
    && (forall i, k :: 0 <= i < |nodes| && 0 <= k < |nodes[i].children| ==> !nodes[nodes[i].children[k]].toAdd)
  }

  /** No node lists a child twice. */
  ghost predicate ChildrenDistinct(nodes: seq<DirNode>) {
    forall i, k1, k2 :: 0 <= i < |nodes| && 0 <= k1 < k2 < |nodes[i].children| ==>
      nodes[i].children[k1] != nodes[i].children[k2]
  }


  /** `to_add` is false exactly for the directories linked into their parent, and a
      linked directory's parent is linked too (or is the root). `pending` is the one node
      the upward walk is standing on, for which the last clause may not hold yet. */
  ghost predicate AttachedOk(nodes: seq<DirNode>, directories: map<Path, nat>, root: Path, pending: nat) {
    && (forall c {:trigger ParentOf(directories, root, nodes[c].path)} :: 1 <= c < |nodes| && !nodes[c].toAdd ==>
          var p := ParentOf(directories, root, nodes[c].path);
          p < |nodes| && c in nodes[p].children && (p == 0 || p == pending || !nodes[p].toAdd))
    && (forall c :: 1 <= c < |nodes| && !nodes[c].toAdd ==> |nodes[c].children| > 0 || |nodes[c].foundFiles| > 0)
    && (forall c :: 1 <= c < |nodes| && c != pending && (|nodes[c].children| > 0 || |nodes[c].foundFiles| > 0) ==>
          !nodes[c].toAdd)
  }

  /** Stored files have matched lines and sit in the node of their own directory. */
  ghost predicate FilesOk(nodes: seq<DirNode>) {
    forall i, k :: 0 <= i < |nodes| && 0 <= k < |nodes[i].foundFiles| ==>
      && |nodes[i].foundFiles[k].lines| > 0
      && nodes[i].foundFiles[k].path != []
      && Up(nodes[i].foundFiles[k].path) == nodes[i].path
  }

  ghost predicate ValidExcept(nodes: seq<DirNode>, directories: map<Path, nat>, root: Path, pending: nat) {
    && Indexed(nodes, directories, root)
    && ChildrenOk(nodes, directories, root)
    && AttachedOk(nodes, directories, root, pending)
    && FilesOk(nodes)
  }

  ghost predicate Valid(nodes: seq<DirNode>, directories: map<Path, nat>, root: Path) {
    ValidExcept(nodes, directories, root, 0)
  }

  /** Two arenas with the same directories, names and paths. */
  predicate SameShape(a: seq<DirNode>, b: seq<DirNode>) {
    |a| == |b| && forall i :: 0 <= i < |a| ==> a[i].path == b[i].path && a[i].name == b[i].name
  }

  lemma SameShapeTrans(a: seq<DirNode>, b: seq<DirNode>, c: seq<DirNode>)
    requires SameShape(a, b) && SameShape(b, c)
    ensures SameShape(a, c)
  {
  }

  /** `r` grew from `nodes` by links only: every children list of `nodes` is a prefix of
      its list in `r`, what was appended are directories that were still unlinked, and
      no directory became unlinked again. */
  ghost predicate LinksAppended(nodes: seq<DirNode>, r: seq<DirNode>) {
    && |nodes| == |r|
    && (forall i :: 0 <= i < |r| ==> nodes[i].children <= r[i].children)
    && (forall i, k :: 0 <= i < |r| && |nodes[i].children| <= k < |r[i].children| ==>
          r[i].children[k] < |nodes| && nodes[r[i].children[k]].toAdd)
    && (forall c :: 0 <= c < |r| && r[c].toAdd ==> nodes[c].toAdd)
  }

  /** Linking a directory that is still unlinked appends it to its parent's list. */
  lemma LinkAppends(nodes: seq<DirNode>, r: seq<DirNode>, parent: nat, child: nat)
    requires LinksAppended(nodes, r) && parent < |r| && child < |r| && r[child].toAdd
    ensures LinksAppended(nodes, Link(r, parent, child))
  {
    var r' := Link(r, parent, child);
    forall i, k | 0 <= i < |r'| && |nodes[i].children| <= k < |r'[i].children|
      ensures r'[i].children[k] < |nodes| && nodes[r'[i].children[k]].toAdd
    {
      if i == parent && k == |r[i].children| {
        assert r'[i].children[k] == child;
      } else {
        assert r'[i].children[k] == r[i].children[k];
      }
    }
  }

  /** Storing a file changes no children list and no link. */
  lemma AddFileAppends(nodes: seq<DirNode>, d: nat, f: FileResult, r: seq<DirNode>)
    requires d < |nodes| && LinksAppended(AddFile(nodes, d, f), r)
    ensures LinksAppended(nodes, r)
  {
    var a := AddFile(nodes, d, f);
    assert forall i :: 0 <= i < |nodes| ==> a[i].children == nodes[i].children && a[i].toAdd == nodes[i].toAdd;
  }

  lemma SameShapeIndexed(a: seq<DirNode>, b: seq<DirNode>, directories: map<Path, nat>, root: Path)
    requires Indexed(a, directories, root) && SameShape(a, b)
    ensures Indexed(b, directories, root)
  {
  }

  /** `found_files.push(file)` on node `d`. */
  function AddFile(nodes: seq<DirNode>, d: nat, f: FileResult): seq<DirNode>
    requires d < |nodes|
  {
    nodes[d := nodes[d].(foundFiles := nodes[d].foundFiles + [f])]
  }

  /** `parent.children.push(child)` followed by `child.to_add = false`. */
  function Link(nodes: seq<DirNode>, parent: nat, child: nat): (r: seq<DirNode>)
    requires parent < |nodes| && child < |nodes|
    ensures SameShape(nodes, r)
    ensures forall i :: 0 <= i < |r| ==> r[i].foundFiles == nodes[i].foundFiles
    ensures forall i :: 0 <= i < |r| ==>
      r[i].children == if i == parent then nodes[i].children + [child] else nodes[i].children
    ensures forall i :: 0 <= i < |r| ==> r[i].toAdd == (nodes[i].toAdd && i != child)
  {
    var linked := nodes[parent := nodes[parent].(children := nodes[parent].children + [child])];
    linked[child := linked[child].(toAdd := false)]
  }

  /** Links are carried over when children lists and `to_add` flags are. */
  lemma ChildrenOkTransfer(a: seq<DirNode>, b: seq<DirNode>, directories: map<Path, nat>, root: Path)
    requires Indexed(a, directories, root) && SameShape(a, b) && ChildrenOk(a, directories, root)
    requires forall i :: 0 <= i < |a| ==> b[i].children == a[i].children && b[i].toAdd == a[i].toAdd
    ensures Indexed(b, directories, root) && ChildrenOk(b, directories, root)
  {
    SameShapeIndexed(a, b, directories, root);
  }

  lemma AddFileKeeps(nodes: seq<DirNode>, directories: map<Path, nat>, root: Path, d: nat, f: FileResult)
    requires Valid(nodes, directories, root) && d < |nodes|
    requires |f.lines| > 0 && f.path != [] && Up(f.path) == nodes[d].path
    ensures ValidExcept(AddFile(nodes, d, f), directories, root, d)
  {
    var r := AddFile(nodes, d, f);
    ChildrenOkTransfer(nodes, r, directories, root);
    AddFileAttached(nodes, directories, root, d, f);
    AddFileFiles(nodes, d, f);
  }

  lemma AddFileAttached(nodes: seq<DirNode>, directories: map<Path, nat>, root: Path, d: nat, f: FileResult)
    requires Indexed(nodes, directories, root) && AttachedOk(nodes, directories, root, 0) && d < |nodes|
    ensures Indexed(AddFile(nodes, d, f), directories, root)
    ensures AttachedOk(AddFile(nodes, d, f), directories, root, d)
  {
    var r := AddFile(nodes, d, f);
    SameShapeIndexed(nodes, r, directories, root);
  }

  lemma AddFileFiles(nodes: seq<DirNode>, d: nat, f: FileResult)
    requires FilesOk(nodes) && d < |nodes|
    requires |f.lines| > 0 && f.path != [] && Up(f.path) == nodes[d].path
    ensures FilesOk(AddFile(nodes, d, f))
  {
    var r := AddFile(nodes, d, f);
    forall i, k | 0 <= i < |r| && 0 <= k < |r[i].foundFiles|
      ensures |r[i].foundFiles[k].lines| > 0 && r[i].foundFiles[k].path != [] && Up(r[i].foundFiles[k].path) == r[i].path
    {
      if i == d && k == |nodes[d].foundFiles| {
      } else {
        assert r[i].foundFiles[k] == nodes[i].foundFiles[k];
      }
    }
  }

  lemma ParentOfFacts(nodes: seq<DirNode>, directories: map<Path, nat>, root: Path, c: nat)
    requires Indexed(nodes, directories, root) && 1 <= c < |nodes|
    ensures var p := ParentOf(directories, root, nodes[c].path);
      p < |nodes| && p != c && nodes[p].path == Up(nodes[c].path)
  {
    var up := Up(nodes[c].path);
    if up != root {
      assert 1 <= directories[up] < |nodes|;
    }
  }

  lemma LinkKeeps(nodes: seq<DirNode>, directories: map<Path, nat>, root: Path, cur: nat)
    requires ValidExcept(nodes, directories, root, cur) && 1 <= cur < |nodes| && nodes[cur].toAdd
    requires |nodes[cur].children| > 0 || |nodes[cur].foundFiles| > 0
    ensures var p := ParentOf(directories, root, nodes[cur].path);
      p < |nodes| && ValidExcept(Link(nodes, p, cur), directories, root, p)
  {
    var p := ParentOf(directories, root, nodes[cur].path);
    ParentOfFacts(nodes, directories, root, cur);
    var r := Link(nodes, p, cur);
    SameShapeIndexed(nodes, r, directories, root);
    assert FilesOk(r) by {
      assert forall i :: 0 <= i < |r| ==> r[i].foundFiles == nodes[i].foundFiles;
    }
    LinkChildrenPlaced(nodes, directories, root, cur);
    LinkChildrenDistinct(nodes, directories, root, cur);
    LinkAttachedOk(nodes, directories, root, cur);
  }

  lemma LinkChildrenPlaced(nodes: seq<DirNode>, directories: map<Path, nat>, root: Path, cur: nat)
    requires Indexed(nodes, directories, root) && ChildrenPlaced(nodes, directories, root) && 1 <= cur < |nodes|
    ensures var p := ParentOf(directories, root, nodes[cur].path);
      p < |nodes| &&
      var r := Link(nodes, p, cur);
      forall i, k :: 0 <= i < |r| && 0 <= k < |r[i].children| ==>
        1 <= r[i].children[k] < |r| && ParentOf(directories, root, r[r[i].children[k]].path) == i && !r[r[i].children[k]].toAdd
  {
    var p := ParentOf(directories, root, nodes[cur].path);
    ParentOfFacts(nodes, directories, root, cur);
    var r := Link(nodes, p, cur);
    forall i, k | 0 <= i < |r| && 0 <= k < |r[i].children|
      ensures 1 <= r[i].children[k] < |r| && ParentOf(directories, root, r[r[i].children[k]].path) == i
      ensures !r[r[i].children[k]].toAdd
    {
      var c := r[i].children[k];
      if i == p && k == |nodes[p].children| {
        assert c == cur;
      } else {
        assert c == nodes[i].children[k];
        assert 1 <= c < |nodes| && ParentOf(directories, root, nodes[c].path) == i && !nodes[c].toAdd;
      }
      assert r[c].path == nodes[c].path;
    }
  }

  lemma LinkChildrenDistinct(nodes: seq<DirNode>, directories: map<Path, nat>, root: Path, cur: nat)
    requires Indexed(nodes, directories, root) && ChildrenOk(nodes, directories, root) && 1 <= cur < |nodes|
    requires nodes[cur].toAdd
    ensures var p := ParentOf(directories, root, nodes[cur].path);
      p < |nodes| &&
      var r := Link(nodes, p, cur);
      forall i, k1, k2 :: 0 <= i < |r| && 0 <= k1 < k2 < |r[i].children| ==> r[i].children[k1] != r[i].children[k2]
  {
    var p := ParentOf(directories, root, nodes[cur].path);
    ParentOfFacts(nodes, directories, root, cur);
    var r := Link(nodes, p, cur);
    assert cur !in nodes[p].children;
    forall i, k1, k2 | 0 <= i < |r| && 0 <= k1 < k2 < |r[i].children|
      ensures r[i].children[k1] != r[i].children[k2]
    {
      if i == p && k2 == |nodes[p].children| {
        assert r[i].children[k1] == nodes[p].children[k1];
      } else {
        assert r[i].children[k1] == nodes[i].children[k1];
        assert r[i].children[k2] == nodes[i].children[k2];
      }
    }
  }

  lemma LinkAttachedOk(nodes: seq<DirNode>, directories: map<Path, nat>, root: Path, cur: nat)
    requires Indexed(nodes, directories, root) && AttachedOk(nodes, directories, root, cur)
    requires 1 <= cur < |nodes| && nodes[cur].toAdd
    requires |nodes[cur].children| > 0 || |nodes[cur].foundFiles| > 0
    ensures var p := ParentOf(directories, root, nodes[cur].path);
      p < |nodes| && AttachedOk(Link(nodes, p, cur), directories, root, p)
  {
    ParentOfFacts(nodes, directories, root, cur);
    LinkAttachedParents(nodes, directories, root, cur);
    var p := ParentOf(directories, root, nodes[cur].path);
    var r := Link(nodes, p, cur);
    forall c | 1 <= c < |r| && !r[c].toAdd ensures |r[c].children| > 0 || |r[c].foundFiles| > 0 {
    }
    forall c | 1 <= c < |r| && c != p && (|r[c].children| > 0 || |r[c].foundFiles| > 0) ensures !r[c].toAdd {
    }
  }

  lemma LinkAttachedParents(nodes: seq<DirNode>, directories: map<Path, nat>, root: Path, cur: nat)
    requires Indexed(nodes, directories, root) && 1 <= cur < |nodes|
    requires forall c {:trigger ParentOf(directories, root, nodes[c].path)} :: 1 <= c < |nodes| && !nodes[c].toAdd ==>
      var p := ParentOf(directories, root, nodes[c].path);
      p < |nodes| && c in nodes[p].children && (p == 0 || p == cur || !nodes[p].toAdd)
    ensures var p := ParentOf(directories, root, nodes[cur].path);
      p < |nodes| &&
      var r := Link(nodes, p, cur);
      forall c {:trigger ParentOf(directories, root, r[c].path)} :: 1 <= c < |r| && !r[c].toAdd ==>
        var q := ParentOf(directories, root, r[c].path);
        q < |r| && c in r[q].children && (q == 0 || q == p || !r[q].toAdd)
  {
    var p := ParentOf(directories, root, nodes[cur].path);
    ParentOfFacts(nodes, directories, root, cur);
    var r := Link(nodes, p, cur);
    forall c | 1 <= c < |r| && !r[c].toAdd
      ensures var q := ParentOf(directories, root, r[c].path);
        q < |r| && c in r[q].children && (q == 0 || q == p || !r[q].toAdd)
    {
      assert r[c].path == nodes[c].path;
      var q := ParentOf(directories, root, nodes[c].path);
      if c != cur {
        assert c in nodes[q].children;
        assert nodes[q].children <= r[q].children;
      }
    }
  }


  lemma StopKeeps(nodes: seq<DirNode>, directories: map<Path, nat>, root: Path, cur: nat)
    requires ValidExcept(nodes, directories, root, cur) && cur < |nodes| && (cur == 0 || !nodes[cur].toAdd)
    ensures Valid(nodes, directories, root)
  {
  }

  lemma InsertDirKeeps(nodes: seq<DirNode>, directories: map<Path, nat>, root: Path, name: string, p: Path)
    requires Valid(nodes, directories, root) && p !in directories
    requires IsProperPrefix(root, p) && (Up(p) == root || Up(p) in directories)
    ensures Valid(nodes + [DirNode(name, p, [], [], true)], directories[p := |nodes|], root)
  {
    InsertDirIndexed(nodes, directories, root, name, p);
    InsertDirLinks(nodes, directories, root, name, p);
    var r := nodes + [DirNode(name, p, [], [], true)];
    assert FilesOk(r) by {
      forall i, k | 0 <= i < |r| && 0 <= k < |r[i].foundFiles|
        ensures |r[i].foundFiles[k].lines| > 0 && r[i].foundFiles[k].path != [] && Up(r[i].foundFiles[k].path) == r[i].path
      {
        assert r[i] == nodes[i];
      }
    }
  }

  /** A new directory key does not change the parent of any existing node. */
  lemma InsertDirParents(nodes: seq<DirNode>, directories: map<Path, nat>, root: Path, p: Path)
    requires Indexed(nodes, directories, root) && p !in directories
    ensures forall c :: 1 <= c < |nodes| ==>
      ParentOf(directories[p := |nodes|], root, nodes[c].path) == ParentOf(directories, root, nodes[c].path)
  {
    forall c | 1 <= c < |nodes|
      ensures ParentOf(directories[p := |nodes|], root, nodes[c].path) == ParentOf(directories, root, nodes[c].path)
    {
      if Up(nodes[c].path) != root {
        assert Up(nodes[c].path) in directories;
      }
    }
  }

  lemma InsertDirLinks(nodes: seq<DirNode>, directories: map<Path, nat>, root: Path, name: string, p: Path)
    requires Valid(nodes, directories, root) && p !in directories
    ensures ChildrenOk(nodes + [DirNode(name, p, [], [], true)], directories[p := |nodes|], root)
    ensures AttachedOk(nodes + [DirNode(name, p, [], [], true)], directories[p := |nodes|], root, 0)
  {
    InsertDirParents(nodes, directories, root, p);
    InsertDirChildren(nodes, directories, root, name, p);
    InsertDirAttached(nodes, directories, root, name, p);
  }

  lemma InsertDirChildren(nodes: seq<DirNode>, directories: map<Path, nat>, root: Path, name: string, p: Path)
    requires ChildrenOk(nodes, directories, root) && |nodes| >= 1
    requires forall c :: 1 <= c < |nodes| ==>
      ParentOf(directories[p := |nodes|], root, nodes[c].path) == ParentOf(directories, root, nodes[c].path)
    ensures ChildrenOk(nodes + [DirNode(name, p, [], [], true)], directories[p := |nodes|], root)
  {
    var r := nodes + [DirNode(name, p, [], [], true)];
    var ds := directories[p := |nodes|];
    forall i, k | 0 <= i < |r| && 0 <= k < |r[i].children|
      ensures 1 <= r[i].children[k] < |r| && ParentOf(ds, root, r[r[i].children[k]].path) == i
      ensures !r[r[i].children[k]].toAdd
    {
      assert r[i] == nodes[i];
      var c := nodes[i].children[k];
      assert r[c] == nodes[c];
    }
    forall i, k1, k2 | 0 <= i < |r| && 0 <= k1 < k2 < |r[i].children|
      ensures r[i].children[k1] != r[i].children[k2]
    {
      assert r[i] == nodes[i];
    }
  }

  lemma InsertDirAttached(nodes: seq<DirNode>, directories: map<Path, nat>, root: Path, name: string, p: Path)
    requires AttachedOk(nodes, directories, root, 0) && |nodes| >= 1
    requires forall c :: 1 <= c < |nodes| ==> ParentOf(directories, root, nodes[c].path) < |nodes|
    requires forall c :: 1 <= c < |nodes| ==>
      ParentOf(directories[p := |nodes|], root, nodes[c].path) == ParentOf(directories, root, nodes[c].path)
    ensures AttachedOk(nodes + [DirNode(name, p, [], [], true)], directories[p := |nodes|], root, 0)
  {
    var r := nodes + [DirNode(name, p, [], [], true)];
    var ds := directories[p := |nodes|];
    forall c | 1 <= c < |r| && !r[c].toAdd
      ensures var q := ParentOf(ds, root, r[c].path); q < |r| && c in r[q].children && (q == 0 || !r[q].toAdd)
    {
      assert r[c] == nodes[c];
      var q := ParentOf(directories, root, nodes[c].path);
      assert r[q] == nodes[q];
    }
    forall c | 1 <= c < |r| && (|r[c].children| > 0 || |r[c].foundFiles| > 0) ensures !r[c].toAdd {
      assert r[c] == nodes[c];
    }
    forall c | 1 <= c < |r| && !r[c].toAdd ensures |r[c].children| > 0 || |r[c].foundFiles| > 0 {
      assert r[c] == nodes[c];
    }
  }


  lemma InsertDirIndexed(nodes: seq<DirNode>, directories: map<Path, nat>, root: Path, name: string, p: Path)
    requires Indexed(nodes, directories, root) && p !in directories
    requires IsProperPrefix(root, p) && (Up(p) == root || Up(p) in directories)
    ensures Indexed(nodes + [DirNode(name, p, [], [], true)], directories[p := |nodes|], root)
  {
    var r := nodes + [DirNode(name, p, [], [], true)];
    var ds := directories[p := |nodes|];
    forall q | q in ds ensures 1 <= ds[q] < |r| && r[ds[q]].path == q {
      if q != p {
        assert ds[q] == directories[q];
      }
    }
    forall c | 1 <= c < |r| ensures r[c].path in ds && ds[r[c].path] == c {
      if c < |nodes| {
        assert r[c] == nodes[c];
      }
    }
  }

  lemma ParentPathIsUp(root: Path, p: Path)
    requires root != [] && IsProperPrefix(root, p)
    ensures |p| >= 2 && ParentPath(p) == Some(Up(p))
    ensures Up(p) == root || IsProperPrefix(root, Up(p))
  {
  }

  /** The store step of `begin_search_on_directory` for a file with matched lines: push
      it into its directory's node, then link the directories above it. */
  method StoreMatchedFile(nodes: seq<DirNode>, directories: map<Path, nat>, root: Path, file: FileResult)
    returns (r: seq<DirNode>)
    requires Valid(nodes, directories, root)
    requires |file.lines| > 0 && IsProperPrefix(root, file.path)
    requires Up(file.path) == root || Up(file.path) in directories
    ensures Valid(r, directories, root) && SameShape(nodes, r)
    ensures var d := ParentOf(directories, root, file.path);
      forall i :: 0 <= i < |r| ==>
        r[i].foundFiles == if i == d then nodes[i].foundFiles + [file] else nodes[i].foundFiles
    ensures var d := ParentOf(directories, root, file.path); d == 0 || !r[d].toAdd
    ensures LinksAppended(nodes, r)
  {
    var dirPath := Up(file.path);
    if dirPath == nodes[0].path {
      // a file directly inside the root
      AddFileKeeps(nodes, directories, root, 0, file);
      r := AddFile(nodes, 0, file);
      AddFileAppends(nodes, 0, file, r);
      return;
    }
    var dirRef := directories[dirPath];
    AddFileKeeps(nodes, directories, root, dirRef, file);
    var added := AddFile(nodes, dirRef, file);
    SameShapeIndexed(nodes, added, directories, root);
    r := LinkUpward(added, directories, root, dirRef);
    AddFileAppends(nodes, dirRef, file, r);
  }

  /** The state of the upward walk that started at `start` and stands on `cur`: only links
      have changed, and `start` is linked unless the walk still stands on it. */
  ghost predicate Walking(nodes: seq<DirNode>, r: seq<DirNode>, directories: map<Path, nat>, root: Path, start: nat, cur: nat) {
    && 1 <= cur < |r| && SameShape(nodes, r) && start < |r|
    && ValidExcept(r, directories, root, cur)
    && (|r[cur].children| > 0 || |r[cur].foundFiles| > 0)
    && (forall i :: 0 <= i < |r| ==> r[i].foundFiles == nodes[i].foundFiles)
    && LinksAppended(nodes, r)
    && (start == cur || !r[start].toAdd)
  }

  /** One turn of the walk: link `cur` into its parent directory and move there. */
  lemma WalkStep(nodes: seq<DirNode>, r: seq<DirNode>, directories: map<Path, nat>, root: Path, start: nat, cur: nat)
    requires Walking(nodes, r, directories, root, start, cur) && r[cur].toAdd && Up(r[cur].path) != root
    ensures var p := Up(r[cur].path);
      && p in directories && 1 <= directories[p] < |r|
      && r[directories[p]].path == p
      && Walking(nodes, Link(r, directories[p], cur), directories, root, start, directories[p])
  {
    var p := Up(r[cur].path);
    ParentOfFacts(r, directories, root, cur);
    LinkKeeps(r, directories, root, cur);
    var r' := Link(r, directories[p], cur);
    assert SameShape(nodes, r');
    LinkAppends(nodes, r, directories[p], cur);
  }

  /** The end of the walk when it reached the root with `cur` still unlinked: `cur` is
      linked into the root. */
  lemma WalkEndAtRoot(nodes: seq<DirNode>, r: seq<DirNode>, directories: map<Path, nat>, root: Path, start: nat, cur: nat)
    requires Walking(nodes, r, directories, root, start, cur) && r[cur].toAdd && Up(r[cur].path) == root
    ensures var r' := Link(r, 0, cur);
      && Valid(r', directories, root) && SameShape(nodes, r')
      && (forall i :: 0 <= i < |r'| ==> r'[i].foundFiles == nodes[i].foundFiles)
      && !r'[start].toAdd
  {
    LinkIntoRoot(r, directories, root, cur);
    SameShapeTrans(nodes, r, Link(r, 0, cur));
  }

  lemma LinkIntoRoot(r: seq<DirNode>, directories: map<Path, nat>, root: Path, cur: nat)
    requires ValidExcept(r, directories, root, cur) && 1 <= cur < |r| && r[cur].toAdd
    requires |r[cur].children| > 0 || |r[cur].foundFiles| > 0
    requires Up(r[cur].path) == root
    ensures Valid(Link(r, 0, cur), directories, root)
  {
    assert ParentOf(directories, root, r[cur].path) == 0;
    LinkKeeps(r, directories, root, cur);
  }

  /** The end of the walk at a directory that is already linked. */
  lemma WalkEndLinked(nodes: seq<DirNode>, r: seq<DirNode>, directories: map<Path, nat>, root: Path, start: nat, cur: nat)
    requires Walking(nodes, r, directories, root, start, cur) && !r[cur].toAdd
    ensures Valid(r, directories, root) && !r[start].toAdd
  {
    StopKeeps(r, directories, root, cur);
  }

  /** The `while let` walk of the store step: starting at the node that just received a
      file, every directory whose `to_add` is still set is linked into its parent, up to
      the root or to the first directory that is already linked; a top-level directory
      is linked into the root. */
  method LinkUpward(nodes: seq<DirNode>, directories: map<Path, nat>, root: Path, start: nat)
    returns (r: seq<DirNode>)
    requires 1 <= start < |nodes| && ValidExcept(nodes, directories, root, start)
    requires |nodes[start].children| > 0 || |nodes[start].foundFiles| > 0
    ensures Valid(r, directories, root) && SameShape(nodes, r)
    ensures forall i :: 0 <= i < |r| ==> r[i].foundFiles == nodes[i].foundFiles
    ensures LinksAppended(nodes, r)
    ensures !r[start].toAdd
  {
    r := nodes;
    var dirRef := start;
    var dirPath := nodes[start].path;
    ParentPathIsUp(root, dirPath);
    var parentPath := ParentPath(dirPath);
    while parentPath.Some?
      invariant Walking(nodes, r, directories, root, start, dirRef)
      invariant parentPath == Some(Up(r[dirRef].path))
      decreases |r[dirRef].path|
    {
      var dirParentPath := parentPath.value;
      if dirParentPath == r[0].path {
        break;
      }
      var parentRef := directories[dirParentPath];
      if !r[dirRef].toAdd {
        break;
      }
      WalkStep(nodes, r, directories, root, start, dirRef);
      ParentPathIsUp(root, dirParentPath);
      r := Link(r, parentRef, dirRef);
      parentPath := ParentPath(dirParentPath);
      dirRef := parentRef;
    }
    if r[dirRef].toAdd {
      // the walk reached the root
      WalkEndAtRoot(nodes, r, directories, root, start, dirRef);
      LinkAppends(nodes, r, 0, dirRef);
      r := Link(r, 0, dirRef);
    } else {
      WalkEndLinked(nodes, r, directories, root, start, dirRef);
    }
  }

  // ---------------------------------------------------------------------------
  // begin_search_on_directory
  // ---------------------------------------------------------------------------

  /** The root's name: its file name, or "/" when it has none. */
  function RootName(root: Path): string {
    match GetNameAsString(root)
    case Success(name) => name
    case Failure(_) => "/"
  }

  /** Entry `j` contributes a file. */
  predicate Contributes(stored: seq<Option<FileResult>>, j: nat) {
    j < |stored| && stored[j].Some?
  }

  /** What the first `k` walker entries have left behind, given the file each entry
      contributes (`stored`): every directory among them has a node, and the stored files
      are exactly their contributions. */
  ghost predicate Recorded(walk: seq<WalkItem>, stored: seq<Option<FileResult>>,
                           k: nat, nodes: seq<DirNode>, directories: map<Path, nat>) {
    && k <= |walk| == |stored|
    && (forall j :: 0 <= j < k && walk[j].Entry? && walk[j].kind.DirEntry? ==> walk[j].path in directories)
    && (forall p :: p in directories ==> exists j :: 0 <= j < k && walk[j] == Entry(p, DirEntry))
    && (forall j {:trigger Contributes(stored, j)} :: 0 <= j < k && Contributes(stored, j) ==>
          exists i, m :: 0 <= i < |nodes| && 0 <= m < |nodes[i].foundFiles| && stored[j] == Some(nodes[i].foundFiles[m]))
    && (forall i, m :: 0 <= i < |nodes| && 0 <= m < |nodes[i].foundFiles| ==>
          exists j :: 0 <= j < k && stored[j] == Some(nodes[i].foundFiles[m]))
  }

  /** Every directory node carries its directory's name. */
  ghost predicate Named(nodes: seq<DirNode>) {
    forall c :: 1 <= c < |nodes| ==> GetNameAsString(nodes[c].path) == Success(nodes[c].name)
  }

  /** The directory an entry lies in is the root or a directory the walk has yielded. */
  lemma ParentKnown(root: Path, walk: seq<WalkItem>, stored: seq<Option<FileResult>>,
                    k: nat, nodes: seq<DirNode>, directories: map<Path, nat>)
    requires WalkOrdered(root, walk) && k < |walk| && walk[k].Entry?
    requires Recorded(walk, stored, k, nodes, directories)
    ensures IsProperPrefix(root, walk[k].path)
    ensures Up(walk[k].path) == root || Up(walk[k].path) in directories
  {
    var p := walk[k].path;
    ParentPathIsUp(root, p);
    if Up(p) != root {
      assert IsProperPrefix(Up(p), p);
      var j :| 0 <= j < k && walk[j] == Entry(Up(p), DirEntry);
    }
  }

  lemma OtherStep(walk: seq<WalkItem>, stored: seq<Option<FileResult>>,
                  k: nat, nodes: seq<DirNode>, directories: map<Path, nat>)
    requires Recorded(walk, stored, k, nodes, directories) && k < |walk|
    requires stored[k].None? && (walk[k].WalkError? || !walk[k].kind.DirEntry?)
    ensures Recorded(walk, stored, k + 1, nodes, directories)
  {
    forall i, m | 0 <= i < |nodes| && 0 <= m < |nodes[i].foundFiles|
      ensures exists j :: 0 <= j < k + 1 && stored[j] == Some(nodes[i].foundFiles[m])
    {
      var j :| 0 <= j < k && stored[j] == Some(nodes[i].foundFiles[m]);
    }
    forall p | p in directories ensures exists j :: 0 <= j < k + 1 && walk[j] == Entry(p, DirEntry) {
      var j :| 0 <= j < k && walk[j] == Entry(p, DirEntry);
    }
  }

  /** A directory entry whose path has a node already changes nothing. */
  lemma DirSeen(walk: seq<WalkItem>, stored: seq<Option<FileResult>>,
                k: nat, nodes: seq<DirNode>, directories: map<Path, nat>)
    requires Recorded(walk, stored, k, nodes, directories) && k < |walk| && stored[k].None?
    requires walk[k].Entry? && walk[k].kind.DirEntry? && walk[k].path in directories
    ensures Recorded(walk, stored, k + 1, nodes, directories)
  {
    forall i, m | 0 <= i < |nodes| && 0 <= m < |nodes[i].foundFiles|
      ensures exists j :: 0 <= j < k + 1 && stored[j] == Some(nodes[i].foundFiles[m])
    {
      var j :| 0 <= j < k && stored[j] == Some(nodes[i].foundFiles[m]);
    }
    forall q | q in directories ensures exists j :: 0 <= j < k + 1 && walk[j] == Entry(q, DirEntry) {
      var j :| 0 <= j < k && walk[j] == Entry(q, DirEntry);
    }
  }

  /** A directory entry with a new path gets a fresh node, with no children or files and
      `to_add` set. */
  lemma DirNew(walk: seq<WalkItem>, stored: seq<Option<FileResult>>,
               k: nat, nodes: seq<DirNode>, directories: map<Path, nat>, name: string)
    requires Recorded(walk, stored, k, nodes, directories) && k < |walk| && stored[k].None?
    requires walk[k].Entry? && walk[k].kind.DirEntry? && walk[k].path !in directories
    ensures Recorded(walk, stored, k + 1, nodes + [DirNode(name, walk[k].path, [], [], true)],
                     directories[walk[k].path := |nodes|])
  {
    var p := walk[k].path;
    var nodes', directories' := nodes + [DirNode(name, p, [], [], true)], directories[p := |nodes|];
    forall j | 0 <= j < k && Contributes(stored, j)
      ensures exists i, m :: 0 <= i < |nodes'| && 0 <= m < |nodes'[i].foundFiles| && stored[j] == Some(nodes'[i].foundFiles[m])
    {
      var i, m :| 0 <= i < |nodes| && 0 <= m < |nodes[i].foundFiles| && stored[j] == Some(nodes[i].foundFiles[m]);
      assert nodes'[i] == nodes[i];
    }
    forall i, m | 0 <= i < |nodes'| && 0 <= m < |nodes'[i].foundFiles|
      ensures exists j :: 0 <= j < k + 1 && stored[j] == Some(nodes'[i].foundFiles[m])
    {
      assert i < |nodes| && nodes'[i] == nodes[i];
      var j :| 0 <= j < k && stored[j] == Some(nodes[i].foundFiles[m]);
    }
    forall q | q in directories' ensures exists j :: 0 <= j < k + 1 && walk[j] == Entry(q, DirEntry) {
      if q != p {
        var j :| 0 <= j < k && walk[j] == Entry(q, DirEntry);
      } else {
        assert walk[k] == Entry(q, DirEntry);
      }
    }
  }

  lemma NamedNew(nodes: seq<DirNode>, name: string, p: Path)
    requires Named(nodes) && GetNameAsString(p) == Success(name)
    ensures Named(nodes + [DirNode(name, p, [], [], true)])
  {
    var nodes' := nodes + [DirNode(name, p, [], [], true)];
    forall c | 1 <= c < |nodes'| ensures GetNameAsString(nodes'[c].path) == Success(nodes'[c].name) {
      if c < |nodes| {
        assert nodes'[c] == nodes[c];
      }
    }
  }

  /** A file entry with a matched file: the file went into node `d`. */
  lemma FileStored(walk: seq<WalkItem>, stored: seq<Option<FileResult>>, k: nat,
                   nodes: seq<DirNode>, nodes': seq<DirNode>, directories: map<Path, nat>, d: nat)
    requires Recorded(walk, stored, k, nodes, directories) && k < |walk| && stored[k].Some?
    requires walk[k].Entry? && !walk[k].kind.DirEntry?
    requires d < |nodes| == |nodes'|
    requires forall i :: 0 <= i < |nodes| ==>
      nodes'[i].foundFiles == if i == d then nodes[i].foundFiles + [stored[k].value] else nodes[i].foundFiles
    ensures Recorded(walk, stored, k + 1, nodes', directories)
  {
    forall j | 0 <= j < k + 1 && Contributes(stored, j)
      ensures exists i, m :: 0 <= i < |nodes'| && 0 <= m < |nodes'[i].foundFiles| && stored[j] == Some(nodes'[i].foundFiles[m])
    {
      if j == k {
        assert stored[j] == Some(nodes'[d].foundFiles[|nodes[d].foundFiles|]);
      } else {
        var i, m :| 0 <= i < |nodes| && 0 <= m < |nodes[i].foundFiles| && stored[j] == Some(nodes[i].foundFiles[m]);
        assert nodes'[i].foundFiles[m] == nodes[i].foundFiles[m];
      }
    }
    forall i, m | 0 <= i < |nodes'| && 0 <= m < |nodes'[i].foundFiles|
      ensures exists j :: 0 <= j < k + 1 && stored[j] == Some(nodes'[i].foundFiles[m])
    {
      if i == d && m == |nodes[d].foundFiles| {
        assert stored[k] == Some(nodes'[i].foundFiles[m]);
      } else {
        assert nodes'[i].foundFiles[m] == nodes[i].foundFiles[m];
        var j :| 0 <= j < k && stored[j] == Some(nodes[i].foundFiles[m]);
      }
    }
    forall q | q in directories ensures exists j :: 0 <= j < k + 1 && walk[j] == Entry(q, DirEntry) {
      var j :| 0 <= j < k && walk[j] == Entry(q, DirEntry);
    }
  }

  /** No entry before the `k`th makes the search fail. */
  predicate FirstError(walk: seq<WalkItem>, home: Option<Path>, patterns: seq<Pattern>, k: nat) {
    k <= |walk| && forall j :: 0 <= j < k ==> EntryError(walk[j], home, patterns).None?
  }

  /** The file every walker entry contributes to the tree. */
  function Contributions(walk: seq<WalkItem>, home: Option<Path>, patterns: seq<Pattern>): (r: seq<Option<FileResult>>)
    ensures |r| == |walk|
  {
    seq(|walk|, j requires 0 <= j < |walk| => StoredFile(walk[j], home, patterns))
  }

  /** A contribution that is a file lying directly in `dir`. */
  predicate InDir(c: Option<FileResult>, dir: Path) {
    c.Some? && c.value.path != [] && Up(c.value.path) == dir
  }

  /** The files among the first `k` contributions that lie directly in `dir`, in walk order. */
  function FilesIn(stored: seq<Option<FileResult>>, k: nat, dir: Path): (r: seq<FileResult>)
    requires k <= |stored|
    ensures |r| <= k
  {
    if k == 0 then []
    else FilesIn(stored, k - 1, dir) + if InDir(stored[k - 1], dir) then [stored[k - 1].value] else []
  }

  /** Every node holds the files of its directory in the order the walk yielded them. */
  ghost predicate InWalkOrder(stored: seq<Option<FileResult>>, k: nat, nodes: seq<DirNode>) {
    k <= |stored| && forall i :: 0 <= i < |nodes| ==> nodes[i].foundFiles == FilesIn(stored, k, nodes[i].path)
  }

  /** An entry that contributes no file leaves every directory's files as they were. */
  lemma FilesInSkip(stored: seq<Option<FileResult>>, k: nat, nodes: seq<DirNode>)
    requires InWalkOrder(stored, k, nodes) && k < |stored| && stored[k].None?
    ensures InWalkOrder(stored, k + 1, nodes)
  {
  }

  /** A directory that no earlier file lies in has no files so far. */
  lemma {:induction false} FilesInNone(stored: seq<Option<FileResult>>, k: nat, dir: Path)
    requires k <= |stored| && forall j :: 0 <= j < k ==> !InDir(stored[j], dir)
    ensures FilesIn(stored, k, dir) == []
  {
    if k > 0 {
      FilesInNone(stored, k - 1, dir);
    }
  }

  /** A directory met for the first time holds none of the files stored so far: each of
      those lies in the root or in a directory that already has a node. */
  lemma FilesInNew(walk: seq<WalkItem>, stored: seq<Option<FileResult>>, k: nat,
                   nodes: seq<DirNode>, directories: map<Path, nat>, root: Path, p: Path)
    requires Recorded(walk, stored, k, nodes, directories) && Indexed(nodes, directories, root) && FilesOk(nodes)
    requires p != root && p !in directories
    ensures FilesIn(stored, k, p) == []
  {
    forall j | 0 <= j < k ensures !InDir(stored[j], p) {
      if stored[j].Some? {
        assert Contributes(stored, j);
        var i, m :| 0 <= i < |nodes| && 0 <= m < |nodes[i].foundFiles| && stored[j] == Some(nodes[i].foundFiles[m]);
        assert Up(stored[j].value.path) == nodes[i].path;
      }
    }
    FilesInNone(stored, k, p);
  }

  /** The node `ParentOf` picks for a path is the one node whose directory contains it. */
  lemma ParentOfIsDir(nodes: seq<DirNode>, directories: map<Path, nat>, root: Path, path: Path, i: nat)
    requires Indexed(nodes, directories, root) && i < |nodes| && path != []
    requires Up(path) == root || Up(path) in directories
    ensures nodes[i].path == Up(path) <==> i == ParentOf(directories, root, path)
  {
    if i >= 1 {
      assert IsProperPrefix(root, nodes[i].path);
    }
  }

  /** Storing the `k`th entry's file in its directory's node appends it to that
      directory's files and to no other. */
  lemma FilesInStore(stored: seq<Option<FileResult>>, k: nat, nodes: seq<DirNode>, nodes': seq<DirNode>,
                     directories: map<Path, nat>, root: Path)
    requires InWalkOrder(stored, k, nodes) && k < |stored| && stored[k].Some?
    requires Indexed(nodes, directories, root) && SameShape(nodes, nodes')
    requires stored[k].value.path != []
    requires Up(stored[k].value.path) == root || Up(stored[k].value.path) in directories
    requires forall i :: 0 <= i < |nodes| ==>
      nodes'[i].foundFiles == if i == ParentOf(directories, root, stored[k].value.path) then nodes[i].foundFiles + [stored[k].value] else nodes[i].foundFiles
    ensures InWalkOrder(stored, k + 1, nodes')
  {
    var file := stored[k].value;
    var d := ParentOf(directories, root, file.path);
    forall i | 0 <= i < |nodes'| ensures nodes'[i].foundFiles == FilesIn(stored, k + 1, nodes'[i].path) {
      assert nodes'[i].path == nodes[i].path;
      ParentOfIsDir(nodes, directories, root, file.path, i);
      assert InDir(stored[k], nodes[i].path) <==> i == d;
    }
  }

  /** The loop state of `begin_search_on_directory` after `k` entries. */
  ghost predicate Progress(root: Path, walk: seq<WalkItem>, home: Option<Path>, patterns: seq<Pattern>,
                           k: nat, nodes: seq<DirNode>, directories: map<Path, nat>) {
    && Valid(nodes, directories, root) && nodes[0].name == RootName(root) && Named(nodes)
    && Recorded(walk, Contributions(walk, home, patterns), k, nodes, directories)
    && FirstError(walk, home, patterns, k)
  }

  lemma ProgressDirNew(root: Path, walk: seq<WalkItem>, home: Option<Path>, patterns: seq<Pattern>,
                       k: nat, nodes: seq<DirNode>, directories: map<Path, nat>, name: string)
    requires Progress(root, walk, home, patterns, k, nodes, directories) && k < |walk|
    requires walk[k].Entry? && walk[k].kind.DirEntry? && GetNameAsString(walk[k].path) == Success(name)
    requires walk[k].path !in directories
    requires IsProperPrefix(root, walk[k].path) && (Up(walk[k].path) == root || Up(walk[k].path) in directories)
    ensures Progress(root, walk, home, patterns, k + 1, nodes + [DirNode(name, walk[k].path, [], [], true)],
                     directories[walk[k].path := |nodes|])
  {
    var stored := Contributions(walk, home, patterns);
    InsertDirKeeps(nodes, directories, root, name, walk[k].path);
    DirNew(walk, stored, k, nodes, directories, name);
    NamedNew(nodes, name, walk[k].path);
  }

  lemma ProgressDirSeen(root: Path, walk: seq<WalkItem>, home: Option<Path>, patterns: seq<Pattern>,
                        k: nat, nodes: seq<DirNode>, directories: map<Path, nat>)
    requires Progress(root, walk, home, patterns, k, nodes, directories) && k < |walk|
    requires walk[k].Entry? && walk[k].kind.DirEntry? && GetNameAsString(walk[k].path).Success?
    requires walk[k].path in directories
    ensures Progress(root, walk, home, patterns, k + 1, nodes, directories)
  {
    DirSeen(walk, Contributions(walk, home, patterns), k, nodes, directories);
  }

  lemma ProgressSkip(root: Path, walk: seq<WalkItem>, home: Option<Path>, patterns: seq<Pattern>,
                     k: nat, nodes: seq<DirNode>, directories: map<Path, nat>)
    requires Progress(root, walk, home, patterns, k, nodes, directories) && k < |walk|
    requires walk[k].WalkError? || !walk[k].kind.DirEntry?
    requires EntryError(walk[k], home, patterns).None? && StoredFile(walk[k], home, patterns).None?
    ensures Progress(root, walk, home, patterns, k + 1, nodes, directories)
  {
    OtherStep(walk, Contributions(walk, home, patterns), k, nodes, directories);
  }

  lemma ProgressFile(root: Path, walk: seq<WalkItem>, home: Option<Path>, patterns: seq<Pattern>,
                     k: nat, nodes: seq<DirNode>, directories: map<Path, nat>, nodes': seq<DirNode>)
    requires Progress(root, walk, home, patterns, k, nodes, directories) && k < |walk|
    requires walk[k].Entry? && walk[k].kind.FileEntry?
    requires EntryError(walk[k], home, patterns).None? && StoredFile(walk[k], home, patterns).Some?
    requires var file := StoredFile(walk[k], home, patterns).value;
      && file.path == walk[k].path && (Up(file.path) == root || Up(file.path) in directories)
      && Valid(nodes', directories, root) && SameShape(nodes, nodes')
      && forall i :: 0 <= i < |nodes'| ==>
           nodes'[i].foundFiles == if i == ParentOf(directories, root, file.path) then nodes[i].foundFiles + [file] else nodes[i].foundFiles
    ensures Progress(root, walk, home, patterns, k + 1, nodes', directories)
  {
    var stored := Contributions(walk, home, patterns);
    var file := StoredFile(walk[k], home, patterns).value;
    FileStored(walk, stored, k, nodes, nodes', directories, ParentOf(directories, root, file.path));
    NamedShape(nodes, nodes');
  }

  /** Before the first entry the tree is the root node alone. */
  lemma ProgressStart(root: Path, walk: seq<WalkItem>, home: Option<Path>, patterns: seq<Pattern>)
    requires WalkOrdered(root, walk)
    ensures Progress(root, walk, home, patterns, 0, [DirNode(RootName(root), root, [], [], true)], map[])
  {
  }

  /** One directory entry of the walk. */
  method VisitDir(root: Path, walk: seq<WalkItem>, home: Option<Path>, patterns: seq<Pattern>,
                  k: nat, nodes: seq<DirNode>, directories: map<Path, nat>)
    returns (r: Result<Arena, Errors>)
    requires WalkOrdered(root, walk)
    requires Progress(root, walk, home, patterns, k, nodes, directories) && k < |walk|
    requires InWalkOrder(Contributions(walk, home, patterns), k, nodes)
    requires walk[k].Entry? && walk[k].kind.DirEntry?
    ensures r.Failure? ==> EntryError(walk[k], home, patterns) == Some(r.error)
    ensures r.Success? ==> EntryError(walk[k], home, patterns).None?
    ensures r.Success? ==> Progress(root, walk, home, patterns, k + 1, r.value.nodes, r.value.directories)
    ensures r.Success? ==> InWalkOrder(Contributions(walk, home, patterns), k + 1, r.value.nodes)
  {
    var pb := walk[k].path;
    var stored := Contributions(walk, home, patterns);
    var dirName := GetNameAsString(pb);
    if dirName.Failure? {
      return Failure(dirName.error);
    }
    if pb !in directories {
      var nodes' := nodes + [DirNode(dirName.value, pb, [], [], true)];
      ParentKnown(root, walk, stored, k, nodes, directories);
      ProgressDirNew(root, walk, home, patterns, k, nodes, directories, dirName.value);
      FilesInNew(walk, stored, k, nodes, directories, root, pb);
      FilesInSkip(stored, k, nodes');
      return Success(Arena(nodes', directories[pb := |nodes|]));
    } else {
      ProgressDirSeen(root, walk, home, patterns, k, nodes, directories);
      FilesInSkip(stored, k, nodes);
      return Success(Arena(nodes, directories));
    }
  }

  /** One file entry of the walk. */
  method VisitFile(root: Path, walk: seq<WalkItem>, home: Option<Path>, patterns: seq<Pattern>,
                   k: nat, nodes: seq<DirNode>, directories: map<Path, nat>)
    returns (r: Result<Arena, Errors>)
    requires WalkOrdered(root, walk)
    requires Progress(root, walk, home, patterns, k, nodes, directories) && k < |walk|
    requires InWalkOrder(Contributions(walk, home, patterns), k, nodes)
    requires walk[k].Entry? && walk[k].kind.FileEntry?
    ensures r.Failure? ==> EntryError(walk[k], home, patterns) == Some(r.error)
    ensures r.Success? ==> EntryError(walk[k], home, patterns).None?
    ensures r.Success? ==> Progress(root, walk, home, patterns, k + 1, r.value.nodes, r.value.directories)
    ensures r.Success? ==> InWalkOrder(Contributions(walk, home, patterns), k + 1, r.value.nodes)
  {
    var pb := walk[k].path;
    var mFile := SearchFile(pb, walk[k].kind.content, walk[k].kind.link, home, patterns);
    if mFile.Failure? {
      return Failure(mFile.error);
    }
    if mFile.value.Some? && |mFile.value.value.lines| > 0 {
      var file := mFile.value.value;
      ParentKnown(root, walk, Contributions(walk, home, patterns), k, nodes, directories);
      var nodes' := StoreMatchedFile(nodes, directories, root, file);
      ProgressFile(root, walk, home, patterns, k, nodes, directories, nodes');
      FilesInStore(Contributions(walk, home, patterns), k, nodes, nodes', directories, root);
      return Success(Arena(nodes', directories));
    } else {
      ProgressSkip(root, walk, home, patterns, k, nodes, directories);
      FilesInSkip(Contributions(walk, home, patterns), k, nodes);
      return Success(Arena(nodes, directories));
    }
  }

  /** `begin_search_on_directory`: visits the walker's entries in order (the root itself is
      not among them). A directory entry gets a node unless its path has one; a file entry
      is searched, and a file with matched lines is stored and its directories linked up.
      The first entry whose name cannot be read ends the search with that error. */
  method BeginSearchOnDirectory(root: Path, walk: seq<WalkItem>, home: Option<Path>, patterns: seq<Pattern>)
    returns (r: Result<Arena, Errors>)
    requires WalkOrdered(root, walk)
    ensures r.Success? <==> FirstError(walk, home, patterns, |walk|)
    ensures r.Failure? ==> exists k :: 0 <= k < |walk| && EntryError(walk[k], home, patterns) == Some(r.error) && FirstError(walk, home, patterns, k)
    ensures r.Success? ==>
      && Valid(r.value.nodes, r.value.directories, root)
      && r.value.nodes[0].name == RootName(root)
      && Named(r.value.nodes)
      && Recorded(walk, Contributions(walk, home, patterns), |walk|, r.value.nodes, r.value.directories)
    ensures r.Success? ==> forall i :: 0 <= i < |r.value.nodes| ==>
      r.value.nodes[i].foundFiles == FilesIn(Contributions(walk, home, patterns), |walk|, r.value.nodes[i].path)
  {
    var directories: map<Path, nat> := map[];
    var nodes := [DirNode(RootName(root), root, [], [], true)];
    ProgressStart(root, walk, home, patterns);
    var k := 0;
    while k < |walk|
      invariant k <= |walk|
      invariant Progress(root, walk, home, patterns, k, nodes, directories)
      invariant InWalkOrder(Contributions(walk, home, patterns), k, nodes)
    {
      var step := Visit(root, walk, home, patterns, k, nodes, directories);
      if step.Failure? {
        FailureAt(walk, home, patterns, k);
        return Failure(step.error);
      }
      nodes, directories := step.value.nodes, step.value.directories;
      k := k + 1;
    }
    return Success(Arena(nodes, directories));
  }

  /** One entry of the walk. */
  method Visit(root: Path, walk: seq<WalkItem>, home: Option<Path>, patterns: seq<Pattern>,
               k: nat, nodes: seq<DirNode>, directories: map<Path, nat>)
    returns (r: Result<Arena, Errors>)
    requires WalkOrdered(root, walk)
    requires Progress(root, walk, home, patterns, k, nodes, directories) && k < |walk|
    requires InWalkOrder(Contributions(walk, home, patterns), k, nodes)
    ensures r.Failure? ==> EntryError(walk[k], home, patterns) == Some(r.error)
    ensures r.Success? ==> EntryError(walk[k], home, patterns).None?
    ensures r.Success? ==> Progress(root, walk, home, patterns, k + 1, r.value.nodes, r.value.directories)
    ensures r.Success? ==> InWalkOrder(Contributions(walk, home, patterns), k + 1, r.value.nodes)
  {
    if walk[k].Entry? && walk[k].kind.DirEntry? {
      r := VisitDir(root, walk, home, patterns, k, nodes, directories);
    } else if walk[k].Entry? && walk[k].kind.FileEntry? {
      r := VisitFile(root, walk, home, patterns, k, nodes, directories);
    } else {
      ProgressSkip(root, walk, home, patterns, k, nodes, directories);
      FilesInSkip(Contributions(walk, home, patterns), k, nodes);
      r := Success(Arena(nodes, directories));
    }
  }

  lemma FailureAt(walk: seq<WalkItem>, home: Option<Path>, patterns: seq<Pattern>, k: nat)
    requires FirstError(walk, home, patterns, k) && k < |walk| && EntryError(walk[k], home, patterns).Some?
    ensures !FirstError(walk, home, patterns, |walk|)
  {
  }

  lemma NamedShape(a: seq<DirNode>, b: seq<DirNode>)
    requires Named(a) && SameShape(a, b)
    ensures Named(b)
  {
  }
}
