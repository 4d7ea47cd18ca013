/**
 * The part of std::path the searcher relies on: a path is its list of
 * components, `parent` drops the last one, `file_name` is the last normal
 * component, and `starts_with` compares whole components.
 */
module Paths {
  import opened Wrappers

  /** One path component. `unicode` is false for an OS name that is not valid UTF-8;
      `name` then holds its lossy rendering. */
  datatype Segment = RootDir | CurDir | ParentDir | Normal(name: string, unicode: bool)

  type Path = seq<Segment>

  /** Path::parent: None for the empty path and for the filesystem root. */
  function ParentPath(p: Path): (r: Option<Path>)
    ensures r.Some? ==> |r.value| + 1 == |p| && IsProperPrefix(r.value, p)
    ensures r.None? <==> p == [] || p == [RootDir]
  {
    if p == [] || p == [RootDir] then None else Some(p[..|p| - 1])
  }

  /** Path::starts_with: `a` is a prefix of `b`, component by component. */
  predicate IsPrefix(a: Path, b: Path) {
    |a| <= |b| && b[..|a|] == a
  }

  predicate IsProperPrefix(a: Path, b: Path) {
    |a| < |b| && b[..|a|] == a
  }

  function SegmentText(s: Segment): string {
    match s
    case RootDir => ""
    case CurDir => "."
    case ParentDir => ".."
    case Normal(n, _) => n
  }

  function JoinSegments(p: Path): string
  {
    if p == [] then ""
    else if |p| == 1 then SegmentText(p[0])
    else SegmentText(p[0]) + "/" + JoinSegments(p[1..])
  }

  /** Path::to_string_lossy. */
  function Display(p: Path): string {
    if p == [] then ""
    else if p[0] == RootDir then "/" + JoinSegments(p[1..])
    else JoinSegments(p)
  }
}
