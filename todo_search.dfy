/**
 * The older single-pattern searcher of copy.rs: it looks for the four bytes
 * `TODO` in every line of a file and prints the enclosing directories that
 * have not been printed yet, the file name once, and every matching line.
 * Directories form a chain from the file's directory up to the root, each
 * with a `print` flag that is cleared once its name has been written.
 */
module TodoSearch {
  import opened Wrappers
  import opened Bytes
  import opened Formats
  import LineMatcher
  import Printer

  /** `TODO_BYTES`: `T`, `O`, `D`, `O`. */
  const TODO_BYTES: seq<byte> := [84, 79, 68, 79]

  predicate OccursAt(line: seq<byte>, i: nat) {
    i + |TODO_BYTES| <= |line| && line[i..i + |TODO_BYTES|] == TODO_BYTES
  }

  /** `TODO` occurs in `line` as a contiguous run of bytes. */
  predicate ContainsTodo(line: seq<byte>) {
    exists i: nat :: i < |line| && OccursAt(line, i)
  }

  /** `line_contains_bytes`: tries every start position `0..=len - 4`. */
  method LineContainsBytes(line: seq<byte>) returns (found: bool)
    ensures found <==> ContainsTodo(line)
    ensures |line| < |TODO_BYTES| ==> !found
  {
    var tarLen := |TODO_BYTES|;
    if |line| < tarLen {
      return false;
    }
    for i := 0 to |line| - tarLen + 1
      invariant forall k: nat :: k < i ==> !OccursAt(line, k)
    {
      if line[i..i + tarLen] == TODO_BYTES {
        assert OccursAt(line, i);
        return true;
      }
    }
    return false;
  }

  // ---------------------------------------------------------------------------
  // The chain of enclosing directories
  // ---------------------------------------------------------------------------

  /** A `Directory` of copy.rs without its `parent` link: the chain stores the links. */
  datatype Ancestor = Ancestor(name: string, shouldPrint: bool)

  /**
   * A chain lists a directory, its parent, and so on up to the root, which is
   * last (its `parent` is `None`).
   */
  predicate ValidChain(chain: seq<Ancestor>) {
    |chain| >= 1
  }

  /** Where the upward walk stops, looking from index `k`: the first directory already printed, or the root. */
  function WalkEnd(chain: seq<Ancestor>, k: nat): (j: nat)
    requires k < |chain|
    ensures k <= j < |chain|
    decreases |chain| - k
  {
    if chain[k].shouldPrint && k + 1 < |chain| then WalkEnd(chain, k + 1) else k
  }

  function Reverse(s: seq<string>): (r: seq<string>)
    ensures |r| == |s|
  {
    if s == [] then [] else Reverse(s[1..]) + [s[0]]
  }

  function Names(chain: seq<Ancestor>): (r: seq<string>)
    ensures |r| == |chain|
  {
    if chain == [] then [] else Names(chain[..|chain| - 1]) + [chain[|chain| - 1].name]
  }

  /** The names the walk writes: the walked directories and, if still unprinted, the one it stopped at, outermost first. */
  function Emitted(chain: seq<Ancestor>): seq<string>
    requires ValidChain(chain)
  {
    var j := WalkEnd(chain, 0);
    Reverse(Names(chain[..j]) + if chain[j].shouldPrint then [chain[j].name] else [])
  }

  /** The chain with the `print` flags of the first `k` directories cleared. */
  function ClearedUpTo(chain: seq<Ancestor>, k: nat): (r: seq<Ancestor>)
    requires k <= |chain|
    ensures |r| == |chain|
  {
    if k == 0 then chain else ClearedUpTo(chain, k - 1)[k - 1 := chain[k - 1].(shouldPrint := false)]
  }

  /** The chain after the walk: every walked directory is marked printed; the stopping one is untouched. */
  function Cleared(chain: seq<Ancestor>): seq<Ancestor>
    requires ValidChain(chain)
  {
    ClearedUpTo(chain, WalkEnd(chain, 0))
  }

  lemma {:induction false} ClearedUpToAt(chain: seq<Ancestor>, k: nat, i: nat)
    requires k <= |chain| && i < |chain|
    ensures ClearedUpTo(chain, k)[i] == if i < k then chain[i].(shouldPrint := false) else chain[i]
  {
    if k > 0 {
      ClearedUpToAt(chain, k - 1, i);
    }
  }

  lemma {:induction false} NamesAppend(chain: seq<Ancestor>, a: Ancestor)
    ensures Names(chain + [a]) == Names(chain) + [a.name]
  {
    assert (chain + [a])[..|chain|] == chain;
  }

  /**
   * The walk of lines 109-121: push the names of unprinted directories while
   * there is a parent, clearing their flags; then the stopping directory's
   * name if it is unprinted; then reverse.
   */
  method EmitAncestors(chain: seq<Ancestor>) returns (names: seq<string>, updated: seq<Ancestor>)
    requires ValidChain(chain)
    ensures names == Emitted(chain)
    ensures updated == Cleared(chain)
  {
    var toPrint: seq<string> := [];
    var k := 0;
    updated := chain;
    while updated[k].shouldPrint && k + 1 < |chain|
      invariant k < |chain|
      invariant WalkEnd(chain, 0) == WalkEnd(chain, k)
      invariant toPrint == Names(chain[..k])
      invariant updated == ClearedUpTo(chain, k) && updated[k] == chain[k]
      decreases |chain| - k
    {
      NamesAppend(chain[..k], chain[k]);
      assert chain[..k + 1] == chain[..k] + [chain[k]];
      toPrint := toPrint + [updated[k].name];
      updated := updated[k := updated[k].(shouldPrint := false)];
      k := k + 1;
      ClearedUpToAt(chain, k, k);
    }
    assert WalkEnd(chain, k) == k;
    if updated[k].shouldPrint {
      toPrint := toPrint + [updated[k].name];
    }
    assert toPrint == Names(chain[..k]) + if chain[k].shouldPrint then [chain[k].name] else [];
    names := Reverse(toPrint);
  }

  lemma {:induction false} ReverseAt(s: seq<string>, k: nat)
    requires k < |s|
    ensures Reverse(s)[k] == s[|s| - 1 - k]
  {
    if k < |s| - 1 {
      ReverseAt(s[1..], k);
    }
  }

  lemma {:induction false} WalkEndFacts(chain: seq<Ancestor>, k: nat)
    requires k < |chain|
    ensures forall i :: k <= i < WalkEnd(chain, k) ==> chain[i].shouldPrint
    ensures WalkEnd(chain, k) == |chain| - 1 || !chain[WalkEnd(chain, k)].shouldPrint
    decreases |chain| - k
  {
    if chain[k].shouldPrint && k + 1 < |chain| {
      WalkEndFacts(chain, k + 1);
    }
  }

  /**
   * The names written are exactly those of the longest run of unprinted
   * directories starting at the file's own, outermost first; the walk stops at
   * the first directory already printed.
   */
  lemma EmittedOrder(chain: seq<Ancestor>)
    requires ValidChain(chain)
    ensures var e := Emitted(chain);
      forall k :: 0 <= k < |e| ==> e[k] == chain[|e| - 1 - k].name && chain[|e| - 1 - k].shouldPrint
    ensures |Emitted(chain)| == |chain| || !chain[|Emitted(chain)|].shouldPrint
  {
    var j := WalkEnd(chain, 0);
    WalkEndFacts(chain, 0);
    var pushed := Names(chain[..j]) + if chain[j].shouldPrint then [chain[j].name] else [];
    var e := Emitted(chain);
    forall k | 0 <= k < |e|
      ensures e[k] == chain[|e| - 1 - k].name && chain[|e| - 1 - k].shouldPrint
    {
      ReverseAt(pushed, k);
      var i := |e| - 1 - k;
      if i < j {
        NamesAt(chain[..j], i);
      }
    }
  }

  lemma {:induction false} NamesAt(chain: seq<Ancestor>, i: nat)
    requires i < |chain|
    ensures Names(chain)[i] == chain[i].name
  {
    if i < |chain| - 1 {
      assert chain[..|chain| - 1][i] == chain[i];
      NamesAt(chain[..|chain| - 1], i);
    }
  }

  /**
   * Every directory the walk passes is marked printed; the directory it stops
   * at, everything above it and the root keep their flags, and no name changes.
   */
  lemma ClearedFacts(chain: seq<Ancestor>)
    requires ValidChain(chain)
    ensures |Cleared(chain)| == |chain|
    ensures forall i :: 0 <= i < |chain| ==>
      Cleared(chain)[i] == if i < WalkEnd(chain, 0) then chain[i].(shouldPrint := false) else chain[i]
    ensures forall i :: 0 <= i < |chain| ==> Cleared(chain)[i].name == chain[i].name
    ensures forall i :: 0 <= i < |Emitted(chain)| && i < |chain| - 1 ==> !Cleared(chain)[i].shouldPrint
    ensures Cleared(chain)[|chain| - 1] == chain[|chain| - 1]
  {
    var j := WalkEnd(chain, 0);
    EmittedOrder(chain);
    WalkEndFacts(chain, 0);
    forall i | 0 <= i < |chain|
      ensures Cleared(chain)[i] == if i < j then chain[i].(shouldPrint := false) else chain[i]
    {
      ClearedUpToAt(chain, j, i);
    }
  }

  /** A second walk over the updated chain writes nothing, unless the chain is the root alone. */
  lemma EmitOnce(chain: seq<Ancestor>)
    requires ValidChain(chain) && |chain| > 1
    ensures Emitted(Cleared(chain)) == []
  {
    var j := WalkEnd(chain, 0);
    var c := Cleared(chain);
    ClearedUpToAt(chain, j, 0);
    assert !c[0].shouldPrint by {
      if j == 0 {
        assert !chain[0].shouldPrint;
      }
    }
    assert WalkEnd(c, 0) == 0;
    assert c[..0] == [];
  }

  // ---------------------------------------------------------------------------
  // Output rows
  // ---------------------------------------------------------------------------

  /** `depth` spaces. */
  function Indent(depth: nat): (r: string)
    ensures |r| == depth && forall k :: 0 <= k < depth ==> r[k] == ' '
  {
    seq(depth, _ => ' ')
  }

  /**
   * `write_dir_name`: the bare name at depth 0, otherwise indented behind the
   * branch glyph. The glyph (`BRANCH_CHAR`) is not among the constants of
   * formats.rs, so it is a parameter.
   */
  function DirRow(name: string, depth: nat, branch: string): seq<Piece> {
    if depth == 0 then [Str(name + NEW_LINE)] else [Str(Indent(depth) + branch + name + NEW_LINE)]
  }

  function DirRows(names: seq<string>, depth: nat, branch: string): seq<Piece> {
    if names == [] then [] else DirRows(names[..|names| - 1], depth, branch) + DirRow(names[|names| - 1], depth, branch)
  }

  /** `write_file_name`. */
  function FileRow(name: string, depth: nat, branch: string): seq<Piece> {
    [Str(Indent(depth) + branch + name + NEW_LINE)]
  }

  /** `write_matched_line`: the line without its leading whitespace. */
  function LineRow(line: seq<byte>, depth: nat, branch: string): seq<Piece> {
    [Str(Indent(depth) + branch), Raw(Printer.TrimStart(line)), Str(NEW_LINE)]
  }

  function LineRows(lines: seq<seq<byte>>, depth: nat, branch: string): seq<Piece> {
    if lines == [] then [] else LineRows(lines[..|lines| - 1], depth, branch) + LineRow(lines[|lines| - 1], depth, branch)
  }

  /** Each matched line is written as its indentation, the glyph, and its text with leading whitespace removed. */
  lemma LineRowShape(line: seq<byte>, depth: nat, branch: string)
    ensures var r := LineRow(line, depth, branch);
      |r| == 3 && r[0].Str? && |r[0].text| == depth + |branch| && r[0].text[..depth] == Indent(depth) &&
      |Printer.TrimStart(line)| <= |line| && r[1] == Raw(line[|line| - |Printer.TrimStart(line)|..]) && Printer.AllTextSpace(line[..|line| - |Printer.TrimStart(line)|]) &&
      (Printer.TrimStart(line) != [] ==> !Printer.IsTextSpace(Printer.TrimStart(line)[0]))
  {
    Printer.TrimStartFacts(line);
    assert (Indent(depth) + branch)[..depth] == Indent(depth);
  }

  // ---------------------------------------------------------------------------
  // Lines of a file
  // ---------------------------------------------------------------------------

  /** `is_ascii`. */
  predicate IsAscii(contents: seq<byte>) {
    forall k :: 0 <= k < |contents| ==> contents[k] < 128
  }

  /** Where the line holding position `i` starts: just after the last newline before `i`. */
  function LineStart(contents: seq<byte>, i: nat): (r: nat)
    requires i <= |contents|
    ensures r <= i
  {
    if i == 0 then 0 else if contents[i - 1] == NEWLINE then i else LineStart(contents, i - 1)
  }

  /** The newline-terminated lines of `contents[..i]`, without their newlines. */
  function Fragments(contents: seq<byte>, i: nat): seq<seq<byte>>
    requires i <= |contents|
  {
    if i == 0 then []
    else
      var line := if contents[i - 1] == NEWLINE then [contents[LineStart(contents, i - 1)..i - 1]] else [];
      Fragments(contents, i - 1) + line
  }

  /** The lines among `lines` that hold `TODO`, in order. */
  function Matching(lines: seq<seq<byte>>): seq<seq<byte>> {
    if lines == [] then []
    else Matching(lines[..|lines| - 1]) + if ContainsTodo(lines[|lines| - 1]) then [lines[|lines| - 1]] else []
  }

  /** The text after the last newline. */
  function FinalFragment(contents: seq<byte>): seq<byte> {
    contents[LineStart(contents, |contents|)..]
  }

  /** The final fragment is examined when it is not empty and it holds `TODO`. */
  predicate FinalMatches(contents: seq<byte>) {
    FinalFragment(contents) != [] && ContainsTodo(FinalFragment(contents))
  }

  /** Appending one byte to a buffer either opens a new fragment or extends the last one. */
  predicate SnocSplits(s: seq<byte>, b: byte) {
    var t := LineMatcher.SplitLines(s);
    LineMatcher.SplitLines(s + [b]) == if b == NEWLINE then t + [[]] else t[..|t| - 1] + [t[|t| - 1] + [b]]
  }

  lemma {:induction false} SplitSnoc(s: seq<byte>, b: byte)
    ensures SnocSplits(s, b)
  {
    if s == [] {
      assert s + [b] == [b] && [b][1..] == [];
      assert LineMatcher.SplitLines(s) == [[]];
      if b != NEWLINE {
        assert [b] + [] == [b] && [] + [b] == [b];
        assert LineMatcher.SplitLines([b]) == [[b]];
      }
    } else {
      SplitSnoc(s[1..], b);
      assert (s + [b])[1..] == s[1..] + [b] && (s + [b])[0] == s[0];
      if s[0] == NEWLINE {
        SnocAfterNewline(s, b);
      } else {
        SnocAfterText(s, b);
      }
    }
  }

  lemma SnocAfterNewline(s: seq<byte>, b: byte)
    requires s != [] && s[0] == NEWLINE && (s + [b])[1..] == s[1..] + [b] && (s + [b])[0] == s[0]
    requires SnocSplits(s[1..], b)
    ensures SnocSplits(s, b)
  {
    var t' := LineMatcher.SplitLines(s[1..]);
    var u' := LineMatcher.SplitLines(s[1..] + [b]);
    var t := LineMatcher.SplitLines(s);
    var m := |t'|;
    assert t == [[]] + t';
    assert LineMatcher.SplitLines(s + [b]) == [[]] + u';
    if b != NEWLINE {
      assert t[..|t| - 1] == [[]] + t'[..m - 1];
      assert t[|t| - 1] == t'[m - 1];
    }
  }

  lemma SnocAfterText(s: seq<byte>, b: byte)
    requires s != [] && s[0] != NEWLINE && (s + [b])[1..] == s[1..] + [b] && (s + [b])[0] == s[0]
    requires SnocSplits(s[1..], b)
    ensures SnocSplits(s, b)
  {
    var t' := LineMatcher.SplitLines(s[1..]);
    var u' := LineMatcher.SplitLines(s[1..] + [b]);
    assert LineMatcher.SplitLines(s) == [[s[0]] + t'[0]] + t'[1..];
    assert LineMatcher.SplitLines(s + [b]) == [[s[0]] + u'[0]] + u'[1..];
    ConsFragment(s[0], b, t', u');
  }

  /** Putting a byte in front of the first fragment commutes with appending a byte at the end. */
  lemma ConsFragment(c: byte, b: byte, t': seq<seq<byte>>, u': seq<seq<byte>>)
    requires |t'| >= 1
    requires u' == if b == NEWLINE then t' + [[]] else t'[..|t'| - 1] + [t'[|t'| - 1] + [b]]
    ensures var t := [[c] + t'[0]] + t'[1..];
      [[c] + u'[0]] + u'[1..] == if b == NEWLINE then t + [[]] else t[..|t| - 1] + [t[|t| - 1] + [b]]
  {
    var m := |t'|;
    var t := [[c] + t'[0]] + t'[1..];
    if b == NEWLINE {
      assert u'[0] == t'[0] && u'[1..] == t'[1..] + [[]];
    } else if m == 1 {
      assert u' == [t'[0] + [b]];
      assert t == [[c] + t'[0]];
      assert [c] + (t'[0] + [b]) == ([c] + t'[0]) + [b];
      assert u'[1..] == [];
    } else {
      assert u'[0] == t'[0] && u'[1..] == t'[1..m - 1] + [t'[m - 1] + [b]];
      assert t[..|t| - 1] == [[c] + t'[0]] + t'[1..m - 1];
      assert t[|t| - 1] == t'[m - 1];
    }
  }

  /** The loop's lines, completed by the final fragment, are the newline-separated fragments. */
  lemma {:induction false} FragmentsPrefix(contents: seq<byte>, i: nat)
    requires i <= |contents|
    ensures Fragments(contents, i) + [contents[LineStart(contents, i)..i]] == LineMatcher.SplitLines(contents[..i])
  {
    if i > 0 {
      var b := contents[i - 1];
      FragmentsPrefix(contents, i - 1);
      assert contents[..i] == contents[..i - 1] + [b];
      SplitSnoc(contents[..i - 1], b);
      assert SnocSplits(contents[..i - 1], b);
      var fs := Fragments(contents, i - 1);
      var cur := contents[LineStart(contents, i - 1)..i - 1];
      ExtendFragments(fs, cur, b, LineMatcher.SplitLines(contents[..i - 1]), LineMatcher.SplitLines(contents[..i]));
      FragmentsUnfold(contents, i);
    }
  }

  /** One step of `Fragments` and `LineStart`, by the byte just read. */
  lemma FragmentsUnfold(contents: seq<byte>, i: nat)
    requires 0 < i <= |contents|
    ensures var cur := contents[LineStart(contents, i - 1)..i - 1];
      if contents[i - 1] == NEWLINE then
        Fragments(contents, i) == Fragments(contents, i - 1) + [cur] && contents[LineStart(contents, i)..i] == []
      else
        Fragments(contents, i) == Fragments(contents, i - 1) && contents[LineStart(contents, i)..i] == cur + [contents[i - 1]]
  {
    if contents[i - 1] == NEWLINE {
      assert LineStart(contents, i) == i;
    } else {
      assert Fragments(contents, i) == Fragments(contents, i - 1) + [];
      assert LineStart(contents, i) == LineStart(contents, i - 1);
    }
  }

  /** One more byte either closes the current fragment or extends it. */
  lemma ExtendFragments(fs: seq<seq<byte>>, cur: seq<byte>, b: byte, t: seq<seq<byte>>, u: seq<seq<byte>>)
    requires fs + [cur] == t
    requires u == if b == NEWLINE then t + [[]] else t[..|t| - 1] + [t[|t| - 1] + [b]]
    ensures b == NEWLINE ==> (fs + [cur]) + [[]] == u
    ensures b != NEWLINE ==> fs + [cur + [b]] == u
  {
    assert t[..|t| - 1] == fs;
  }

  lemma {:induction false} MatchingSnoc(lines: seq<seq<byte>>, line: seq<byte>)
    ensures Matching(lines + [line]) == Matching(lines) + if ContainsTodo(line) then [line] else []
  {
    assert (lines + [line])[..|lines|] == lines;
  }

  /**
   * The lines the search reports are the newline-separated fragments of the
   * file that hold `TODO`, the final one included, in file order.
   */
  lemma MatchedLinesSplit(contents: seq<byte>)
    ensures MatchedLines(contents) == Matching(LineMatcher.SplitLines(contents))
  {
    FragmentsPrefix(contents, |contents|);
    assert contents[..|contents|] == contents;
    MatchingSnoc(Fragments(contents, |contents|), FinalFragment(contents));
  }

  /** The rows for the enclosing directories, when a chain is given. */
  function AncestorRows(directory: Option<seq<Ancestor>>, depth: nat, branch: string): seq<Piece>
    requires directory.Some? ==> ValidChain(directory.value)
  {
    if directory.Some? then DirRows(Emitted(directory.value), depth, branch) else []
  }

  /** What the byte loop has written once it has looked at `contents[..i]`. */
  function Written(contents: seq<byte>, i: nat, fileName: string, directory: Option<seq<Ancestor>>, depth: nat, branch: string): seq<Piece>
    requires i <= |contents|
    requires directory.Some? ==> ValidChain(directory.value)
  {
    var found := Matching(Fragments(contents, i));
    if found == [] then []
    else AncestorRows(directory, depth, branch) + FileRow(fileName, depth, branch) + LineRows(found, depth, branch)
  }

  /**
   * The output of `search_file` as written: the final fragment, when it is the
   * only match, gets the file name but not the pending directory names.
   */
  function OutputAsWritten(contents: seq<byte>, fileName: string, directory: Option<seq<Ancestor>>, depth: nat, branch: string): seq<Piece>
    requires directory.Some? ==> ValidChain(directory.value)
  {
    if !IsAscii(contents) then []
    else
      var terminated := Matching(Fragments(contents, |contents|));
      var final :=
        if !FinalMatches(contents) then []
        else if terminated == [] then FileRow(fileName, depth, branch) + LineRow(FinalFragment(contents), depth, branch)
        else LineRow(FinalFragment(contents), depth, branch);
      Written(contents, |contents|, fileName, directory, depth, branch) + final
  }

  /** Every line of the file that holds `TODO`, the final fragment included. */
  function MatchedLines(contents: seq<byte>): seq<seq<byte>> {
    Matching(Fragments(contents, |contents|)) + if FinalMatches(contents) then [FinalFragment(contents)] else []
  }

  /**
   * The evidently intended output: pending directory names, the file name
   * once, then every matching line, whether or not it ends in a newline.
   */
  function Output(contents: seq<byte>, fileName: string, directory: Option<seq<Ancestor>>, depth: nat, branch: string): seq<Piece>
    requires directory.Some? ==> ValidChain(directory.value)
  {
    if !IsAscii(contents) || MatchedLines(contents) == [] then []
    else AncestorRows(directory, depth, branch) + FileRow(fileName, depth, branch) + LineRows(MatchedLines(contents), depth, branch)
  }

  lemma LineRowsSnoc(lines: seq<seq<byte>>, line: seq<byte>, depth: nat, branch: string)
    ensures LineRows(lines + [line], depth, branch) == LineRows(lines, depth, branch) + LineRow(line, depth, branch)
  {
    assert (lines + [line])[..|lines|] == lines;
  }

  lemma DirRowsSnoc(names: seq<string>, name: string, depth: nat, branch: string)
    ensures DirRows(names + [name], depth, branch) == DirRows(names, depth, branch) + DirRow(name, depth, branch)
  {
    assert (names + [name])[..|names|] == names;
  }

  lemma Regroup(a: seq<Piece>, b: seq<Piece>, c: seq<Piece>)
    ensures a + b + c == a + (b + c)
  {
  }

  /** The two agree on every file whose last line ends in a newline or holds no `TODO`. */
  lemma AgreeWhenTerminated(contents: seq<byte>, fileName: string, directory: Option<seq<Ancestor>>, depth: nat, branch: string)
    requires directory.Some? ==> ValidChain(directory.value)
    requires !FinalMatches(contents) || Matching(Fragments(contents, |contents|)) != []
    ensures OutputAsWritten(contents, fileName, directory, depth, branch) == Output(contents, fileName, directory, depth, branch)
  {
    if IsAscii(contents) {
      if FinalMatches(contents) {
        AgreeWithFinal(contents, fileName, directory, depth, branch);
      } else {
        AgreeWithoutFinal(contents, fileName, directory, depth, branch);
      }
    }
  }

  lemma AgreeWithoutFinal(contents: seq<byte>, fileName: string, directory: Option<seq<Ancestor>>, depth: nat, branch: string)
    requires directory.Some? ==> ValidChain(directory.value)
    requires IsAscii(contents) && !FinalMatches(contents)
    ensures OutputAsWritten(contents, fileName, directory, depth, branch) == Output(contents, fileName, directory, depth, branch)
  {
    var terminated := Matching(Fragments(contents, |contents|));
    var w := Written(contents, |contents|, fileName, directory, depth, branch);
    assert MatchedLines(contents) == terminated + [] == terminated;
    assert OutputAsWritten(contents, fileName, directory, depth, branch) == w + [] == w;
  }

  lemma AgreeWithFinal(contents: seq<byte>, fileName: string, directory: Option<seq<Ancestor>>, depth: nat, branch: string)
    requires directory.Some? ==> ValidChain(directory.value)
    requires IsAscii(contents) && FinalMatches(contents) && Matching(Fragments(contents, |contents|)) != []
    ensures OutputAsWritten(contents, fileName, directory, depth, branch) == Output(contents, fileName, directory, depth, branch)
  {
    var terminated := Matching(Fragments(contents, |contents|));
    var last := FinalFragment(contents);
    var pre := AncestorRows(directory, depth, branch) + FileRow(fileName, depth, branch);
    assert MatchedLines(contents) == terminated + [last];
    LineRowsSnoc(terminated, last, depth, branch);
    Regroup(pre, LineRows(terminated, depth, branch), LineRow(last, depth, branch));
  }

  /** Each matched line is a `TODO` line of the input, in the input's order. */
  lemma {:induction false} MatchingFacts(lines: seq<seq<byte>>)
    ensures forall k :: 0 <= k < |Matching(lines)| ==> ContainsTodo(Matching(lines)[k]) && Matching(lines)[k] in lines
  {
    if lines != [] {
      MatchingFacts(lines[..|lines| - 1]);
    }
  }

  /** The `k`-th matched line is written as pieces `3k` to `3k + 2`. */
  lemma {:induction false} LineRowsAt(lines: seq<seq<byte>>, depth: nat, branch: string)
    ensures |LineRows(lines, depth, branch)| == 3 * |lines|
    ensures forall k :: 0 <= k < |lines| ==>
      && LineRows(lines, depth, branch)[3 * k] == Str(Indent(depth) + branch)
      && LineRows(lines, depth, branch)[3 * k + 1] == Raw(Printer.TrimStart(lines[k]))
      && LineRows(lines, depth, branch)[3 * k + 2] == Str(NEW_LINE)
  {
    if lines != [] {
      LineRowsAt(lines[..|lines| - 1], depth, branch);
    }
  }

  /** The `TODO` lines of the newline split hold no newline. */
  lemma TodoLinesFacts(contents: seq<byte>)
    ensures var lines := Matching(LineMatcher.SplitLines(contents));
      forall k :: 0 <= k < |lines| ==> ContainsTodo(lines[k]) && NEWLINE !in lines[k]
  {
    LineMatcher.SplitJoin(contents);
    MatchingFacts(LineMatcher.SplitLines(contents));
  }

  /** Where each line row sits behind a prefix and one file row. */
  lemma RowsAfter(pre: seq<Piece>, file: Piece, lines: seq<seq<byte>>, depth: nat, branch: string)
    ensures var out := pre + [file] + LineRows(lines, depth, branch);
      && |out| == |pre| + 1 + 3 * |lines|
      && out[..|pre|] == pre
      && out[|pre|] == file
      && forall k :: 0 <= k < |lines| ==>
        && out[|pre| + 1 + 3 * k] == Str(Indent(depth) + branch)
        && out[|pre| + 1 + 3 * k + 1] == Raw(Printer.TrimStart(lines[k]))
        && out[|pre| + 1 + 3 * k + 2] == Str(NEW_LINE)
  {
    var rows := LineRows(lines, depth, branch);
    var out := pre + [file] + rows;
    LineRowsAt(lines, depth, branch);
    forall k | 0 <= k < |lines|
      ensures out[|pre| + 1 + 3 * k] == rows[3 * k]
      ensures out[|pre| + 1 + 3 * k + 1] == rows[3 * k + 1]
      ensures out[|pre| + 1 + 3 * k + 2] == rows[3 * k + 2]
    {
    }
  }

  /** The intended output is empty exactly for a non-ASCII file or a file with no `TODO` line. */
  lemma OutputEmpty(contents: seq<byte>, fileName: string, directory: Option<seq<Ancestor>>, depth: nat, branch: string)
    requires directory.Some? ==> ValidChain(directory.value)
    ensures Output(contents, fileName, directory, depth, branch) == [] <==>
      !IsAscii(contents) || Matching(LineMatcher.SplitLines(contents)) == []
  {
    MatchedLinesSplit(contents);
  }

  /**
   * Otherwise the pending directory names come first, then the file name, then
   * three pieces per `TODO` line of the newline split, in order: the
   * indentation, the line without its leading whitespace, and a newline.
   */
  lemma OutputShape(contents: seq<byte>, fileName: string, directory: Option<seq<Ancestor>>, depth: nat, branch: string)
    requires directory.Some? ==> ValidChain(directory.value)
    requires IsAscii(contents) && Matching(LineMatcher.SplitLines(contents)) != []
    ensures var lines := Matching(LineMatcher.SplitLines(contents));
      var out := Output(contents, fileName, directory, depth, branch);
      var pre := AncestorRows(directory, depth, branch);
      && |out| == |pre| + 1 + 3 * |lines|
      && out[..|pre|] == pre
      && out[|pre|] == Str(Indent(depth) + branch + fileName + NEW_LINE)
      && forall k :: 0 <= k < |lines| ==>
        && out[|pre| + 1 + 3 * k] == Str(Indent(depth) + branch)
        && out[|pre| + 1 + 3 * k + 1] == Raw(Printer.TrimStart(lines[k]))
        && out[|pre| + 1 + 3 * k + 2] == Str(NEW_LINE)
        && ContainsTodo(lines[k]) && NEWLINE !in lines[k]
  {
    var lines := Matching(LineMatcher.SplitLines(contents));
    var pre := AncestorRows(directory, depth, branch);
    var file := Str(Indent(depth) + branch + fileName + NEW_LINE);
    MatchedLinesSplit(contents);
    assert Output(contents, fileName, directory, depth, branch) == pre + [file] + LineRows(lines, depth, branch);
    TodoLinesFacts(contents);
    RowsAfter(pre, file, lines, depth, branch);
  }

  // ---------------------------------------------------------------------------
  // search_file
  // ---------------------------------------------------------------------------

  lemma LineStartStep(contents: seq<byte>, i: nat)
    requires i < |contents|
    ensures LineStart(contents, i + 1) == if contents[i] == NEWLINE then i + 1 else LineStart(contents, i)
  {
  }

  lemma FragmentsStep(contents: seq<byte>, i: nat)
    requires i < |contents|
    ensures contents[i] == NEWLINE && ContainsTodo(contents[LineStart(contents, i)..i]) ==>
      Matching(Fragments(contents, i + 1)) == Matching(Fragments(contents, i)) + [contents[LineStart(contents, i)..i]]
    ensures !(contents[i] == NEWLINE && ContainsTodo(contents[LineStart(contents, i)..i])) ==>
      Matching(Fragments(contents, i + 1)) == Matching(Fragments(contents, i))
  {
    var fs := Fragments(contents, i);
    if contents[i] == NEWLINE {
      var line := contents[LineStart(contents, i)..i];
      assert Fragments(contents, i + 1) == fs + [line];
      assert (fs + [line])[..|fs|] == fs;
    } else {
      assert Fragments(contents, i + 1) == fs + [];
      assert fs + [] == fs;
    }
  }

  /** Writes the pending directory names in order (lines 119-121). */
  method WriteDirNames(out: seq<Piece>, names: seq<string>, depth: nat, branch: string) returns (out': seq<Piece>)
    ensures out' == out + DirRows(names, depth, branch)
  {
    out' := out;
    for k := 0 to |names|
      invariant out' == out + DirRows(names[..k], depth, branch)
    {
      DirRowsSnoc(names[..k], names[k], depth, branch);
      assert names[..k + 1] == names[..k] + [names[k]];
      out' := out' + DirRow(names[k], depth, branch);
    }
    assert names[..|names|] == names;
  }

  /**
   * One matching newline-terminated line (lines 108-130): the pending
   * directory names if the chain is still held, the file name if this is the
   * first match, then the line.
   */
  method WriteMatch(out: seq<Piece>, line: seq<byte>, fileName: string, pending: Option<seq<Ancestor>>, isFirst: bool,
                    ghost directory: Option<seq<Ancestor>>, ghost found: seq<seq<byte>>, depth: nat, branch: string)
    returns (out': seq<Piece>)
    requires directory.Some? ==> ValidChain(directory.value)
    requires isFirst <==> found == []
    requires pending == if isFirst then directory else None
    requires out == if found == [] then [] else
      AncestorRows(directory, depth, branch) + FileRow(fileName, depth, branch) + LineRows(found, depth, branch)
    ensures out' == AncestorRows(directory, depth, branch) + FileRow(fileName, depth, branch) + LineRows(found + [line], depth, branch)
  {
    LineRowsSnoc(found, line, depth, branch);
    if isFirst {
      assert found + [line] == [line];
      out' := WriteFirstMatch(line, fileName, pending, depth, branch);
      assert LineRows([line], depth, branch) == LineRow(line, depth, branch) by {
        assert [line][..0] == [];
      }
    } else {
      out' := out + LineRow(line, depth, branch);
      Regroup(AncestorRows(directory, depth, branch) + FileRow(fileName, depth, branch), LineRows(found, depth, branch), LineRow(line, depth, branch));
    }
  }

  /** The first match of a file: pending directory names, the file name, the line. */
  method WriteFirstMatch(line: seq<byte>, fileName: string, pending: Option<seq<Ancestor>>, depth: nat, branch: string)
    returns (out: seq<Piece>)
    requires pending.Some? ==> ValidChain(pending.value)
    ensures out == AncestorRows(pending, depth, branch) + FileRow(fileName, depth, branch) + LineRow(line, depth, branch)
  {
    out := [];
    if pending.Some? {
      var names, _ := EmitAncestors(pending.value);
      out := WriteDirNames(out, names, depth, branch);
    }
    out := out + FileRow(fileName, depth, branch);
    out := out + LineRow(line, depth, branch);
  }

  /** The final fragment (lines 137-146): written, with the file name if nothing matched before, when it holds `TODO`. */
  method WriteFinal(out: seq<Piece>, contents: seq<byte>, lineStart: nat, fileName: string, isFirst: bool,
                    ghost directory: Option<seq<Ancestor>>, depth: nat, branch: string)
    returns (out': seq<Piece>)
    requires directory.Some? ==> ValidChain(directory.value)
    requires IsAscii(contents)
    requires lineStart == LineStart(contents, |contents|)
    requires isFirst <==> Matching(Fragments(contents, |contents|)) == []
    requires out == Written(contents, |contents|, fileName, directory, depth, branch)
    ensures out' == OutputAsWritten(contents, fileName, directory, depth, branch)
  {
    out' := out;
    if lineStart < |contents| {
      var line := contents[lineStart..];
      var found := LineContainsBytes(line);
      if found {
        if isFirst {
          out' := out' + FileRow(fileName, depth, branch);
        }
        out' := out' + LineRow(line, depth, branch);
      }
    }
  }

  /**
   * `search_file` after the file has been read, as written: nothing for a
   * non-ASCII file; otherwise a byte loop that hands every newline-terminated
   * line to `line_contains_bytes`, then the final fragment. The directory
   * chain is taken at the first match, so `None` comes back after one.
   */
  method SearchFile(contents: seq<byte>, fileName: string, directory: Option<seq<Ancestor>>, depth: nat, branch: string)
    returns (out: seq<Piece>, rest: Option<seq<Ancestor>>)
    requires directory.Some? ==> ValidChain(directory.value)
    ensures out == OutputAsWritten(contents, fileName, directory, depth, branch)
    ensures rest == if IsAscii(contents) && Matching(Fragments(contents, |contents|)) != [] then None else directory
  {
    if !IsAscii(contents) {
      return [], directory;
    }
    var lineStart, isFirst;
    out, lineStart, isFirst, rest := ScanTerminated(contents, fileName, directory, depth, branch);
    out := WriteFinal(out, contents, lineStart, fileName, isFirst, directory, depth, branch);
  }

  /**
   * `search_file` with the final fragment treated like every other line: when
   * it is the file's first match, the pending directory names come before the
   * file name.
   */
  method SearchFileCorrected(contents: seq<byte>, fileName: string, directory: Option<seq<Ancestor>>, depth: nat, branch: string)
    returns (out: seq<Piece>, rest: Option<seq<Ancestor>>)
    requires directory.Some? ==> ValidChain(directory.value)
    ensures out == Output(contents, fileName, directory, depth, branch)
    ensures rest == if IsAscii(contents) && MatchedLines(contents) != [] then None else directory
  {
    if !IsAscii(contents) {
      return [], directory;
    }
    var lineStart, isFirst;
    out, lineStart, isFirst, rest := ScanTerminated(contents, fileName, directory, depth, branch);
    out, rest := WriteFinalCorrected(out, contents, lineStart, fileName, rest, isFirst, directory, depth, branch);
  }

  /** The byte loop of `search_file` (lines 105-135): every newline-terminated line. */
  method ScanTerminated(contents: seq<byte>, fileName: string, directory: Option<seq<Ancestor>>, depth: nat, branch: string)
    returns (out: seq<Piece>, lineStart: nat, isFirst: bool, rest: Option<seq<Ancestor>>)
    requires directory.Some? ==> ValidChain(directory.value)
    ensures lineStart == LineStart(contents, |contents|)
    ensures isFirst <==> Matching(Fragments(contents, |contents|)) == []
    ensures rest == if isFirst then directory else None
    ensures out == Written(contents, |contents|, fileName, directory, depth, branch)
  {
    out := [];
    lineStart := 0;
    isFirst := true;
    rest := directory;
    for i := 0 to |contents|
      invariant lineStart == LineStart(contents, i)
      invariant isFirst <==> Matching(Fragments(contents, i)) == []
      invariant rest == if isFirst then directory else None
      invariant out == Written(contents, i, fileName, directory, depth, branch)
    {
      LineStartStep(contents, i);
      FragmentsStep(contents, i);
      if contents[i] == NEWLINE {
        var line := contents[lineStart..i];
        var found := LineContainsBytes(line);
        if found {
          out := WriteMatch(out, line, fileName, rest, isFirst, directory, Matching(Fragments(contents, i)), depth, branch);
          rest := None;
          isFirst := false;
        }
        lineStart := i + 1;
      }
    }
  }

  /** The final fragment handled as a line: pending names, file name and line when it is the first match. */
  method WriteFinalCorrected(out: seq<Piece>, contents: seq<byte>, lineStart: nat, fileName: string,
                             pending: Option<seq<Ancestor>>, isFirst: bool, ghost directory: Option<seq<Ancestor>>,
                             depth: nat, branch: string)
    returns (out': seq<Piece>, rest: Option<seq<Ancestor>>)
    requires directory.Some? ==> ValidChain(directory.value)
    requires IsAscii(contents)
    requires lineStart == LineStart(contents, |contents|)
    requires isFirst <==> Matching(Fragments(contents, |contents|)) == []
    requires pending == if isFirst then directory else None
    requires out == Written(contents, |contents|, fileName, directory, depth, branch)
    ensures out' == Output(contents, fileName, directory, depth, branch)
    ensures rest == if MatchedLines(contents) != [] then None else directory
  {
    out', rest := out, pending;
    var found := false;
    if lineStart < |contents| {
      found := LineContainsBytes(contents[lineStart..]);
    }
    assert found <==> FinalMatches(contents);
    if !found {
      AgreeWithoutFinal(contents, fileName, directory, depth, branch);
      assert MatchedLines(contents) == Matching(Fragments(contents, |contents|)) + [];
    } else if isFirst {
      var line := contents[lineStart..];
      out' := WriteFirstMatch(line, fileName, pending, depth, branch);
      rest := None;
      FinalAlone(contents);
      assert LineRows([line], depth, branch) == LineRow(line, depth, branch) by {
        assert [line][..0] == [];
      }
    } else {
      out' := out' + LineRow(contents[lineStart..], depth, branch);
      AgreeWithFinal(contents, fileName, directory, depth, branch);
      assert MatchedLines(contents) != [];
    }
  }

  /** When no terminated line matched, the final fragment is the only matched line. */
  lemma FinalAlone(contents: seq<byte>)
    requires FinalMatches(contents) && Matching(Fragments(contents, |contents|)) == []
    ensures MatchedLines(contents) == [FinalFragment(contents)]
  {
  }

  /**
   * A file in a directory not yet printed, below a root not yet printed, whose
   * only `TODO` is on a last line without a newline: the file name and the
   * line are written, the directories' names are not.
   */
  lemma FinalFragmentSkipsDirectories()
    ensures var contents: seq<byte> := TODO_BYTES;
      var directory := Some([Ancestor("src", true), Ancestor("project", true)]);
      OutputAsWritten(contents, "notes.txt", directory, 0, "") ==
        FileRow("notes.txt", 0, "") + LineRow(TODO_BYTES, 0, "") &&
      Output(contents, "notes.txt", directory, 0, "") ==
        DirRow("project", 0, "") + DirRow("src", 0, "") + FileRow("notes.txt", 0, "") + LineRow(TODO_BYTES, 0, "")
  {
    TodoAlone();
    SourceChainEmits();
    assert DirRows(["project", "src"], 0, "") == DirRow("project", 0, "") + DirRow("src", 0, "") by {
      assert ["project", "src"][..1] == ["project"];
      assert ["project"][..0] == [];
    }
    assert LineRows([TODO_BYTES], 0, "") == LineRow(TODO_BYTES, 0, "") by {
      assert [TODO_BYTES][..0] == [];
    }
  }

  /** A file holding just `TODO`: no terminated line, and the final fragment matches. */
  lemma TodoAlone()
    ensures IsAscii(TODO_BYTES) && Fragments(TODO_BYTES, 4) == [] && FinalMatches(TODO_BYTES)
    ensures FinalFragment(TODO_BYTES) == TODO_BYTES && MatchedLines(TODO_BYTES) == [TODO_BYTES]
  {
    var contents: seq<byte> := TODO_BYTES;
    assert OccursAt(contents, 0);
    assert LineStart(contents, 4) == 0 by {
      assert LineStart(contents, 1) == 0;
      assert LineStart(contents, 2) == 0;
      assert LineStart(contents, 3) == 0;
    }
    assert Fragments(contents, 4) == [] by {
      assert Fragments(contents, 1) == [];
      assert Fragments(contents, 2) == [];
      assert Fragments(contents, 3) == [];
    }
    assert FinalFragment(contents) == contents;
  }

  /** A printable directory below a printable root: both are named, outermost first. */
  lemma SourceChainEmits()
    ensures Emitted([Ancestor("src", true), Ancestor("project", true)]) == ["project", "src"]
  {
    var chain := [Ancestor("src", true), Ancestor("project", true)];
    assert WalkEnd(chain, 1) == 1;
    assert WalkEnd(chain, 0) == 1;
    assert Names(chain[..1]) == ["src"] by {
      assert chain[..1][..0] == [];
    }
    assert Reverse(["src", "project"]) == ["project", "src"] by {
      assert Reverse(["project"]) == ["project"];
    }
  }
}
