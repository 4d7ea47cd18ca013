/**
 * The renderer: a search result becomes a stream of writes to the output. The tree view
 * lists a directory's name row, then its child directories (each behind a branch glyph,
 * with the prefix grown by one column), then its files, each followed by its matched
 * lines. A files-only view lists one path row per file; a single searched file is shown
 * without a tree. The global configuration is an explicit `Config` value.
 */
module Printer {
  import opened Wrappers
  import opened Bytes
  import opened Paths
  import opened Formats
  import opened LineMatcher
  import opened TreeShape

  /** The renderer's settings: styling, count suffixes, line numbers, files-only mode, and
      the terminator and reset sequences chosen by `get_terminator` and `get_reset`. */
  datatype Config = Config(styled: bool, showCount: bool, showLineNumber: bool, justFiles: bool,
                           terminator: seq<Piece>, reset: seq<Style>)

  // ---------------------------------------------------------------------------
  // Decimal numbers, as `{}` writes a usize
  // ---------------------------------------------------------------------------

  function Digit(d: nat): char
    requires d < 10
  {
    ('0' as int + d) as char
  }

  predicate IsDigit(c: char) {
    '0' <= c <= '9'
  }

  /** The decimal digits of `n`, without leading zeros. */
  function Decimal(n: nat): string {
    if n < 10 then [Digit(n)] else Decimal(n / 10) + [Digit(n % 10)]
  }

  /** The written number is a non-empty run of digits with no leading zero. */
  lemma {:induction false} DecimalDigits(n: nat)
    ensures var r := Decimal(n); |r| > 0 && (forall k :: 0 <= k < |r| ==> IsDigit(r[k]))
    ensures Decimal(n)[0] == '0' ==> n == 0
  {
    if n >= 10 {
      DecimalDigits(n / 10);
      assert Decimal(n)[0] == Decimal(n / 10)[0];
    }
  }

  /** The number a string of decimal digits denotes. */
  function DecimalValue(s: string): nat {
    if s == [] then 0
    else
      var d := s[|s| - 1] as int - '0' as int;
      DecimalValue(s[..|s| - 1]) * 10 + (if 0 <= d < 10 then d else 0)
  }

  /** Reading the written number back gives the number. */
  lemma {:induction false} DecimalRoundTrip(n: nat)
    ensures DecimalValue(Decimal(n)) == n
  {
    if n >= 10 {
      DecimalRoundTrip(n / 10);
      var s := Decimal(n);
      assert s[..|s| - 1] == Decimal(n / 10);
    }
  }

  // ---------------------------------------------------------------------------
  // What the pieces show
  // ---------------------------------------------------------------------------

  /** The bytes of the lossily decoded runs, in order. */
  function RawBytes(ps: seq<Piece>): seq<byte> {
    if ps == [] then [] else RawBytes(ps[..|ps| - 1]) + (if ps[|ps| - 1].Raw? then ps[|ps| - 1].bytes else [])
  }

  lemma {:induction false} RawBytesAppend(a: seq<Piece>, b: seq<Piece>)
    ensures RawBytes(a + b) == RawBytes(a) + RawBytes(b)
    decreases |b|
  {
    if b != [] {
      var init, last := b[..|b| - 1], b[|b| - 1];
      RawBytesAppend(a, init);
      assert (a + b)[..|a + b| - 1] == a + init;
      assert (a + b)[|a + b| - 1] == last;
      assert RawBytes(b) == RawBytes(init) + (if last.Raw? then last.bytes else []);
    } else {
      assert a + b == a;
    }
  }

  lemma {:induction false} PlainTextAppend(a: seq<Piece>, b: seq<Piece>)
    ensures PlainText(a + b) == PlainText(a) + PlainText(b)
    decreases |a|
  {
    if a != [] {
      PlainTextAppend(a[1..], b);
      assert (a + b)[1..] == a[1..] + b;
      assert (a + b)[0] == a[0];
    } else {
      assert a + b == b;
    }
  }

  /** Output without any styling: only plain strings and decoded bytes. */
  predicate Unstyled(ps: seq<Piece>) {
    forall k :: 0 <= k < |ps| ==> ps[k].Str? || ps[k].Raw?
  }

  // ---------------------------------------------------------------------------
  // Rows
  // ---------------------------------------------------------------------------

  function Branch(hasNext: bool): string {
    if hasNext then BRANCH_HAS_NEXT else BRANCH_END
  }

  function Spacer(hasNext: bool): string {
    if hasNext then VER_LINE_SPACER else SPACER
  }

  /** `write_resets`: the configured reset sequence. */
  function Resets(cfg: Config): seq<Piece> {
    seq(|cfg.reset|, k requires 0 <= k < |cfg.reset| => Esc(cfg.reset[k]))
  }

  /** A name, through `dir_name`/`file_name` when styled. */
  function NameText(cfg: Config, kind: NameKind, text: string): Piece {
    if cfg.styled then Named(kind, text) else Str(text)
  }

  /** The `": {count}"` suffix, when counts are shown. */
  function CountSuffix(cfg: Config, count: nat): seq<Piece> {
    if cfg.showCount then [Str(": " + Decimal(count))] else []
  }

  /** The text a count suffix shows. */
  function CountText(cfg: Config, count: nat): string {
    if cfg.showCount then ": " + Decimal(count) else ""
  }

  /** `write_file_name`: the file's name, the link target after " -> " for a link, the
      number of matched lines when counts are shown, and the terminator. */
  function FileNameRow(cfg: Config, f: FileResult): seq<Piece> {
    LinkedName(cfg, f.name, f.linked) + CountSuffix(cfg, |f.lines|) + cfg.terminator
  }

  /** `write_file_path`: as `write_file_name`, with the whole path in place of the name. */
  function FilePathRow(cfg: Config, f: FileResult): seq<Piece> {
    LinkedName(cfg, Display(f.path), f.linked) + CountSuffix(cfg, |f.lines|) + cfg.terminator
  }

  /** A file's name, and for a link " -> " and the target. */
  function LinkedName(cfg: Config, name: string, linked: Option<Path>): seq<Piece> {
    if linked.Some? then [NameText(cfg, FileName, name), Str(" -> "), NameText(cfg, FileName, Display(linked.value))]
    else [NameText(cfg, FileName, name)]
  }

  /** `write_dir_name`: the name, the number of files and child directories when counts
      are shown, and the terminator. */
  function DirNameRow(cfg: Config, d: Dir): seq<Piece> {
    [NameText(cfg, DirName, d.name)] + CountSuffix(cfg, |d.foundFiles| + |d.children|) + cfg.terminator
  }

  lemma PlainTextSingle(p: Piece)
    ensures PlainText([p]) == match p case Str(t) => t case Named(_, n) => n case _ => ""
  {
    assert [p][1..] == [];
  }

  lemma NameTextShows(cfg: Config, kind: NameKind, text: string)
    ensures PlainText([NameText(cfg, kind, text)]) == text
  {
    PlainTextSingle(NameText(cfg, kind, text));
  }

  lemma CountSuffixShows(cfg: Config, count: nat)
    ensures PlainText(CountSuffix(cfg, count)) == CountText(cfg, count)
  {
    if cfg.showCount {
      PlainTextSingle(Str(": " + Decimal(count)));
    }
  }

  lemma LinkedNameShows(cfg: Config, name: string, linked: Option<Path>)
    ensures PlainText(LinkedName(cfg, name, linked)) ==
      name + (if linked.Some? then " -> " + Display(linked.value) else "")
  {
    NameTextShows(cfg, FileName, name);
    if linked.Some? {
      var a, b, c := NameText(cfg, FileName, name), Str(" -> "), NameText(cfg, FileName, Display(linked.value));
      NameTextShows(cfg, FileName, Display(linked.value));
      PlainTextSingle(b);
      PlainTextAppend([a] + [b], [c]);
      PlainTextAppend([a], [b]);
      assert [a, b, c] == [a] + [b] + [c];
    }
  }

  lemma RowShows(named: seq<Piece>, suffix: seq<Piece>, terminator: seq<Piece>)
    ensures PlainText(named + suffix + terminator) == PlainText(named) + PlainText(suffix) + PlainText(terminator)
  {
    PlainTextAppend(named + suffix, terminator);
    PlainTextAppend(named, suffix);
  }

  /** A file's row shows its name, " -> " and the link target for a link, ": " and the
      number of matched lines when counts are shown, then the terminator. */
  lemma FileNameRowShows(cfg: Config, f: FileResult)
    ensures PlainText(FileNameRow(cfg, f)) ==
      f.name + (if f.linked.Some? then " -> " + Display(f.linked.value) else "")
      + CountText(cfg, |f.lines|) + PlainText(cfg.terminator)
  {
    RowShows(LinkedName(cfg, f.name, f.linked), CountSuffix(cfg, |f.lines|), cfg.terminator);
    LinkedNameShows(cfg, f.name, f.linked);
    CountSuffixShows(cfg, |f.lines|);
  }

  /** A path row shows the whole path, the link target for a link, the line count when
      counts are shown, then the terminator. */
  lemma FilePathRowShows(cfg: Config, f: FileResult)
    ensures PlainText(FilePathRow(cfg, f)) ==
      Display(f.path) + (if f.linked.Some? then " -> " + Display(f.linked.value) else "")
      + CountText(cfg, |f.lines|) + PlainText(cfg.terminator)
  {
    RowShows(LinkedName(cfg, Display(f.path), f.linked), CountSuffix(cfg, |f.lines|), cfg.terminator);
    LinkedNameShows(cfg, Display(f.path), f.linked);
    CountSuffixShows(cfg, |f.lines|);
  }

  /** A directory's row shows its name, then ": " and the number of its files plus its
      child directories when counts are shown, then the terminator. */
  lemma DirNameRowShows(cfg: Config, d: Dir)
    ensures PlainText(DirNameRow(cfg, d)) ==
      d.name + CountText(cfg, |d.foundFiles| + |d.children|) + PlainText(cfg.terminator)
  {
    RowShows([NameText(cfg, DirName, d.name)], CountSuffix(cfg, |d.foundFiles| + |d.children|), cfg.terminator);
    NameTextShows(cfg, DirName, d.name);
    CountSuffixShows(cfg, |d.foundFiles| + |d.children|);
  }

  // ---------------------------------------------------------------------------
  // print_line
  // ---------------------------------------------------------------------------

  predicate IsTextSpace(b: byte) {
    b == TAB || b == NEWLINE || b == 11 || b == 12 || b == 13 || b == SPACE
  }

  predicate AllTextSpace(s: seq<byte>) {
    forall k :: 0 <= k < |s| ==> IsTextSpace(s[k])
  }

  /** `str::trim_start` on the decoded line. */
  function TrimStart(s: seq<byte>): seq<byte> {
    if s != [] && IsTextSpace(s[0]) then TrimStart(s[1..]) else s
  }

  /** `str::trim_end` on the decoded line. */
  function TrimEnd(s: seq<byte>): seq<byte> {
    if s != [] && IsTextSpace(s[|s| - 1]) then TrimEnd(s[..|s| - 1]) else s
  }

  lemma {:induction false} TrimStartFacts(s: seq<byte>)
    ensures var r := TrimStart(s); |r| <= |s| && r == s[|s| - |r|..] && AllTextSpace(s[..|s| - |r|])
    ensures var r := TrimStart(s); r != [] ==> !IsTextSpace(r[0])
  {
    if s != [] && IsTextSpace(s[0]) {
      TrimStartFacts(s[1..]);
      var r := TrimStart(s[1..]);
      assert s[..|s| - |r|] == [s[0]] + s[1..][..|s| - 1 - |r|];
    }
  }

  lemma {:induction false} TrimEndFacts(s: seq<byte>)
    ensures var r := TrimEnd(s); |r| <= |s| && r == s[..|r|] && AllTextSpace(s[|r|..])
    ensures var r := TrimEnd(s); r != [] ==> !IsTextSpace(r[|r| - 1])
  {
    if s != [] && IsTextSpace(s[|s| - 1]) {
      TrimEndFacts(s[..|s| - 1]);
      var r := TrimEnd(s[..|s| - 1]);
      assert s[|r|..] == s[..|s| - 1][|r|..] + [s[|s| - 1]];
    }
  }

  /** `str::trim`. */
  function TextTrim(s: seq<byte>): seq<byte> {
    TrimEnd(TrimStart(s))
  }

  /** Trimming the shown text keeps a contiguous middle part of the line and drops only
      whitespace around it; a line that already starts and ends with visible text is
      shown whole. */
  lemma TextTrimSpec(s: seq<byte>)
    ensures exists lo: nat :: var r := TextTrim(s);
      lo + |r| <= |s| && s[lo..lo + |r|] == r && AllTextSpace(s[..lo]) && AllTextSpace(s[lo + |r|..])
    ensures var r := TextTrim(s); r != [] ==> !IsTextSpace(r[0]) && !IsTextSpace(r[|r| - 1])
    ensures s == [] || (!IsTextSpace(s[0]) && !IsTextSpace(s[|s| - 1])) ==> TextTrim(s) == s
  {
    var t := TrimStart(s);
    var r := TrimEnd(t);
    TrimStartFacts(s);
    TrimEndFacts(t);
    var lo := |s| - |t|;
    assert s[lo..lo + |r|] == r by {
      assert s[lo..] == t;
      assert t[..|r|] == r;
    }
    assert s[lo + |r|..] == t[|r|..];
    if r != [] {
      assert r[0] == t[0];
    }
  }

  /** The end of the `n`th match, where the plain run after it starts (0 before the first). */
  function LastEnd(ms: seq<Match>, n: nat): nat
    requires n <= |ms|
  {
    if n == 0 then 0 else ms[n - 1].end
  }

  /** `print_line` needs sorted, disjoint, in-bounds spans only when it slices the line. */
  predicate Printable(cfg: Config, lm: LineMatch) {
    cfg.styled ==> WellFormedLine(lm)
  }

  /** The styled line-number header: coloured bold number, a colon, then the reset. */
  function LineHeader(cfg: Config, lm: LineMatch): seq<Piece> {
    if cfg.showLineNumber then [Esc(LINE_NUMBER_FG), Esc(BOLD), Str(Decimal(lm.lineNum) + ": ")] + Resets(cfg) else []
  }

  /** The pieces for the first `n` matches: the plain run before each match, then the
      match in its pattern's colour and bold, then the reset. */
  function MatchRuns(cfg: Config, lm: LineMatch, n: nat): seq<Piece>
    requires WellFormedLine(lm) && n <= |lm.matches|
  {
    if n == 0 then []
    else
      var m := lm.matches[n - 1];
      MatchRuns(cfg, lm, n - 1)
      + [Raw(lm.contents[LastEnd(lm.matches, n - 1)..m.start]), Esc(GetColor(m.regexId)), Esc(BOLD),
         Raw(lm.contents[m.start..m.end])]
      + Resets(cfg)
  }

  /** `print_line`. Unstyled: the line number and ": " when shown, then the trimmed line.
      Styled: the header, the matches, and the rest of the line after the last match. */
  function LineText(cfg: Config, lm: LineMatch): seq<Piece>
    requires Printable(cfg, lm)
  {
    if !cfg.styled then PlainLine(cfg, lm) else StyledLine(cfg, lm)
  }

  function PlainLine(cfg: Config, lm: LineMatch): seq<Piece> {
    (if cfg.showLineNumber then [Str(Decimal(lm.lineNum) + ": ")] else []) + [Raw(TextTrim(lm.contents))]
  }

  function StyledLine(cfg: Config, lm: LineMatch): seq<Piece>
    requires WellFormedLine(lm)
  {
    LineHeader(cfg, lm) + MatchRuns(cfg, lm, |lm.matches|) + [Raw(lm.contents[LastEnd(lm.matches, |lm.matches|)..])]
  }

  lemma {:induction false} NoRawBytes(ps: seq<Piece>)
    requires forall k :: 0 <= k < |ps| ==> !ps[k].Raw?
    ensures RawBytes(ps) == []
  {
    if ps != [] {
      NoRawBytes(ps[..|ps| - 1]);
    }
  }

  lemma RawBytesSingle(p: Piece)
    ensures RawBytes([p]) == if p.Raw? then p.bytes else []
  {
    assert [p][..0] == [];
  }

  /** A plain run, two escapes and a match show the run's bytes and the match's. */
  lemma RunBytes(a: seq<byte>, s1: Style, s2: Style, b: seq<byte>)
    ensures RawBytes([Raw(a), Esc(s1), Esc(s2), Raw(b)]) == a + b
  {
    var escapes := [Esc(s1), Esc(s2)];
    assert [Raw(a), Esc(s1), Esc(s2), Raw(b)] == [Raw(a)] + escapes + [Raw(b)];
    RawBytesAppend([Raw(a)] + escapes, [Raw(b)]);
    RawBytesAppend([Raw(a)], escapes);
    NoRawBytes(escapes);
    RawBytesSingle(Raw(a));
    RawBytesSingle(Raw(b));
  }

  lemma {:induction false} MatchRunsBytes(cfg: Config, lm: LineMatch, n: nat)
    requires WellFormedLine(lm) && n <= |lm.matches|
    ensures RawBytes(MatchRuns(cfg, lm, n)) == lm.contents[..LastEnd(lm.matches, n)]
  {
    if n > 0 {
      MatchRunsBytes(cfg, lm, n - 1);
      var m := lm.matches[n - 1];
      var line := lm.contents;
      var last := LastEnd(lm.matches, n - 1);
      var run := [Raw(line[last..m.start]), Esc(GetColor(m.regexId)), Esc(BOLD), Raw(line[m.start..m.end])];
      NoRawBytes(Resets(cfg));
      RunBytes(line[last..m.start], GetColor(m.regexId), BOLD, line[m.start..m.end]);
      AfterParts(MatchRuns(cfg, lm, n - 1), run, Resets(cfg), line[..last], line[last..m.start] + line[m.start..m.end]);
      Slices3(line, last, m.start, m.end);
    }
  }

  lemma AfterParts(before: seq<Piece>, run: seq<Piece>, rest: seq<Piece>, a: seq<byte>, b: seq<byte>)
    requires RawBytes(before) == a && RawBytes(run) == b && RawBytes(rest) == []
    ensures RawBytes(before + run + rest) == a + b
  {
    RawBytesAppend(before + run, rest);
    RawBytesAppend(before, run);
  }

  lemma Slices3(s: seq<byte>, i: nat, j: nat, k: nat)
    requires i <= j <= k <= |s|
    ensures s[..i] + (s[i..j] + s[j..k]) == s[..k]
  {
  }

  /** Styled `print_line` loses nothing: with the line number and the escapes removed,
      the plain runs and the highlighted matches concatenate to exactly the line. */
  lemma PrintLineRoundTrip(cfg: Config, lm: LineMatch)
    requires cfg.styled && WellFormedLine(lm)
    ensures RawBytes(LineText(cfg, lm)) == lm.contents
  {
    var x := LastEnd(lm.matches, |lm.matches|);
    MatchRunsBytes(cfg, lm, |lm.matches|);
    NoRawBytes(LineHeader(cfg, lm));
    RawBytesSingle(Raw(lm.contents[x..]));
    ThreeParts(LineHeader(cfg, lm), MatchRuns(cfg, lm, |lm.matches|), [Raw(lm.contents[x..])],
               lm.contents[..x], lm.contents[x..]);
    SplitAt(lm.contents, x);
  }

  lemma ThreeParts(h: seq<Piece>, body: seq<Piece>, tail: seq<Piece>, a: seq<byte>, b: seq<byte>)
    requires RawBytes(h) == [] && RawBytes(body) == a && RawBytes(tail) == b
    ensures RawBytes(h + body + tail) == a + b
  {
    RawBytesAppend(h + body, tail);
    RawBytesAppend(h, body);
  }

  lemma SplitAt(s: seq<byte>, i: nat)
    requires i <= |s|
    ensures s[..i] + s[i..] == s
  {
  }

  /** Unstyled `print_line` writes "{line_num}: " exactly when line numbers are shown,
      then the trimmed line, and no escape at all. */
  lemma PrintLineUnstyled(cfg: Config, lm: LineMatch)
    requires !cfg.styled
    ensures Unstyled(LineText(cfg, lm))
    ensures PlainText(LineText(cfg, lm)) == if cfg.showLineNumber then Decimal(lm.lineNum) + ": " else ""
    ensures RawBytes(LineText(cfg, lm)) == TextTrim(lm.contents)
  {
    var raw := [Raw(TextTrim(lm.contents))];
    assert PlainText(raw) == "" by {
      assert raw[1..] == [];
    }
    assert RawBytes(raw) == TextTrim(lm.contents) by {
      assert raw[..0] == [];
    }
    if cfg.showLineNumber {
      var num := [Str(Decimal(lm.lineNum) + ": ")];
      PlainTextAppend(num, raw);
      RawBytesAppend(num, raw);
      assert PlainText(num) == Decimal(lm.lineNum) + ": " by {
        assert num[1..] == [];
      }
      assert RawBytes(num) == [] by {
        assert num[..0] == [];
      }
    } else {
      assert [] + raw == raw;
    }
  }

  // ---------------------------------------------------------------------------
  // The tree view
  // ---------------------------------------------------------------------------

  predicate LinesPrintable(cfg: Config, lines: seq<LineMatch>) {
    forall k :: 0 <= k < |lines| ==> Printable(cfg, lines[k])
  }

  /** Every line of every file in the tree can be printed. */
  predicate TreePrintable(cfg: Config, d: Dir)
    decreases d
  {
    && (forall k :: 0 <= k < |d.foundFiles| ==> LinesPrintable(cfg, d.foundFiles[k].lines))
    && (forall k :: 0 <= k < |d.children| ==> TreePrintable(cfg, d.children[k]))
  }

  /** The rows of the first `n` matched lines of a file: the branch glyph (BRANCH_END for
      the last line only) after the prefix, the line, the terminator. */
  function LineRows(cfg: Config, lines: seq<LineMatch>, prefix: string, n: nat): seq<Piece>
    requires n <= |lines| && LinesPrintable(cfg, lines)
  {
    if n == 0 then []
    else LineRows(cfg, lines, prefix, n - 1) + [Str(prefix + Branch(n != |lines|))] + LineText(cfg, lines[n - 1]) + cfg.terminator
  }

  /** `print_file`: the file's row behind its glyph, then its lines one column further in. */
  function FileBlock(cfg: Config, f: FileResult, prefix: string, hasNext: bool): seq<Piece>
    requires LinesPrintable(cfg, f.lines)
  {
    [Str(prefix + Branch(hasNext))] + FileNameRow(cfg, f) + LineRows(cfg, f.lines, prefix + Spacer(hasNext), |f.lines|)
  }

  /** The first `n` files of a directory; only the last file gets BRANCH_END. */
  function FileGroup(cfg: Config, files: seq<FileResult>, prefix: string, n: nat): seq<Piece>
    requires n <= |files| && forall k :: 0 <= k < |files| ==> LinesPrintable(cfg, files[k].lines)
  {
    if n == 0 then [] else FileGroup(cfg, files, prefix, n - 1) + FileBlock(cfg, files[n - 1], prefix, n != |files|)
  }

  /** `handle_descendants`: the name row when there is anything below, the children, then
      the files. */
  function Descendants(cfg: Config, d: Dir, prefix: string): seq<Piece>
    requires TreePrintable(cfg, d)
    decreases d, 2
  {
    (if |d.children| > 0 || |d.foundFiles| > 0 then DirNameRow(cfg, d) else [])
    + ChildRows(cfg, d, prefix, |d.children|)
    + FileGroup(cfg, d.foundFiles, prefix, |d.foundFiles|)
  }

  /** The first `n` child subtrees. */
  function ChildRows(cfg: Config, d: Dir, prefix: string, n: nat): seq<Piece>
    requires TreePrintable(cfg, d) && n <= |d.children|
    decreases d, 1, n
  {
    if n == 0 then [] else ChildRows(cfg, d, prefix, n - 1) + ChildRow(cfg, d, prefix, n - 1)
  }

  /** Child `k`: a child has a next entry unless it is the last child and the directory
      has no files; the glyph and the prefix column follow from that. */
  function ChildRow(cfg: Config, d: Dir, prefix: string, k: nat): seq<Piece>
    requires TreePrintable(cfg, d) && k < |d.children|
    decreases d, 0
  {
    var hasNext := k + 1 != |d.children| || |d.foundFiles| > 0;
    [Str(prefix + Branch(hasNext))] + Descendants(cfg, d.children[k], prefix + Spacer(hasNext))
  }

  /** `print_single_file`: the file's row when it has lines, then the lines with their
      glyphs and no prefix. */
  function SingleFile(cfg: Config, f: FileResult): seq<Piece>
    requires LinesPrintable(cfg, f.lines)
  {
    (if |f.lines| > 0 then FileNameRow(cfg, f) else []) + LineRows(cfg, f.lines, "", |f.lines|)
  }

  // ---------------------------------------------------------------------------
  // The files-only view
  // ---------------------------------------------------------------------------

  /** One path row per file, in order. */
  function PathRows(cfg: Config, files: seq<FileResult>): seq<Piece> {
    if files == [] then [] else PathRows(cfg, files[..|files| - 1]) + FilePathRow(cfg, files[|files| - 1])
  }

  /** `write_files`: every child's rows, then the directory's own files. */
  function FilesOnly(cfg: Config, d: Dir): seq<Piece>
    decreases d, 1
  {
    FilesOnlyChildren(cfg, d, |d.children|) + PathRows(cfg, d.foundFiles)
  }

  function FilesOnlyChildren(cfg: Config, d: Dir, n: nat): seq<Piece>
    requires n <= |d.children|
    decreases d, 0, n
  {
    if n == 0 then [] else FilesOnlyChildren(cfg, d, n - 1) + FilesOnly(cfg, d.children[n - 1])
  }

  /** `just_write_files`. */
  function JustFiles(cfg: Config, s: Searched): seq<Piece> {
    match s
    case DirResult(d) => FilesOnly(cfg, d)
    case FileResultOf(f) => FilePathRow(cfg, f)
  }

  predicate SearchedPrintable(cfg: Config, s: Searched) {
    match s
    case DirResult(d) => TreePrintable(cfg, d)
    case FileResultOf(f) => LinesPrintable(cfg, f.lines)
  }

  /** `write_results`: the files-only view, the tree from an empty prefix, or the single file. */
  function Results(cfg: Config, s: Searched): seq<Piece>
    requires cfg.justFiles || SearchedPrintable(cfg, s)
  {
    if cfg.justFiles then JustFiles(cfg, s)
    else
      match s
      case DirResult(d) => Descendants(cfg, d, "")
      case FileResultOf(f) => SingleFile(cfg, f)
  }

  // ---------------------------------------------------------------------------
  // Properties of the views
  // ---------------------------------------------------------------------------

  /** `handle_descendants` writes nothing at all for a directory with neither children
      nor files, and otherwise starts with the directory's name row. */
  lemma DescendantsShape(cfg: Config, d: Dir, prefix: string)
    requires TreePrintable(cfg, d)
    ensures Descendants(cfg, d, prefix) == [] <==> |d.children| == 0 && |d.foundFiles| == 0
    ensures |d.children| > 0 || |d.foundFiles| > 0 ==> DirNameRow(cfg, d) <= Descendants(cfg, d, prefix)
  {
    var name := if |d.children| > 0 || |d.foundFiles| > 0 then DirNameRow(cfg, d) else [];
    var children := ChildRows(cfg, d, prefix, |d.children|);
    var files := FileGroup(cfg, d.foundFiles, prefix, |d.foundFiles|);
    assert Descendants(cfg, d, prefix) == name + children + files;
    if |d.children| > 0 {
      assert |ChildRow(cfg, d, prefix, |d.children| - 1)| > 0;
    }
    if |d.foundFiles| > 0 {
      assert |FileBlock(cfg, d.foundFiles[|d.foundFiles| - 1], prefix, false)| > 0;
    }
    PrefixOfSum(name, children, files);
  }

  lemma PrefixOfSum(a: seq<Piece>, b: seq<Piece>, c: seq<Piece>)
    ensures a <= a + b + c
    ensures a + b + c == [] <==> a == [] && b == [] && c == []
  {
    assert (a + b + c)[..|a|] == a;
  }

  /** `print_single_file` writes nothing for a file without matched lines, and otherwise
      starts with the file's name row. */
  lemma SingleFileShape(cfg: Config, f: FileResult)
    requires LinesPrintable(cfg, f.lines)
    ensures SingleFile(cfg, f) == [] <==> f.lines == []
    ensures f.lines != [] ==> FileNameRow(cfg, f) <= SingleFile(cfg, f)
  {
    var name := if |f.lines| > 0 then FileNameRow(cfg, f) else [];
    PrefixOfSum(name, LineRows(cfg, f.lines, "", |f.lines|), []);
    assert SingleFile(cfg, f) == name + LineRows(cfg, f.lines, "", |f.lines|) + [];
  }

  lemma {:induction false} PathRowsAppend(cfg: Config, a: seq<FileResult>, b: seq<FileResult>)
    ensures PathRows(cfg, a + b) == PathRows(cfg, a) + PathRows(cfg, b)
    decreases |b|
  {
    if b == [] {
      assert a + b == a;
    } else {
      var init, last := b[..|b| - 1], b[|b| - 1];
      PathRowsAppend(cfg, a, init);
      SplitLast(a, b);
      PathRowsSnoc(cfg, a + init, last);
      PathRowsSnoc(cfg, init, last);
      Regroup(PathRows(cfg, a), PathRows(cfg, init), FilePathRow(cfg, last));
    }
  }

  /** A non-empty tail splits off its last element, also after a prefix. */
  lemma SplitLast<T>(a: seq<T>, b: seq<T>)
    requires b != []
    ensures b == b[..|b| - 1] + [b[|b| - 1]]
    ensures a + b == (a + b[..|b| - 1]) + [b[|b| - 1]]
  {
  }

  lemma PathRowsSnoc(cfg: Config, files: seq<FileResult>, f: FileResult)
    ensures PathRows(cfg, files + [f]) == PathRows(cfg, files) + FilePathRow(cfg, f)
  {
    assert (files + [f])[..|files|] == files;
  }

  /** `write_files` lists exactly the tree's files, in the order the tree view shows
      them: each child's files first, then the directory's own. */
  lemma {:induction false} FilesOnlyOrder(cfg: Config, d: Dir)
    ensures FilesOnly(cfg, d) == PathRows(cfg, Files(d))
    decreases d, 1
  {
    FilesOnlyChildrenOrder(cfg, d, |d.children|);
    PathRowsAppend(cfg, ChildFiles(d, |d.children|), d.foundFiles);
  }

  lemma {:induction false} FilesOnlyChildrenOrder(cfg: Config, d: Dir, n: nat)
    requires n <= |d.children|
    ensures FilesOnlyChildren(cfg, d, n) == PathRows(cfg, ChildFiles(d, n))
    decreases d, 0, n
  {
    if n > 0 {
      var child := d.children[n - 1];
      FilesOnlyChildrenOrder(cfg, d, n - 1);
      assert FilesOnlyChildren(cfg, d, n - 1) == PathRows(cfg, ChildFiles(d, n - 1));
      FilesOnlyOrder(cfg, child);
      assert FilesOnly(cfg, child) == PathRows(cfg, Files(child));
      ConcatRows(cfg, FilesOnlyChildren(cfg, d, n - 1), FilesOnly(cfg, child), ChildFiles(d, n - 1), Files(child));
    }
  }

  lemma ConcatRows(cfg: Config, rows: seq<Piece>, more: seq<Piece>, files: seq<FileResult>, moreFiles: seq<FileResult>)
    requires rows == PathRows(cfg, files) && more == PathRows(cfg, moreFiles)
    ensures rows + more == PathRows(cfg, files + moreFiles)
  {
    PathRowsAppend(cfg, files, moreFiles);
  }

  /** The files-only view is one path row per file of the result and nothing else: no
      directory rows and no line rows. */
  lemma JustFilesView(cfg: Config, s: Searched)
    requires cfg.justFiles
    ensures Results(cfg, s) == PathRows(cfg, match s case DirResult(d) => Files(d) case FileResultOf(f) => [f])
  {
    match s
    case DirResult(d) =>
      FilesOnlyOrder(cfg, d);
    case FileResultOf(f) =>
      assert [f][..0] == [];
  }

  lemma UnstyledAppend(a: seq<Piece>, b: seq<Piece>)
    requires Unstyled(a) && Unstyled(b)
    ensures Unstyled(a + b)
  {
  }

  lemma UnstyledJoin(whole: seq<Piece>, a: seq<Piece>, b: seq<Piece>)
    requires whole == a + b && Unstyled(a) && Unstyled(b)
    ensures Unstyled(whole)
  {
    UnstyledAppend(a, b);
  }

  lemma UnstyledAppend4(a: seq<Piece>, b: seq<Piece>, c: seq<Piece>, d: seq<Piece>)
    requires Unstyled(a) && Unstyled(b) && Unstyled(c) && Unstyled(d)
    ensures Unstyled(a + b + c + d)
  {
    UnstyledAppend(a, b);
    UnstyledAppend(a + b, c);
    UnstyledAppend(a + b + c, d);
  }

  lemma RowUnstyled(cfg: Config, named: seq<Piece>, count: nat)
    requires !cfg.styled && Unstyled(cfg.terminator) && Unstyled(named)
    ensures Unstyled(named + CountSuffix(cfg, count) + cfg.terminator)
  {
    UnstyledAppend(named, CountSuffix(cfg, count));
    UnstyledAppend(named + CountSuffix(cfg, count), cfg.terminator);
  }

  lemma NamesUnstyled(cfg: Config, f: FileResult, d: Dir)
    requires !cfg.styled && Unstyled(cfg.terminator)
    ensures Unstyled(FileNameRow(cfg, f)) && Unstyled(FilePathRow(cfg, f)) && Unstyled(DirNameRow(cfg, d))
  {
    RowUnstyled(cfg, LinkedName(cfg, f.name, f.linked), |f.lines|);
    RowUnstyled(cfg, LinkedName(cfg, Display(f.path), f.linked), |f.lines|);
    RowUnstyled(cfg, [NameText(cfg, DirName, d.name)], |d.foundFiles| + |d.children|);
  }

  lemma {:induction false} LineRowsUnstyled(cfg: Config, lines: seq<LineMatch>, prefix: string, n: nat)
    requires !cfg.styled && Unstyled(cfg.terminator) && n <= |lines|
    ensures Unstyled(LineRows(cfg, lines, prefix, n))
  {
    if n > 0 {
      LineRowsUnstyled(cfg, lines, prefix, n - 1);
      LineUnstyled(cfg, lines[n - 1]);
      UnstyledAppend4(LineRows(cfg, lines, prefix, n - 1), [Str(prefix + Branch(n != |lines|))],
                      LineText(cfg, lines[n - 1]), cfg.terminator);
    }
  }

  lemma LineUnstyled(cfg: Config, lm: LineMatch)
    requires !cfg.styled
    ensures Unstyled(LineText(cfg, lm))
  {
    assert LineText(cfg, lm) == PlainLine(cfg, lm);
  }

  lemma FileBlockUnstyled(cfg: Config, f: FileResult, prefix: string, hasNext: bool)
    requires !cfg.styled && Unstyled(cfg.terminator)
    ensures Unstyled(FileBlock(cfg, f, prefix, hasNext))
  {
    NamesUnstyled(cfg, f, Dir("", [], []));
    LineRowsUnstyled(cfg, f.lines, prefix + Spacer(hasNext), |f.lines|);
    UnstyledAppend([Str(prefix + Branch(hasNext))], FileNameRow(cfg, f));
    UnstyledAppend([Str(prefix + Branch(hasNext))] + FileNameRow(cfg, f), LineRows(cfg, f.lines, prefix + Spacer(hasNext), |f.lines|));
  }

  lemma {:induction false} FileGroupUnstyled(cfg: Config, files: seq<FileResult>, prefix: string, n: nat)
    requires !cfg.styled && Unstyled(cfg.terminator) && n <= |files|
    ensures Unstyled(FileGroup(cfg, files, prefix, n))
  {
    if n > 0 {
      FileGroupUnstyled(cfg, files, prefix, n - 1);
      FileGroupStepUnstyled(cfg, files, prefix, n);
    }
  }

  lemma FileGroupStepUnstyled(cfg: Config, files: seq<FileResult>, prefix: string, n: nat)
    requires !cfg.styled && Unstyled(cfg.terminator) && 0 < n <= |files|
    requires Unstyled(FileGroup(cfg, files, prefix, n - 1))
    ensures Unstyled(FileGroup(cfg, files, prefix, n))
  {
    FileBlockUnstyled(cfg, files[n - 1], prefix, n != |files|);
    UnstyledJoin(FileGroup(cfg, files, prefix, n), FileGroup(cfg, files, prefix, n - 1), FileBlock(cfg, files[n - 1], prefix, n != |files|));
  }

  lemma {:induction false} DescendantsUnstyled(cfg: Config, d: Dir, prefix: string)
    requires !cfg.styled && Unstyled(cfg.terminator) && TreePrintable(cfg, d)
    ensures Unstyled(Descendants(cfg, d, prefix))
    decreases d, 2
  {
    var name := if |d.children| > 0 || |d.foundFiles| > 0 then DirNameRow(cfg, d) else [];
    NamesUnstyled(cfg, FileResult("", [], None, []), d);
    ChildRowsUnstyled(cfg, d, prefix, |d.children|);
    FileGroupUnstyled(cfg, d.foundFiles, prefix, |d.foundFiles|);
    UnstyledAppend(name, ChildRows(cfg, d, prefix, |d.children|));
    UnstyledAppend(name + ChildRows(cfg, d, prefix, |d.children|), FileGroup(cfg, d.foundFiles, prefix, |d.foundFiles|));
  }

  lemma {:induction false} ChildRowsUnstyled(cfg: Config, d: Dir, prefix: string, n: nat)
    requires !cfg.styled && Unstyled(cfg.terminator) && TreePrintable(cfg, d) && n <= |d.children|
    ensures Unstyled(ChildRows(cfg, d, prefix, n))
    decreases d, 1, n
  {
    if n > 0 {
      ChildRowsUnstyled(cfg, d, prefix, n - 1);
      ChildRowUnstyled(cfg, d, prefix, n - 1);
      UnstyledJoin(ChildRows(cfg, d, prefix, n), ChildRows(cfg, d, prefix, n - 1), ChildRow(cfg, d, prefix, n - 1));
    }
  }

  lemma {:induction false} ChildRowUnstyled(cfg: Config, d: Dir, prefix: string, k: nat)
    requires !cfg.styled && Unstyled(cfg.terminator) && TreePrintable(cfg, d) && k < |d.children|
    ensures Unstyled(ChildRow(cfg, d, prefix, k))
    decreases d, 0
  {
    var hasNext := k + 1 != |d.children| || |d.foundFiles| > 0;
    DescendantsUnstyled(cfg, d.children[k], prefix + Spacer(hasNext));
    UnstyledJoin(ChildRow(cfg, d, prefix, k), [Str(prefix + Branch(hasNext))], Descendants(cfg, d.children[k], prefix + Spacer(hasNext)));
  }

  lemma {:induction false} PathRowsUnstyled(cfg: Config, files: seq<FileResult>)
    requires !cfg.styled && Unstyled(cfg.terminator)
    ensures Unstyled(PathRows(cfg, files))
    decreases |files|
  {
    if files != [] {
      PathRowsUnstyled(cfg, files[..|files| - 1]);
      NamesUnstyled(cfg, files[|files| - 1], Dir("", [], []));
      UnstyledAppend(PathRows(cfg, files[..|files| - 1]), FilePathRow(cfg, files[|files| - 1]));
    }
  }

  /** Without styling, and with the plain terminator of `get_terminator(false)`, every
      view is free of escape sequences: only text and decoded line bytes are written. */
  lemma UnstyledResults(cfg: Config, s: Searched)
    requires !cfg.styled && Unstyled(cfg.terminator)
    requires cfg.justFiles || SearchedPrintable(cfg, s)
    ensures Unstyled(Results(cfg, s))
  {
    if cfg.justFiles {
      JustFilesView(cfg, s);
      match s
      case DirResult(d) => PathRowsUnstyled(cfg, Files(d));
      case FileResultOf(f) => PathRowsUnstyled(cfg, [f]);
    } else {
      match s
      case DirResult(d) =>
        DescendantsUnstyled(cfg, d, "");
      case FileResultOf(f) =>
        NamesUnstyled(cfg, f, Dir("", [], []));
        LineRowsUnstyled(cfg, f.lines, "", |f.lines|);
        var name := if |f.lines| > 0 then FileNameRow(cfg, f) else [];
        UnstyledAppend(name, LineRows(cfg, f.lines, "", |f.lines|));
    }
  }

  // ---------------------------------------------------------------------------
  // The writer
  // ---------------------------------------------------------------------------

  /** Regrouping appends: what a step writes after what was written before. */
  lemma Regroup(start: seq<Piece>, done: seq<Piece>, a: seq<Piece>)
    ensures start + done + a == start + (done + a)
  {
  }

  lemma Regroup3(start: seq<Piece>, done: seq<Piece>, a: seq<Piece>, b: seq<Piece>)
    ensures start + done + a + b == start + (done + a + b)
    ensures start + done + a + b == start + (done + (a + b))
  {
  }

  lemma Appended(start: seq<Piece>, done: seq<Piece>, a: seq<Piece>, b: seq<Piece>, c: seq<Piece>)
    ensures start + done + a + b + c == start + (done + a + b + c)
  {
  }

  /** The output stream with the configuration the functions read. */
  class Writer {
    const cfg: Config
    var written: seq<Piece>

    constructor(cfg: Config)
      ensures this.cfg == cfg && written == []
    {
      this.cfg := cfg;
      written := [];
    }

    /** `new_line`. */
    method NewLine()
      modifies this
      ensures written == old(written) + cfg.terminator
    {
      written := written + cfg.terminator;
    }

    /** `write_resets`. */
    method WriteResets()
      modifies this
      ensures written == old(written) + Resets(cfg)
    {
      written := written + Resets(cfg);
    }

    method WriteCount(count: nat)
      modifies this
      ensures written == old(written) + CountSuffix(cfg, count)
    {
      if cfg.showCount {
        written := written + [Str(": " + Decimal(count))];
      }
    }

    method WriteFileName(f: FileResult)
      modifies this
      ensures written == old(written) + FileNameRow(cfg, f)
    {
      if f.linked.Some? {
        written := written + [NameText(cfg, FileName, f.name), Str(" -> ")];
        written := written + [NameText(cfg, FileName, Display(f.linked.value))];
      } else {
        written := written + [NameText(cfg, FileName, f.name)];
      }
      WriteCount(|f.lines|);
      NewLine();
    }

    method WriteFilePath(f: FileResult)
      modifies this
      ensures written == old(written) + FilePathRow(cfg, f)
    {
      if f.linked.Some? {
        written := written + [NameText(cfg, FileName, Display(f.path)), Str(" -> ")];
        written := written + [NameText(cfg, FileName, Display(f.linked.value))];
      } else {
        written := written + [NameText(cfg, FileName, Display(f.path))];
      }
      WriteCount(|f.lines|);
      NewLine();
    }

    method WriteDirName(d: Dir)
      modifies this
      ensures written == old(written) + DirNameRow(cfg, d)
    {
      written := written + [NameText(cfg, DirName, d.name)];
      WriteCount(|d.foundFiles| + |d.children|);
      NewLine();
    }

    method PrintLine(lm: LineMatch)
      requires Printable(cfg, lm)
      modifies this
      ensures written == old(written) + LineText(cfg, lm)
    {
      var line := lm.contents;
      if !cfg.styled {
        if cfg.showLineNumber {
          written := written + [Str(Decimal(lm.lineNum) + ": ")];
        }
        written := written + [Raw(TextTrim(line))];
        return;
      }
      if cfg.showLineNumber {
        written := written + [Esc(LINE_NUMBER_FG), Esc(BOLD)];
        written := written + [Str(Decimal(lm.lineNum) + ": ")];
        WriteResets();
      }
      var lastMatch := WriteMatches(lm);
      written := written + [Raw(line[lastMatch..])];
      Regroup3(old(written), LineHeader(cfg, lm), MatchRuns(cfg, lm, |lm.matches|), [Raw(line[lastMatch..])]);
    }

    /** The loop of `print_line` over the matches; gives back where the last one ended. */
    method WriteMatches(lm: LineMatch) returns (lastMatch: nat)
      requires WellFormedLine(lm)
      modifies this
      ensures lastMatch == LastEnd(lm.matches, |lm.matches|)
      ensures written == old(written) + MatchRuns(cfg, lm, |lm.matches|)
    {
      var line := lm.contents;
      lastMatch := 0;
      ghost var start := written;
      for k := 0 to |lm.matches|
        invariant lastMatch == LastEnd(lm.matches, k)
        invariant written == start + MatchRuns(cfg, lm, k)
      {
        var m := lm.matches[k];
        var run := [Raw(line[lastMatch..m.start]), Esc(GetColor(m.regexId)), Esc(BOLD), Raw(line[m.start..m.end])];
        written := written + run;
        lastMatch := m.end;
        WriteResets();
        Regroup3(start, MatchRuns(cfg, lm, k), run, Resets(cfg));
      }
    }

    /** The rows of a file's matched lines below `prefix`. */
    method WriteLineRows(lines: seq<LineMatch>, prefix: string)
      requires LinesPrintable(cfg, lines)
      modifies this
      ensures written == old(written) + LineRows(cfg, lines, prefix, |lines|)
    {
      var len := |lines|;
      ghost var start := written;
      for i := 0 to len
        invariant written == start + LineRows(cfg, lines, prefix, i)
      {
        if i + 1 != len {
          written := written + [Str(prefix + BRANCH_HAS_NEXT)];
        } else {
          written := written + [Str(prefix + BRANCH_END)];
        }
        PrintLine(lines[i]);
        NewLine();
        Appended(start, LineRows(cfg, lines, prefix, i), [Str(prefix + Branch(i + 1 != len))], LineText(cfg, lines[i]), cfg.terminator);
      }
    }

    method PrintFile(f: FileResult, prefix: string, parentHasNext: bool)
      requires LinesPrintable(cfg, f.lines)
      modifies this
      ensures written == old(written) + FileBlock(cfg, f, prefix, parentHasNext)
    {
      var linePrefix := prefix;
      if parentHasNext {
        written := written + [Str(prefix + BRANCH_HAS_NEXT)];
        WriteFileName(f);
        linePrefix := linePrefix + VER_LINE_SPACER;
      } else {
        written := written + [Str(prefix + BRANCH_END)];
        WriteFileName(f);
        linePrefix := linePrefix + SPACER;
      }
      WriteLineRows(f.lines, linePrefix);
      Regroup3(old(written), [Str(prefix + Branch(parentHasNext))], FileNameRow(cfg, f), LineRows(cfg, f.lines, linePrefix, |f.lines|));
    }

    method PrintSingleFile(f: FileResult)
      requires LinesPrintable(cfg, f.lines)
      modifies this
      ensures written == old(written) + SingleFile(cfg, f)
    {
      if |f.lines| > 0 {
        WriteFileName(f);
      }
      WriteLineRows(f.lines, "");
    }

    method HandleDescendants(d: Dir, prefix: string)
      requires TreePrintable(cfg, d)
      modifies this
      ensures written == old(written) + Descendants(cfg, d, prefix)
      decreases d, 1
    {
      var clen, flen := |d.children|, |d.foundFiles|;
      if clen > 0 || flen > 0 {
        WriteDirName(d);
      }
      WriteChildren(d, prefix);
      WriteFileGroup(d.foundFiles, prefix);
      Regroup3(old(written), if clen > 0 || flen > 0 then DirNameRow(cfg, d) else [], ChildRows(cfg, d, prefix, clen),
               FileGroup(cfg, d.foundFiles, prefix, flen));
    }

    /** The loop of `handle_descendants` over the child directories. */
    method WriteChildren(d: Dir, prefix: string)
      requires TreePrintable(cfg, d)
      modifies this
      ensures written == old(written) + ChildRows(cfg, d, prefix, |d.children|)
      decreases d, 0
    {
      var clen, flen := |d.children|, |d.foundFiles|;
      ghost var start := written;
      for i := 0 to clen
        invariant written == start + ChildRows(cfg, d, prefix, i)
      {
        var child := d.children[i];
        ghost var hasNext := i + 1 != clen || flen > 0;
        if i + 1 != clen || flen > 0 {
          written := written + [Str(prefix + BRANCH_HAS_NEXT)];
          HandleDescendants(child, prefix + VER_LINE_SPACER);
        } else {
          written := written + [Str(prefix + BRANCH_END)];
          HandleDescendants(child, prefix + SPACER);
        }
        Regroup3(start, ChildRows(cfg, d, prefix, i), [Str(prefix + Branch(hasNext))], Descendants(cfg, child, prefix + Spacer(hasNext)));
      }
    }

    /** The loop of `handle_descendants` over the directory's files. */
    method WriteFileGroup(files: seq<FileResult>, prefix: string)
      requires forall k :: 0 <= k < |files| ==> LinesPrintable(cfg, files[k].lines)
      modifies this
      ensures written == old(written) + FileGroup(cfg, files, prefix, |files|)
    {
      var flen := |files|;
      ghost var start := written;
      for i := 0 to flen
        invariant written == start + FileGroup(cfg, files, prefix, i)
      {
        if i + 1 != flen {
          PrintFile(files[i], prefix, true);
        } else {
          PrintFile(files[i], prefix, false);
        }
        Regroup(start, FileGroup(cfg, files, prefix, i), FileBlock(cfg, files[i], prefix, i + 1 != flen));
      }
    }

    method StartPrintDirectory(d: Dir)
      requires TreePrintable(cfg, d)
      modifies this
      ensures written == old(written) + Descendants(cfg, d, "")
    {
      HandleDescendants(d, "");
    }

    method WriteFiles(d: Dir)
      modifies this
      ensures written == old(written) + FilesOnly(cfg, d)
      decreases d
    {
      ghost var start := written;
      for i := 0 to |d.children|
        invariant written == start + FilesOnlyChildren(cfg, d, i)
      {
        WriteFiles(d.children[i]);
        Regroup(start, FilesOnlyChildren(cfg, d, i), FilesOnly(cfg, d.children[i]));
      }
      WriteFilePaths(d.foundFiles);
      Regroup(start, FilesOnlyChildren(cfg, d, |d.children|), PathRows(cfg, d.foundFiles));
    }

    /** The directory's own files, one path row each, in order. */
    method WriteFilePaths(files: seq<FileResult>)
      modifies this
      ensures written == old(written) + PathRows(cfg, files)
    {
      ghost var start := written;
      for i := 0 to |files|
        invariant written == start + PathRows(cfg, files[..i])
      {
        assert files[..i + 1][..i] == files[..i];
        WriteFilePath(files[i]);
        Regroup(start, PathRows(cfg, files[..i]), FilePathRow(cfg, files[i]));
      }
      assert files[..|files|] == files;
    }

    method JustWriteFiles(s: Searched)
      modifies this
      ensures written == old(written) + JustFiles(cfg, s)
    {
      match s
      case DirResult(d) => WriteFiles(d);
      case FileResultOf(f) => WriteFilePath(f);
    }

    method WriteResults(s: Searched)
      requires cfg.justFiles || SearchedPrintable(cfg, s)
      modifies this
      ensures written == old(written) + Results(cfg, s)
    {
      if cfg.justFiles {
        JustWriteFiles(s);
        return;
      }
      match s
      case DirResult(d) => StartPrintDirectory(d);
      case FileResultOf(f) => PrintSingleFile(f);
    }
  }
}
