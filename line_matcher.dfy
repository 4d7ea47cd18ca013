/**
 * The line match engine of the searcher: a file's bytes are split into lines,
 * each line is trimmed of tabs and spaces, every pattern's matches on it are
 * collected, and overlapping spans are resolved so that the renderer can
 * highlight them one after another.
 *
 * The regex engine is abstract: a `Pattern` maps a line to the (start, end)
 * pairs its `find_iter` yields.
 */
module LineMatcher {
  import opened Wrappers
  import opened Bytes
  import opened Paths

  // ---------------------------------------------------------------------------
  // trim
  // ---------------------------------------------------------------------------

  predicate IsWhitespace(c: byte) {
    c == TAB || c == SPACE
  }

  predicate AllWhitespace(s: seq<byte>) {
    forall k :: 0 <= k < |s| ==> IsWhitespace(s[k])
  }

  /** `iter().position(is_not_whitespace)`: the first byte that is not a tab or space. */
  function Position(s: seq<byte>): (r: Option<nat>)
    ensures r.None? <==> AllWhitespace(s)
    ensures r.Some? ==> r.value < |s| && !IsWhitespace(s[r.value]) && AllWhitespace(s[..r.value])
  {
    if s == [] then None
    else if !IsWhitespace(s[0]) then Some(0)
    else
      match Position(s[1..])
      case None => None
      case Some(i) =>
        assert s[..i + 1] == [s[0]] + s[1..][..i];
        Some(i + 1)
  }

  /** `iter().rposition(is_not_whitespace)`: the last byte that is not a tab or space. */
  function RPosition(s: seq<byte>): (r: Option<nat>)
    ensures r.None? <==> AllWhitespace(s)
    ensures r.Some? ==> r.value < |s| && !IsWhitespace(s[r.value]) && AllWhitespace(s[r.value + 1..])
  {
    if s == [] then None
    else if !IsWhitespace(s[|s| - 1]) then Some(|s| - 1)
    else
      var r := RPosition(s[..|s| - 1]);
      assert r.Some? ==> s[r.value + 1..] == s[..|s| - 1][r.value + 1..] + [s[|s| - 1]];
      r
  }

  /** `r` sits at offset `lo` of `s`, and everything of `s` around it is tabs and spaces. */
  predicate TrimmedAt(s: seq<byte>, r: seq<byte>, lo: nat) {
    lo + |r| <= |s| && s[lo..lo + |r|] == r && AllWhitespace(s[..lo]) && AllWhitespace(s[lo + |r|..])
  }

  /** `SliceExt::trim`: from the first to the last byte that is not a tab or space. */
  function Trim(s: seq<byte>): seq<byte> {
    match Position(s)
    case None => []
    case Some(first) =>
      match RPosition(s)
      case None => []
      case Some(last) => if first <= last then s[first..last + 1] else []
  }

  /** `trim` gives the contiguous sub-slice without leading or trailing tabs and spaces;
      an input of only tabs and spaces gives the empty slice. */
  lemma TrimSpec(s: seq<byte>)
    ensures exists lo :: TrimmedAt(s, Trim(s), lo)
    ensures Trim(s) == [] <==> AllWhitespace(s)
    ensures var r := Trim(s); r != [] ==> !IsWhitespace(r[0]) && !IsWhitespace(r[|r| - 1])
  {
    match Position(s)
    case None =>
      assert Trim(s) == [] && s[0..] == s;
      assert TrimmedAt(s, [], 0);
    case Some(first) =>
      var last := RPosition(s).value;
      TrimSome(s, first, last);
      var r := Trim(s);
      assert r[0] == s[first] && r[|r| - 1] == s[last];
  }

  lemma TrimSome(s: seq<byte>, first: nat, last: nat)
    requires Position(s) == Some(first) && RPosition(s) == Some(last)
    ensures first <= last && Trim(s) == s[first..last + 1]
    ensures TrimmedAt(s, Trim(s), first)
  {
    assert first <= last;
    var r := s[first..last + 1];
    assert first + |r| == last + 1;
  }

  /** Trimming is idempotent. */
  lemma {:induction false} TrimIdempotent(s: seq<byte>)
    ensures Trim(Trim(s)) == Trim(s)
  {
    TrimSpec(s);
    var t := Trim(s);
    if t != [] {
      assert Position(t) == Some(0);
      assert RPosition(t) == Some(|t| - 1);
      assert t[0..|t|] == t;
    }
  }

  // ---------------------------------------------------------------------------
  // Matches and their overlap resolution
  // ---------------------------------------------------------------------------

  datatype Match = Match(regexId: nat, start: nat, end: nat)

  datatype LineMatch = LineMatch(lineNum: nat, contents: seq<byte>, matches: seq<Match>)

  /** A compiled pattern, reduced to the (start, end) pairs of its `find_iter` on a line. */
  type Pattern = seq<byte> -> seq<(nat, nat)>

  predicate SpansWithin(found: seq<(nat, nat)>, n: nat) {
    forall k :: 0 <= k < |found| ==> found[k].0 <= found[k].1 <= n
  }

  /** What the regex engine guarantees: every match lies inside the searched line. */
  ghost predicate PatternsWellFormed(patterns: seq<Pattern>) {
    forall j, line: seq<byte> :: 0 <= j < |patterns| ==> SpansWithin(patterns[j](line), |line|)
  }

  /** The matches of pattern `j`, tagged with its id. */
  function Tagged(j: nat, found: seq<(nat, nat)>): seq<Match> {
    seq(|found|, k requires 0 <= k < |found| => Match(j, found[k].0, found[k].1))
  }

  /** The matches of the first `n` patterns on `line`, pattern by pattern. */
  function RawMatches(line: seq<byte>, patterns: seq<Pattern>, n: nat): seq<Match>
    requires n <= |patterns|
  {
    if n == 0 then [] else RawMatches(line, patterns, n - 1) + Tagged(n - 1, patterns[n - 1](line))
  }

  /** Under well-formed patterns, every raw match lies inside the line and has a pattern id. */
  lemma {:induction false} RawMatchesWithin(line: seq<byte>, patterns: seq<Pattern>, n: nat)
    requires n <= |patterns| && PatternsWellFormed(patterns)
    ensures forall k :: 0 <= k < |RawMatches(line, patterns, n)| ==>
      var m := RawMatches(line, patterns, n)[k];
      m.start <= m.end <= |line| && m.regexId < n
  {
    if n > 0 {
      RawMatchesWithin(line, patterns, n - 1);
      assert SpansWithin(patterns[n - 1](line), |line|);
    }
  }

  predicate SortedByEnd(ms: seq<Match>) {
    forall i, k :: 0 <= i < k < |ms| ==> ms[i].end <= ms[k].end
  }

  /** Every element ends at or before `bound`. */
  predicate EndsAtMost(ms: seq<Match>, bound: nat) {
    forall k :: 0 <= k < |ms| ==> ms[k].end <= bound
  }

  /** Inserts `m` after every element whose end is not larger, keeping earlier elements first. */
  function InsertByEnd(sorted: seq<Match>, m: Match): (r: seq<Match>)
    ensures |r| == |sorted| + 1
  {
    if sorted == [] || sorted[|sorted| - 1].end <= m.end then sorted + [m]
    else InsertByEnd(sorted[..|sorted| - 1], m) + [sorted[|sorted| - 1]]
  }

  lemma {:induction false} InsertPermutes(sorted: seq<Match>, m: Match)
    ensures multiset(InsertByEnd(sorted, m)) == multiset(sorted) + multiset{m}
  {
    if sorted == [] || sorted[|sorted| - 1].end <= m.end {
    } else {
      var init, last := sorted[..|sorted| - 1], sorted[|sorted| - 1];
      InsertPermutes(init, m);
      assert sorted == init + [last];
      assert InsertByEnd(sorted, m) == InsertByEnd(init, m) + [last];
    }
  }

  lemma {:induction false} InsertEndsAtMost(sorted: seq<Match>, m: Match, bound: nat)
    requires EndsAtMost(sorted, bound) && m.end <= bound
    ensures EndsAtMost(InsertByEnd(sorted, m), bound)
  {
    if sorted == [] || sorted[|sorted| - 1].end <= m.end {
    } else {
      InsertEndsAtMost(sorted[..|sorted| - 1], m, bound);
    }
  }

  lemma {:induction false} InsertSorted(sorted: seq<Match>, m: Match)
    requires SortedByEnd(sorted)
    ensures SortedByEnd(InsertByEnd(sorted, m))
  {
    if sorted == [] || sorted[|sorted| - 1].end <= m.end {
    } else {
      var init, last := sorted[..|sorted| - 1], sorted[|sorted| - 1];
      InsertSorted(init, m);
      InsertEndsAtMost(init, m, last.end);
      var r := InsertByEnd(sorted, m);
      assert r == InsertByEnd(init, m) + [last];
    }
  }

  /** `sort_by_key(|m| m.end)`: a stable sort on the end offset. */
  function SortByEnd(ms: seq<Match>): (r: seq<Match>)
    ensures |r| == |ms|
  {
    if ms == [] then []
    else InsertByEnd(SortByEnd(ms[..|ms| - 1]), ms[|ms| - 1])
  }

  /** The sort yields a permutation of its input, sorted by end. */
  lemma {:induction false} SortByEndFacts(ms: seq<Match>)
    ensures multiset(SortByEnd(ms)) == multiset(ms)
    ensures SortedByEnd(SortByEnd(ms))
  {
    if ms != [] {
      var init, last := ms[..|ms| - 1], ms[|ms| - 1];
      SortByEndFacts(init);
      InsertPermutes(SortByEnd(init), last);
      InsertSorted(SortByEnd(init), last);
      assert ms == init + [last];
    }
  }

  /** The matches of `ms` that end at `e`, in their order in `ms`. */
  function EndingAt(ms: seq<Match>, e: nat): (r: seq<Match>)
    ensures |r| <= |ms|
  {
    if ms == [] then []
    else EndingAt(ms[..|ms| - 1], e) + if ms[|ms| - 1].end == e then [ms[|ms| - 1]] else []
  }

  /** Inserting `m` places it behind every element with the same end. */
  lemma {:induction false} InsertStable(sorted: seq<Match>, m: Match, e: nat)
    ensures EndingAt(InsertByEnd(sorted, m), e) == EndingAt(sorted, e) + if m.end == e then [m] else []
  {
    if sorted == [] || sorted[|sorted| - 1].end <= m.end {
      var r := sorted + [m];
      assert r[..|r| - 1] == sorted;
    } else {
      var init, last := sorted[..|sorted| - 1], sorted[|sorted| - 1];
      InsertStable(init, m, e);
      var r := InsertByEnd(init, m) + [last];
      assert r[..|r| - 1] == InsertByEnd(init, m);
    }
  }

  /**
   * The sort is stable: for every end offset, the matches that end there come
   * out in the order they went in.
   */
  lemma {:induction false} SortByEndStable(ms: seq<Match>, e: nat)
    ensures EndingAt(SortByEnd(ms), e) == EndingAt(ms, e)
  {
    if ms != [] {
      var init, last := ms[..|ms| - 1], ms[|ms| - 1];
      SortByEndStable(init, e);
      InsertStable(SortByEnd(init), last, e);
    }
  }

  /** The clamping pass: each span that starts before its predecessor's end starts there instead. */
  function Clamped(s: seq<Match>): seq<Match> {
    seq(|s|, i requires 0 <= i < |s| =>
      if i > 0 && s[i].start < s[i - 1].end then s[i].(start := s[i - 1].end) else s[i])
  }

  /** Overlap resolution of a line's raw matches. */
  function Resolve(raw: seq<Match>): seq<Match> {
    Clamped(SortByEnd(raw))
  }

  /** What the renderer relies on: spans inside the line, sorted, non-overlapping. */
  predicate WellFormedLine(lm: LineMatch) {
    SpansBounded(lm.matches, |lm.contents|) &&
    (forall i :: 1 <= i < |lm.matches| ==> lm.matches[i - 1].end <= lm.matches[i].start)
  }

  predicate SpansBounded(ms: seq<Match>, n: nat) {
    forall k :: 0 <= k < |ms| ==> ms[k].start <= ms[k].end <= n
  }

  /** Clamping spans sorted by end only moves starts forward, and leaves them sorted,
      disjoint and of non-negative width. */
  lemma ClampedFacts(s: seq<Match>, n: nat)
    requires SortedByEnd(s) && SpansBounded(s, n)
    ensures var r := Clamped(s);
      && |r| == |s|
      && (forall i :: 0 <= i < |r| ==> r[i] == s[i].(start := r[i].start) && s[i].start <= r[i].start)
      && SortedByEnd(r)
      && SpansBounded(r, n)
      && (forall i :: 1 <= i < |r| ==> r[i - 1].end <= r[i].start)
  {
    var r := Clamped(s);
    forall i | 1 <= i < |r| ensures r[i - 1].end <= r[i].start <= r[i].end {
      assert s[i - 1].end <= s[i].end;
    }
  }

  /** Sorting moves spans around but keeps each one as it was. */
  lemma SortKeepsBounds(raw: seq<Match>, n: nat)
    requires SpansBounded(raw, n)
    ensures SpansBounded(SortByEnd(raw), n)
  {
    var sorted := SortByEnd(raw);
    SortByEndFacts(raw);
    forall i | 0 <= i < |sorted| ensures sorted[i].start <= sorted[i].end <= n {
      assert sorted[i] in multiset(raw);
    }
  }

  /** Resolution keeps every span (a permutation of the raw ones in which only starts moved),
      sorts them by end, and leaves no two overlapping; no span gets negative width. */
  lemma ResolveFacts(raw: seq<Match>, n: nat)
    requires SpansBounded(raw, n)
    ensures var sorted, r := SortByEnd(raw), Resolve(raw);
      && multiset(sorted) == multiset(raw)
      && |r| == |raw|
      && (forall i :: 0 <= i < |r| ==> r[i] == sorted[i].(start := r[i].start) && sorted[i].start <= r[i].start)
      && SortedByEnd(r)
      && SpansBounded(r, n)
      && (forall i :: 1 <= i < |r| ==> r[i - 1].end <= r[i].start)
  {
    SortByEndFacts(raw);
    SortKeepsBounds(raw, n);
    ClampedFacts(SortByEnd(raw), n);
  }

  // ---------------------------------------------------------------------------
  // Lines
  // ---------------------------------------------------------------------------

  /** `split(|&byte| byte == b'\n')`: the fragments between newlines, including the final one. */
  function SplitLines(s: seq<byte>): (r: seq<seq<byte>>)
    ensures |r| >= 1
  {
    if s == [] then [[]]
    else if s[0] == NEWLINE then [[]] + SplitLines(s[1..])
    else
      var t := SplitLines(s[1..]);
      [[s[0]] + t[0]] + t[1..]
  }

  function JoinLines(fs: seq<seq<byte>>): seq<byte>
    requires |fs| >= 1
  {
    if |fs| == 1 then fs[0] else fs[0] + [NEWLINE] + JoinLines(fs[1..])
  }

  /** Splitting loses nothing: the fragments joined with newlines give back the buffer,
      and no fragment holds a newline. */
  lemma {:induction false} SplitJoin(s: seq<byte>)
    ensures JoinLines(SplitLines(s)) == s
    ensures forall i :: 0 <= i < |SplitLines(s)| ==> NEWLINE !in SplitLines(s)[i]
  {
    if s == [] {
    } else if s[0] == NEWLINE {
      SplitJoin(s[1..]);
      assert SplitLines(s)[1..] == SplitLines(s[1..]);
    } else {
      SplitJoin(s[1..]);
      var t := SplitLines(s[1..]);
      var r := SplitLines(s);
      assert r[1..] == t[1..];
      if |t| > 1 {
        assert JoinLines(t) == t[0] + [NEWLINE] + JoinLines(t[1..]);
      }
      forall i | 0 <= i < |r| ensures NEWLINE !in r[i] {
        if i > 0 { assert r[i] == t[i]; }
      }
    }
  }

  /** The record for fragment number `i` (0-based), if any pattern matched it. */
  function LineResult(i: nat, fragment: seq<byte>, patterns: seq<Pattern>): Option<LineMatch> {
    var line := Trim(fragment);
    var raw := RawMatches(line, patterns, |patterns|);
    if |raw| > 0 then Some(LineMatch(i + 1, line, Resolve(raw))) else None
  }

  /** The outcome for every fragment, in order. */
  function LineResults(fragments: seq<seq<byte>>, patterns: seq<Pattern>): (r: seq<Option<LineMatch>>)
    ensures |r| == |fragments|
  {
    seq(|fragments|, i requires 0 <= i < |fragments| => LineResult(i, fragments[i], patterns))
  }

  /** The record an outcome contributes: none, or one. */
  function Kept(outcome: Option<LineMatch>): seq<LineMatch> {
    if outcome.Some? then [outcome.value] else []
  }

  /** The records among the first `n` outcomes. */
  function Present(opts: seq<Option<LineMatch>>, n: nat): seq<LineMatch>
    requires n <= |opts|
  {
    if n == 0 then []
    else Present(opts, n - 1) + Kept(opts[n - 1])
  }

  /** The records of the first `n` fragments. */
  function ScanFrom(fragments: seq<seq<byte>>, patterns: seq<Pattern>, n: nat): seq<LineMatch>
    requires n <= |fragments|
  {
    Present(LineResults(fragments, patterns), n)
  }

  /** What `add_matches` appends for a buffer: nothing for a buffer holding a NUL byte,
      otherwise one record per matching line. */
  function Scan(contents: seq<byte>, patterns: seq<Pattern>): seq<LineMatch> {
    if NUL in contents then []
    else
      var fragments := SplitLines(contents);
      ScanFrom(fragments, patterns, |fragments|)
  }

  /** Fragment `i` is recorded iff some pattern matched its trimmed text, and then with its
      1-based number, its trimmed text and the resolved spans. */
  lemma LineResultFacts(i: nat, fragment: seq<byte>, patterns: seq<Pattern>)
    ensures var line := Trim(fragment);
      var raw := RawMatches(line, patterns, |patterns|);
      && (LineResult(i, fragment, patterns).Some? <==> raw != [])
      && (LineResult(i, fragment, patterns).Some? ==>
            LineResult(i, fragment, patterns).value == LineMatch(i + 1, line, Resolve(raw)))
  {
  }

  /** Numbering of outcomes: outcome `i`, when present, is numbered `i + 1`. */
  predicate Numbered(opts: seq<Option<LineMatch>>) {
    forall i :: 0 <= i < |opts| && opts[i].Some? ==> opts[i].value.lineNum == i + 1
  }

  /** Every kept record is a present outcome, under its own number. */
  lemma {:induction false} PresentSound(opts: seq<Option<LineMatch>>, n: nat)
    requires n <= |opts| && Numbered(opts)
    ensures forall k :: 0 <= k < |Present(opts, n)| ==>
      var lm := Present(opts, n)[k];
      1 <= lm.lineNum <= n && opts[lm.lineNum - 1] == Some(lm)
  {
    if n > 0 {
      PresentSound(opts, n - 1);
    }
  }

  /** Kept records come in strictly increasing number order. */
  lemma {:induction false} PresentOrdered(opts: seq<Option<LineMatch>>, n: nat)
    requires n <= |opts| && Numbered(opts)
    ensures forall k1, k2 :: 0 <= k1 < k2 < |Present(opts, n)| ==>
      Present(opts, n)[k1].lineNum < Present(opts, n)[k2].lineNum
  {
    if n > 0 {
      PresentOrdered(opts, n - 1);
      PresentSound(opts, n - 1);
    }
  }

  /** No present outcome is lost. */
  lemma {:induction false} PresentComplete(opts: seq<Option<LineMatch>>, n: nat)
    requires n <= |opts| && Numbered(opts)
    ensures forall i :: 0 <= i < n && opts[i].Some? ==>
      exists k :: 0 <= k < |Present(opts, n)| && Present(opts, n)[k].lineNum == i + 1
  {
    if n > 0 {
      PresentComplete(opts, n - 1);
      var prev := Present(opts, n - 1);
      var r := Present(opts, n);
      forall i | 0 <= i < n && opts[i].Some?
        ensures exists k :: 0 <= k < |Present(opts, n)| && Present(opts, n)[k].lineNum == i + 1
      {
        if i < n - 1 {
          var k :| 0 <= k < |prev| && prev[k].lineNum == i + 1;
          assert r[k] == prev[k];
          assert Present(opts, n)[k].lineNum == i + 1;
        } else {
          assert r == prev + [opts[n - 1].value];
          assert Present(opts, n)[|r| - 1].lineNum == i + 1;
        }
      }
    }
  }

  lemma LineResultsAt(fragments: seq<seq<byte>>, patterns: seq<Pattern>, i: nat)
    requires i < |fragments|
    ensures LineResults(fragments, patterns)[i] == LineResult(i, fragments[i], patterns)
  {
  }

  lemma ScanFromStep(fragments: seq<seq<byte>>, patterns: seq<Pattern>, i: nat)
    requires i < |fragments|
    ensures ScanFrom(fragments, patterns, i + 1) == ScanFrom(fragments, patterns, i) + Kept(LineResult(i, fragments[i], patterns))
  {
    LineResultsAt(fragments, patterns, i);
  }

  /** `lm` is the record of a fragment (1-based): that fragment's trimmed text, on which some
      pattern matched, with the resolved spans of those matches. */
  predicate RecordOf(fragments: seq<seq<byte>>, patterns: seq<Pattern>, lm: LineMatch) {
    && 1 <= lm.lineNum <= |fragments|
    && lm.contents == Trim(fragments[lm.lineNum - 1])
    && RawMatches(lm.contents, patterns, |patterns|) != []
    && lm.matches == Resolve(RawMatches(lm.contents, patterns, |patterns|))
  }

  lemma ScanFromRecords(fragments: seq<seq<byte>>, patterns: seq<Pattern>)
    ensures forall k :: 0 <= k < |ScanFrom(fragments, patterns, |fragments|)| ==>
      RecordOf(fragments, patterns, ScanFrom(fragments, patterns, |fragments|)[k])
  {
    var opts := LineResults(fragments, patterns);
    NumberedResults(fragments, patterns);
    PresentSound(opts, |opts|);
    var r := ScanFrom(fragments, patterns, |fragments|);
    forall k | 0 <= k < |r| ensures RecordOf(fragments, patterns, r[k]) {
      OutcomeRecord(fragments, patterns, r[k].lineNum - 1, r[k]);
    }
  }

  /** A present outcome is the record of its fragment. */
  lemma OutcomeRecord(fragments: seq<seq<byte>>, patterns: seq<Pattern>, i: nat, lm: LineMatch)
    requires i < |fragments| && LineResults(fragments, patterns)[i] == Some(lm) && lm.lineNum == i + 1
    ensures RecordOf(fragments, patterns, lm)
  {
    LineResultsAt(fragments, patterns, i);
    LineResultFacts(i, fragments[i], patterns);
  }

  /** What each record of a buffer is: none for a buffer with a NUL byte; otherwise every
      record is numbered after a fragment (1-based), holds that fragment's trimmed text, and
      holds the resolved spans of the patterns' matches on it, of which there is at least one. */
  lemma ScanRecords(contents: seq<byte>, patterns: seq<Pattern>)
    ensures NUL in contents ==> Scan(contents, patterns) == []
    ensures forall k :: 0 <= k < |Scan(contents, patterns)| ==>
      RecordOf(SplitLines(contents), patterns, Scan(contents, patterns)[k])
  {
    if NUL !in contents {
      ScanFromRecords(SplitLines(contents), patterns);
    }
  }

  lemma NumberedResults(fragments: seq<seq<byte>>, patterns: seq<Pattern>)
    ensures Numbered(LineResults(fragments, patterns))
  {
    var opts := LineResults(fragments, patterns);
    forall i | 0 <= i < |opts| && opts[i].Some? ensures opts[i].value.lineNum == i + 1 {
      LineResultFacts(i, fragments[i], patterns);
    }
  }

  /** Records come in strictly increasing line order, and a fragment of a buffer without NUL
      bytes on which some pattern matched is always recorded. */
  lemma ScanOrderedComplete(contents: seq<byte>, patterns: seq<Pattern>)
    ensures var r := Scan(contents, patterns);
      forall k1, k2 :: 0 <= k1 < k2 < |r| ==> r[k1].lineNum < r[k2].lineNum
    ensures var fragments, r := SplitLines(contents), Scan(contents, patterns);
      NUL !in contents ==>
        forall i :: 0 <= i < |fragments| && RawMatches(Trim(fragments[i]), patterns, |patterns|) != [] ==>
          exists k :: 0 <= k < |r| && r[k].lineNum == i + 1
  {
    var fragments := SplitLines(contents);
    if NUL !in contents {
      var opts := LineResults(fragments, patterns);
        NumberedResults(fragments, patterns);
      PresentOrdered(opts, |opts|);
      PresentComplete(opts, |opts|);
      forall i | 0 <= i < |fragments| && RawMatches(Trim(fragments[i]), patterns, |patterns|) != []
        ensures opts[i].Some?
      {
        LineResultFacts(i, fragments[i], patterns);
      }
    }
  }

  /** Under well-formed patterns, every record's spans lie inside its line, sorted and
      disjoint, as the renderer needs. */
  lemma ScanWellFormed(contents: seq<byte>, patterns: seq<Pattern>)
    requires PatternsWellFormed(patterns)
    ensures forall k :: 0 <= k < |Scan(contents, patterns)| ==> WellFormedLine(Scan(contents, patterns)[k])
  {
    ScanRecords(contents, patterns);
    var r := Scan(contents, patterns);
    forall k | 0 <= k < |r| ensures WellFormedLine(r[k]) {
      var raw := RawMatches(r[k].contents, patterns, |patterns|);
      RawMatchesWithin(r[k].contents, patterns, |patterns|);
      ResolveFacts(raw, |r[k].contents|);
    }
  }

  // ---------------------------------------------------------------------------
  // The imperative engine
  // ---------------------------------------------------------------------------

  /** The inner loop of `add_matches`: every match of every pattern, in pattern order. */
  method CollectMatches(line: seq<byte>, patterns: seq<Pattern>) returns (matches: seq<Match>)
    ensures matches == RawMatches(line, patterns, |patterns|)
  {
    matches := [];
    var j := 0;
    while j < |patterns|
      invariant j <= |patterns|
      invariant matches == RawMatches(line, patterns, j)
    {
      var found := patterns[j](line);
      if |found| == 0 {
        // the peeked iterator is empty
        j := j + 1;
        continue;
      }
      var k := 0;
      while k < |found|
        invariant k <= |found|
        invariant matches == RawMatches(line, patterns, j) + Tagged(j, found[..k])
      {
        matches := matches + [Match(j, found[k].0, found[k].1)];
        k := k + 1;
      }
      assert found[..k] == found;
      j := j + 1;
    }
  }

  /** The loop of `add_matches` over the fragments of a buffer: the records it pushes, in order. */
  method MatchLines(fragments: seq<seq<byte>>, patterns: seq<Pattern>) returns (found: seq<LineMatch>)
    ensures found == ScanFrom(fragments, patterns, |fragments|)
  {
    found := [];
    for lineNum := 0 to |fragments|
      invariant found == ScanFrom(fragments, patterns, lineNum)
    {
      var outcome := MatchLine(lineNum, fragments[lineNum], patterns);
      ScanFromStep(fragments, patterns, lineNum);
      if outcome.Some? {
        found := found + [outcome.value];
      }
    }
  }

  /** The body of `add_matches`' line loop for fragment number `i` (0-based): trims it,
      collects the matches, and when there are any, sorts them by end and clamps them. */
  method MatchLine(i: nat, fragment: seq<byte>, patterns: seq<Pattern>) returns (outcome: Option<LineMatch>)
    ensures outcome == LineResult(i, fragment, patterns)
  {
    var line := Trim(fragment);
    var matches := CollectMatches(line, patterns);
    if |matches| > 0 {
      matches := SortByEnd(matches);
      matches := ClampOverlaps(matches);
      return Some(LineMatch(i + 1, line, matches));
    }
    return None;
  }

  /** The `while m_id < matches.len()` pass over matches already sorted by end. */
  method ClampOverlaps(sorted: seq<Match>) returns (matches: seq<Match>)
    ensures matches == Clamped(sorted)
  {
    matches := sorted;
    var mId := 1;
    while mId < |matches|
      invariant |matches| == |sorted|
      invariant 1 <= mId || |matches| == 0
      invariant forall i :: 0 <= i < mId && i < |matches| ==> matches[i] == Clamped(sorted)[i]
      invariant forall i :: mId <= i < |matches| ==> matches[i] == sorted[i]
    {
      if matches[mId].start < matches[mId - 1].end {
        // overlap found
        matches := matches[mId := matches[mId].(start := matches[mId - 1].end)];
      }
      mId := mId + 1;
    }
  }

  /** A file and its matched lines (`File` once it is stored in the tree: read-only). */
  datatype FileResult = FileResult(name: string, path: Path, linked: Option<Path>, lines: seq<LineMatch>)

  /** `File` while `add_matches` fills it. */
  class File {
    var name: string
    var path: Path
    var linked: Option<Path>
    var lines: seq<LineMatch>

    constructor (name: string, path: Path, linked: Option<Path>)
      ensures this.name == name && this.path == path && this.linked == linked && lines == []
    {
      this.name := name;
      this.path := path;
      this.linked := linked;
      lines := [];
    }

    function Value(): FileResult
      reads this
    {
      FileResult(name, path, linked, lines)
    }

    /** `File::add_matches`: appends one record per matching line of `contents`. */
    method AddMatches(contents: seq<byte>, patterns: seq<Pattern>)
      modifies this`lines
      ensures lines == old(lines) + Scan(contents, patterns)
    {
      // a NUL byte marks a binary file
      if NUL in contents {
        return;
      }
      var found := MatchLines(SplitLines(contents), patterns);
      lines := lines + found;
    }
  }
}
