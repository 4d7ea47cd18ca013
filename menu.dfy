/**
 * The selection menu: the redraw loop over the rendered lines and the key
 * reader it waits on. The terminal is modelled by what is queued to it
 * (`Command`) and by the stream of events it delivers (`Event`).
 */
module Menu {
  import opened Wrappers
  import opened Formats

  /** crossterm input events, reduced to what `read_char` looks at. */
  datatype KeyCode = Char(c: char) | NonChar
  datatype KeyKind = Press | Repeat | Release
  datatype Event =
    | Key(code: KeyCode, kind: KeyKind, control: bool)
    | NonKey                   // mouse, focus, paste, resize
    | ReadFailed               // `event::read` returned an error

  /** What the redraw queues to the terminal. */
  datatype Command = MoveTo(column: nat, row: nat) | Highlight(color: Color) | Print(text: string)

  /** The events `read_char` returns on: a press of a character key. */
  predicate CharPress(e: Event) {
    e.Key? && e.code.Char? && e.kind == Press
  }

  /** The value `read_char` returns for a character press: `None` for Ctrl-C. */
  function KeyResult(e: Event): (r: Option<char>)
    requires CharPress(e)
    ensures r.None? <==> e.control && e.code.c == 'c'
    ensures r.Some? ==> r.value == e.code.c
  {
    if e.control && e.code.c == 'c' then None else Some(e.code.c)
  }

  /** `read_char` blocks until a character press arrives; here one must be in the stream. */
  predicate Pending(events: seq<Event>) {
    exists k :: 0 <= k < |events| && CharPress(events[k])
  }

  /**
   * `read_char`: skips every event that is not a character press (errors,
   * releases, non-character keys, non-key events) and answers the first one.
   */
  method ReadChar(events: seq<Event>) returns (key: Option<char>, used: nat)
    requires Pending(events)
    ensures 0 < used <= |events|
    ensures CharPress(events[used - 1])
    ensures forall k :: 0 <= k < used - 1 ==> !CharPress(events[k])
    ensures key.None? <==> events[used - 1].control && events[used - 1].code.c == 'c'
    ensures key.Some? ==> key.value == events[used - 1].code.c
  {
    used := 0;
    while true
      invariant used < |events|
      invariant forall k :: 0 <= k < used ==> !CharPress(events[k])
      decreases |events| - used
    {
      var e := events[used];
      used := used + 1;
      if e.Key? && e.code.Char? && e.kind == Press {
        if e.control && e.code.c == 'c' {
          return None, used;
        } else {
          return Some(e.code.c), used;
        }
      }
      assert forall k :: 0 <= k < used ==> !CharPress(events[k]);
    }
  }

  /** `max_selected_id`: the index of the last rendered line. */
  function MaxSelectedId(lines: seq<string>): nat
    requires 1 <= |lines|
  {
    |lines| - 1
  }

  /**
   * One key of the loop: `None` when the loop breaks, the next selection otherwise.
   * `max_selected_id - 1` is the last line that can be selected: the final line
   * of the split is what follows the last terminator's newline (a carriage
   * return, the cursor space and the default colour), not a row of results.
   */
  function Step(selected: nat, maxSelectedId: nat, key: Option<char>): Option<nat>
    requires 1 <= maxSelectedId
  {
    match key
    case Some('j') => Some(if selected < maxSelectedId - 1 then selected + 1 else selected)
    case Some('k') => Some(if selected > 0 then selected - 1 else selected)
    case Some('q') => None
    case None => None
    case Some(_) => Some(selected)
  }

  /** The loop ends on `q` and Ctrl-C only; `j`/`k` move by one within bounds; other keys do nothing. */
  lemma StepFacts(selected: nat, maxSelectedId: nat, key: Option<char>)
    requires 1 <= maxSelectedId && selected <= maxSelectedId - 1
    ensures Step(selected, maxSelectedId, key).None? <==> key == None || key == Some('q')
    ensures var r := Step(selected, maxSelectedId, key);
      r.Some? ==> r.value <= maxSelectedId - 1 && selected - 1 <= r.value <= selected + 1
    ensures key == Some('j') && selected < maxSelectedId - 1 ==> Step(selected, maxSelectedId, key) == Some(selected + 1)
    ensures key == Some('k') && 0 < selected ==> Step(selected, maxSelectedId, key) == Some(selected - 1)
    ensures key.Some? && key.value != 'j' && key.value != 'k' && key.value != 'q' ==>
      Step(selected, maxSelectedId, key) == Some(selected)
  {
  }

  /**
   * The selections the loop draws, one per redraw, while it reads the events
   * from `from` on: events that are not character presses are skipped, as
   * `read_char` does.
   */
  function Run(selected: nat, maxSelectedId: nat, events: seq<Event>, from: nat): (r: seq<nat>)
    requires 1 <= maxSelectedId
    ensures |r| >= 1 && r[0] == selected
    decreases |events| - from
  {
    if from >= |events| then [selected]
    else if !CharPress(events[from]) then Run(selected, maxSelectedId, events, from + 1)
    else match Step(selected, maxSelectedId, KeyResult(events[from]))
      case None => [selected]
      case Some(next) => [selected] + Run(next, maxSelectedId, events, from + 1)
  }

  /** One call of `read_char` decides the next redraw, or the end of the loop. */
  lemma {:induction false} RunAfterRead(selected: nat, maxSelectedId: nat, events: seq<Event>, from: nat, after: nat)
    requires 1 <= maxSelectedId
    requires from < after <= |events|
    requires CharPress(events[after - 1])
    requires forall k :: from <= k < after - 1 ==> !CharPress(events[k])
    ensures var step := Step(selected, maxSelectedId, KeyResult(events[after - 1]));
      Run(selected, maxSelectedId, events, from) ==
        if step.None? then [selected] else [selected] + Run(step.value, maxSelectedId, events, after)
    decreases after - from
  {
    if from < after - 1 {
      RunAfterRead(selected, maxSelectedId, events, from + 1, after);
    }
  }

  /** The highlighted row never leaves the non-empty lines of the rendering. */
  lemma {:induction false} RunBounded(selected: nat, maxSelectedId: nat, events: seq<Event>, from: nat)
    requires 1 <= maxSelectedId && selected <= maxSelectedId - 1
    ensures forall k :: 0 <= k < |Run(selected, maxSelectedId, events, from)| ==>
      Run(selected, maxSelectedId, events, from)[k] <= maxSelectedId - 1
    decreases |events| - from
  {
    if from < |events| {
      if !CharPress(events[from]) {
        RunBounded(selected, maxSelectedId, events, from + 1);
      } else {
        StepFacts(selected, maxSelectedId, KeyResult(events[from]));
        match Step(selected, maxSelectedId, KeyResult(events[from]))
        case None =>
        case Some(next) => RunBounded(next, maxSelectedId, events, from + 1);
      }
    }
  }

  /** One row of a redraw: move to the row, highlight it when selected, print it. */
  function Row(lines: seq<string>, i: nat, selected: nat): seq<Command>
    requires i < |lines|
  {
    [MoveTo(1, i + 1)] + (if i == selected then [Highlight(MENU_SELECTED)] else []) + [Print(lines[i])]
  }

  /** The first `n` rows of a redraw. */
  function Frame(lines: seq<string>, selected: nat, n: nat): seq<Command>
    requires n <= |lines|
  {
    if n == 0 then [] else Frame(lines, selected, n - 1) + Row(lines, n - 1, selected)
  }

  predicate NoHighlight(cs: seq<Command>) {
    forall k :: 0 <= k < |cs| ==> !cs[k].Highlight?
  }

  /** The printed texts of a command sequence, in order. */
  function Printed(cs: seq<Command>): seq<string> {
    if cs == [] then []
    else Printed(cs[..|cs| - 1]) + (if cs[|cs| - 1].Print? then [cs[|cs| - 1].text] else [])
  }

  lemma {:induction false} PrintedAppend(a: seq<Command>, b: seq<Command>)
    ensures Printed(a + b) == Printed(a) + Printed(b)
    decreases |b|
  {
    if b == [] {
      assert a + b == a;
    } else {
      assert (a + b)[..|a + b| - 1] == a + b[..|b| - 1];
      PrintedAppend(a, b[..|b| - 1]);
    }
  }

  /** A redraw prints every line, in order. */
  lemma {:induction false} FramePrintsLines(lines: seq<string>, selected: nat, n: nat)
    requires n <= |lines|
    ensures Printed(Frame(lines, selected, n)) == lines[..n]
  {
    if n > 0 {
      var row := Row(lines, n - 1, selected);
      FramePrintsLines(lines, selected, n - 1);
      PrintedAppend(Frame(lines, selected, n - 1), row);
      var mid := if n - 1 == selected then [Highlight(MENU_SELECTED)] else [];
      PrintedAppend([MoveTo(1, n)] + mid, [Print(lines[n - 1])]);
      PrintedAppend([MoveTo(1, n)], mid);
      assert Printed([MoveTo(1, n)]) == [] by {
        assert [MoveTo(1, n)][..0] == [];
      }
      assert Printed(mid) == [] by {
        if mid != [] { assert mid[..0] == []; }
      }
      assert Printed([Print(lines[n - 1])]) == [lines[n - 1]] by {
        assert [Print(lines[n - 1])][..0] == [];
      }
      assert lines[..n] == lines[..n - 1] + [lines[n - 1]];
    }
  }

  /** Rows other than the selected one carry no highlight. */
  lemma {:induction false} FrameUnhighlighted(lines: seq<string>, selected: nat, n: nat)
    requires n <= |lines| && n <= selected
    ensures NoHighlight(Frame(lines, selected, n))
  {
    if n > 0 {
      FrameUnhighlighted(lines, selected, n - 1);
    }
  }

  /** The rows after the selected one, as a sequence of their own. */
  function RowsFrom(lines: seq<string>, selected: nat, from: nat, n: nat): seq<Command>
    requires from <= n <= |lines|
    decreases n - from
  {
    if n == from then [] else RowsFrom(lines, selected, from, n - 1) + Row(lines, n - 1, selected)
  }

  lemma {:induction false} FrameSplit(lines: seq<string>, selected: nat, from: nat, n: nat)
    requires from <= n <= |lines|
    ensures Frame(lines, selected, n) == Frame(lines, selected, from) + RowsFrom(lines, selected, from, n)
    ensures from > selected ==> NoHighlight(RowsFrom(lines, selected, from, n))
    decreases n - from
  {
    if n > from {
      FrameSplit(lines, selected, from, n - 1);
    }
  }

  /**
   * Exactly one highlight per redraw, and it sits between the move to the
   * selected row and that row's text.
   */
  lemma FrameSelection(lines: seq<string>, selected: nat)
    requires selected < |lines|
    ensures exists before, after ::
      Frame(lines, selected, |lines|) ==
        before + [MoveTo(1, selected + 1), Highlight(MENU_SELECTED), Print(lines[selected])] + after
      && NoHighlight(before) && NoHighlight(after)
  {
    FrameSplit(lines, selected, selected + 1, |lines|);
    FrameUnhighlighted(lines, selected, selected);
    var before := Frame(lines, selected, selected);
    var after := RowsFrom(lines, selected, selected + 1, |lines|);
    assert Frame(lines, selected, |lines|) ==
      before + [MoveTo(1, selected + 1), Highlight(MENU_SELECTED), Print(lines[selected])] + after;
  }

  /** The redraws for a sequence of selections, concatenated. */
  function Frames(lines: seq<string>, shown: seq<nat>): seq<Command> {
    if shown == [] then [] else Frames(lines, shown[..|shown| - 1]) + Frame(lines, shown[|shown| - 1], |lines|)
  }

  lemma FramesSnoc(lines: seq<string>, shown: seq<nat>, selected: nat)
    ensures Frames(lines, shown + [selected]) == Frames(lines, shown) + Frame(lines, selected, |lines|)
  {
    assert (shown + [selected])[..|shown|] == shown;
  }

  /** The redraw of lines 71-78: one row per line. */
  method DrawFrame(lines: seq<string>, selected: nat) returns (out: seq<Command>)
    ensures out == Frame(lines, selected, |lines|)
  {
    out := [];
    for i := 0 to |lines|
      invariant out == Frame(lines, selected, i)
    {
      out := out + [MoveTo(1, i + 1)];
      if i == selected {
        out := out + [Highlight(MENU_SELECTED)];
      }
      out := out + [Print(lines[i])];
    }
  }

  /** A quitting key (`q` or Ctrl-C) is among the events from `from` on. */
  predicate Quits(events: seq<Event>, from: nat) {
    exists k :: from <= k < |events| && CharPress(events[k]) && (KeyResult(events[k]) == None || KeyResult(events[k]) == Some('q'))
  }

  lemma Shift(a: seq<nat>, x: nat, r: seq<nat>)
    ensures (a + [x]) + r == a + ([x] + r)
  {
  }

  /** One call of `read_char` from position `used` of the event stream. */
  method NextKey(events: seq<Event>, used: nat) returns (key: Option<char>, after: nat)
    requires used <= |events| && Quits(events, used)
    ensures used < after <= |events| && CharPress(events[after - 1]) && key == KeyResult(events[after - 1])
    ensures forall k :: used <= k < after - 1 ==> !CharPress(events[k])
  {
    var rest := events[used..];
    var k0 :| used <= k0 < |events| && CharPress(events[k0]);
    assert rest[k0 - used] == events[k0];
    var n;
    key, n := ReadChar(rest);
    after := used + n;
    assert rest[n - 1] == events[after - 1];
    forall k | used <= k < after - 1
      ensures !CharPress(events[k])
    {
      assert rest[k - used] == events[k];
    }
  }

  /** A key that does not quit leaves the quitting key still ahead. */
  lemma QuitsLater(events: seq<Event>, used: nat, after: nat)
    requires Quits(events, used)
    requires used < after <= |events| && CharPress(events[after - 1])
    requires forall k :: used <= k < after - 1 ==> !CharPress(events[k])
    requires KeyResult(events[after - 1]) != None && KeyResult(events[after - 1]) != Some('q')
    ensures Quits(events, after)
  {
    var k :| used <= k < |events| && CharPress(events[k]) && (KeyResult(events[k]) == None || KeyResult(events[k]) == Some('q'));
    assert after <= k;
  }

  /**
   * Waiting for a key after a redraw, and what the key does to the selection
   * (lines 83-96). `shown` and `target` carry the loop's account of the
   * selections drawn so far and of all of them.
   */
  method Turn(events: seq<Event>, used: nat, selected: nat, maxSelectedId: nat, ghost shown: seq<nat>, ghost target: seq<nat>)
    returns (step: Option<nat>, after: nat)
    requires used <= |events| && Quits(events, used)
    requires 1 <= maxSelectedId && selected <= maxSelectedId - 1
    requires shown + Run(selected, maxSelectedId, events, used) == target
    ensures used < after <= |events| && CharPress(events[after - 1])
    ensures step == Step(selected, maxSelectedId, KeyResult(events[after - 1]))
    ensures step.None? ==> (KeyResult(events[after - 1]) == None || KeyResult(events[after - 1]) == Some('q')) && shown + [selected] == target
    ensures step.Some? ==> step.value <= maxSelectedId - 1 && Quits(events, after)
    ensures step.Some? ==> (shown + [selected]) + Run(step.value, maxSelectedId, events, after) == target
  {
    var key;
    key, after := NextKey(events, used);
    RunAfterRead(selected, maxSelectedId, events, used, after);
    if key != None && key != Some('q') {
      QuitsLater(events, used, after);
    }
    StepFacts(selected, maxSelectedId, key);
    step := match key
      case Some('j') => Some(if selected < maxSelectedId - 1 then selected + 1 else selected)
      case Some('k') => Some(if selected > 0 then selected - 1 else selected)
      case Some('q') => None
      case None => None
      case Some(_) => Some(selected);
    if step.Some? {
      Shift(shown, selected, Run(step.value, maxSelectedId, events, after));
    }
  }

  /** One redraw appended to the output. */
  method Redraw(lines: seq<string>, selected: nat, out: seq<Command>, ghost shown: seq<nat>) returns (out': seq<Command>)
    requires out == Frames(lines, shown)
    ensures out' == Frames(lines, shown + [selected])
  {
    var frame := DrawFrame(lines, selected);
    FramesSnoc(lines, shown, selected);
    out' := out + frame;
  }

  /**
   * `draw_loop`: redraw, wait for a key, move the selection, until `q` or
   * Ctrl-C. `shown` lists the selection of every redraw and `out` everything
   * queued; `used` is the number of events consumed, the last of them the
   * quitting key.
   */
  method DrawLoop(lines: seq<string>, events: seq<Event>) returns (out: seq<Command>, shown: seq<nat>, used: nat)
    requires 2 <= |lines| <= 65535
    requires Quits(events, 0)
    ensures 0 < used <= |events| && CharPress(events[used - 1])
    ensures KeyResult(events[used - 1]) == None || KeyResult(events[used - 1]) == Some('q')
    ensures shown == Run(0, MaxSelectedId(lines), events, 0)
    ensures out == Frames(lines, shown)
  {
    var selected: nat := 0;
    var maxSelectedId := MaxSelectedId(lines);
    ghost var target := Run(0, maxSelectedId, events, 0);
    out, shown, used := [], [], 0;
    while true
      invariant used <= |events| && selected <= maxSelectedId - 1
      invariant Quits(events, used)
      invariant shown + Run(selected, maxSelectedId, events, used) == target
      invariant out == Frames(lines, shown)
      decreases |events| - used
    {
      out := Redraw(lines, selected, out, shown);
      var step, after := Turn(events, used, selected, maxSelectedId, shown, target);
      shown := shown + [selected];
      used := after;
      if step.None? {
        return;
      }
      selected := step.value;
    }
  }
}
