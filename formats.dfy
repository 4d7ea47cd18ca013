/**
 * The glyph and colour tables of the renderer and the menu. Terminal escape
 * sequences are opaque tokens (`Style`); what they do to a terminal is not
 * modelled, only where they are emitted.
 */
module Formats {
  import opened Bytes

  datatype Color = Red | Green | Yellow | White | Magenta | Blue | Cyan | DarkGrey

  /** crossterm commands, kept opaque. */
  datatype Style =
    | Fg(color: Color)        // SetForegroundColor
    | Bold                    // SetAttribute(Bold)
    | NoBold                  // SetAttribute(NormalIntensity)
    | ResetAttributes         // SetAttribute(Reset)
    | ResetColor              // ResetColor

  /** `dir_name` and `file_name` return styled content; which style they use is opaque. */
  datatype NameKind = DirName | FileName

  /** One write to the output: a `&str`, lossily decoded bytes, an escape, or styled text. */
  datatype Piece = Str(text: string) | Raw(bytes: seq<byte>) | Esc(style: Style) | Named(kind: NameKind, name: string)

  const MENU_SELECTED: Color := DarkGrey

  const RESET: Style := ResetAttributes
  const RESET_COLOR: Style := ResetColor
  const NO_BOLD: Style := NoBold
  const BOLD: Style := Bold
  const RED_FG: Style := Fg(Red)
  const GREEN_FG: Style := Fg(Green)
  const LINE_NUMBER_FG: Style := Fg(Yellow)
  const DEFAULT_FG: Style := Fg(White)
  const MAGENTA_FG: Style := Fg(Magenta)

  const NEW_LINE: string := "\n"

  /** NEW_LINE_RETURN is chosen at build time; `windows` stands for `cfg(windows)`. */
  function NewLineReturn(windows: bool): string {
    if windows then "\r\n " else "\n\r "
  }

  const BRANCH_HAS_NEXT: string := "├──"
  const BRANCH_END: string := "└──"
  const VER_LINE_SPACER: string := "│  "
  const SPACER: string := "   "

  const MATCHED_COLORS: seq<Style> := [GREEN_FG, MAGENTA_FG, RED_FG]

  /** The characters of the plain text a sequence of pieces shows, escapes removed. */
  function PlainText(ps: seq<Piece>): string {
    if ps == [] then ""
    else
      var head := match ps[0]
        case Str(t) => t
        case Named(_, n) => n
        case _ => "";
      head + PlainText(ps[1..])
  }

  function CountChar(s: string, c: char): nat {
    if s == [] then 0 else (if s[0] == c then 1 else 0) + CountChar(s[1..], c)
  }

  /** The line terminator: a plain newline, or in the menu a reset, a newline with carriage
      return and one column of indent, and the default foreground. Either way it ends
      exactly one row. */
  function GetTerminator(isMenu: bool, windows: bool): (r: seq<Piece>)
    ensures CountChar(PlainText(r), '\n') == 1
    ensures !isMenu ==> PlainText(r) == NEW_LINE && forall k :: 0 <= k < |r| ==> r[k].Str?
    ensures isMenu ==> r[0] == Esc(RESET) && r[|r| - 1] == Esc(DEFAULT_FG)
  {
    if isMenu then
      var r := [Esc(RESET), Str(NewLineReturn(windows)), Esc(DEFAULT_FG)];
      assert PlainText(r) == NewLineReturn(windows) by {
        assert PlainText(r[2..]) == "";
        assert PlainText(r[1..]) == NewLineReturn(windows) + PlainText(r[2..]);
      }
      var t := NewLineReturn(windows);
      assert CountChar(t[2..], '\n') == 0;
      r
    else [Str(NEW_LINE)]
  }

  /** The style reset written after a highlighted run. Both variants end boldness; the menu's
      restores the default foreground instead of resetting the colour, so that the
      selected row's styling survives. */
  function GetReset(isMenu: bool): (r: seq<Style>)
    ensures |r| == 2 && r[1] == NO_BOLD
    ensures isMenu <==> DEFAULT_FG in r
    ensures !isMenu <==> RESET_COLOR in r
  {
    if isMenu then [DEFAULT_FG, NO_BOLD] else [RESET_COLOR, NO_BOLD]
  }

  /** The highlight colour of pattern `i`: one of the three match colours, never the
      line-number or default foreground. */
  function GetColor(i: nat): (r: Style)
    ensures r in MATCHED_COLORS
    ensures r.Fg? && r != LINE_NUMBER_FG && r != DEFAULT_FG
    ensures i % 3 == 0 ==> r == GREEN_FG
    ensures i % 3 == 1 ==> r == MAGENTA_FG
    ensures i % 3 == 2 ==> r == RED_FG
  {
    MATCHED_COLORS[i % |MATCHED_COLORS|]
  }

  /** Colours cycle with period three, and neighbouring pattern ids never share one. */
  lemma ColorCycle(i: nat)
    ensures GetColor(i + 3) == GetColor(i)
    ensures GetColor(i + 1) != GetColor(i)
  {
  }

  /** Every branch glyph and spacer is three characters wide, so each prefix column lines up. */
  lemma GlyphsUniform()
    ensures |BRANCH_HAS_NEXT| == |BRANCH_END| == |VER_LINE_SPACER| == |SPACER| == 3
  {
  }
}
