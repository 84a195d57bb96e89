/**
 * What `editor_draw_rows` and `editor_refresh_screen` put into the screen buffer, as functions of a
 * snapshot of the editor state: one text per screen row, the rows joined into a frame, and the
 * welcome banner shown on an empty buffer.
 */
module Render {
  import opened Bytes
  import opened Screen

  const VERSION: string := "0.0.1"
  /** `format!("Teditor -- version {}", VERSION)`. */
  const WELCOME: seq<byte> := Ascii("Teditor -- version ") + Ascii(VERSION)
  const TILDE: seq<byte> := ['~' as int]
  const CRLF: seq<byte> := [13, 10]

  /** `" ".repeat(n)`. */
  function Spaces(n: nat): seq<byte> {
    seq(n, _ => ' ' as int)
  }

  /** A loaded line: its bytes and `size`, the byte length cast with `as u16`. */
  datatype Erow = Erow(size: u16, chars: seq<byte>) {
    predicate Loaded() {
      size == |chars| % 0x1_0000
    }
  }

  /** The truncated length never exceeds the real one. */
  lemma LoadedSize(e: Erow)
    requires e.Loaded()
    ensures e.size <= |e.chars|
  {
  }

  /** The row `editor_open` builds from one line of the file. */
  function LoadRow(line: seq<byte>): (r: Erow)
    ensures r.Loaded() && r.chars == line
    ensures |line| <= U16_MAX ==> r.size == |line|
  {
    Erow(|line| % 0x1_0000, line)
  }

  /** The fields of `EditorConfig` that drawing reads. */
  datatype View = View(screenRows: u16, screenCols: u16, rowOffset: u16, colOffset: u16,
                       numRows: u16, rows: seq<Erow>)
  {
    predicate WellFormed() {
      numRows as int == |rows| && forall i | 0 <= i < |rows| :: rows[i].Loaded()
    }
  }

  /** Rust's `str::is_char_boundary` on the UTF-8 bytes `s`. */
  predicate IsCharBoundary(s: seq<byte>, i: nat) {
    i == 0 || i == |s| || (i < |s| && (s[i] < 0x80 || 0xC0 <= s[i]))
  }

  /** `&s[i..]` on a `str`, which panics unless `i` is a character boundary. */
  function StrFrom(s: seq<byte>, i: nat): seq<byte>
    requires i <= |s| && IsCharBoundary(s, i)
  {
    s[i..]
  }

  /** Every visible line that is sliced at `colOffset` is sliced on a character boundary. */
  predicate SlicesOnCharBoundaries(v: View) {
    forall f | v.rowOffset <= f < v.rowOffset + v.screenRows && f < |v.rows|
                && v.colOffset < v.rows[f].size :: IsCharBoundary(v.rows[f].chars, v.colOffset)
  }

  /**
   * The welcome banner for a screen `cols` wide: cut to the width when it does not fit, otherwise
   * a `~`, `padding - 1` spaces and the banner, `padding` being half the free width.
   */
  function Banner(cols: nat): seq<byte> {
    if |WELCOME| > cols then WELCOME[..cols]
    else
      var padding := (cols - |WELCOME|) / 2;
      if padding > 0 then TILDE + Spaces(padding - 1) + WELCOME else WELCOME
  }

  /**
   * The banner is never wider than the screen; cut to the width when it does not fit, otherwise
   * centred (the free space to its right is the space to its left or one more), led by a `~` and
   * spaces when there is room for them.
   */
  lemma BannerCentred(cols: nat)
    ensures |Banner(cols)| <= cols
    ensures cols < |WELCOME| ==> Banner(cols) == WELCOME[..cols]
    ensures |WELCOME| <= cols ==>
              var r := Banner(cols);
              && |WELCOME| <= |r| && r[|r| - |WELCOME|..] == WELCOME
              && |r| - |WELCOME| <= cols - |r| <= |r| - |WELCOME| + 1
    ensures |WELCOME| + 2 <= cols ==>
              var r := Banner(cols);
              r[0] == '~' as int && forall i | 1 <= i < |r| - |WELCOME| :: r[i] == ' ' as int
  {
    var r := Banner(cols);
    if |WELCOME| <= cols && (cols - |WELCOME|) / 2 > 0 {
      var padding := (cols - |WELCOME|) / 2;
      assert r == TILDE + Spaces(padding - 1) + WELCOME;
      assert r[|r| - |WELCOME|..] == WELCOME;
    }
  }

  /**
   * The text of screen row `y` (before the erase-line): the buffer line `y + rowOffset` from byte
   * `colOffset` on, or a `~` past the end of the buffer, or the banner on row `screenRows / 3` of
   * an empty buffer.
   */
  function RowText(v: View, y: nat): seq<byte>
    requires v.WellFormed()
  {
    var fileRow := y + v.rowOffset;
    if fileRow >= v.numRows as int then
      if v.numRows == 0 && y == v.screenRows / 3 then Banner(v.screenCols) else TILDE
    else
      var row := v.rows[fileRow];
      // `size.saturating_sub(col_offset) > 0`
      if row.size > v.colOffset then row.chars[v.colOffset..] else []
  }

  /**
   * What a screen row shows: past the buffer a `~`, except the banner on row `screenRows / 3` of
   * an empty buffer; on a buffer line a suffix of it starting at `colOffset`, or nothing, and for
   * a line of fewer than 65536 bytes exactly the bytes from `colOffset` on (nothing when the line
   * is not longer). Content is not cut to the screen width.
   */
  lemma RowTextShows(v: View, y: nat)
    requires v.WellFormed()
    ensures v.numRows <= y + v.rowOffset && (v.numRows != 0 || y != v.screenRows / 3) ==>
              RowText(v, y) == TILDE
    ensures v.numRows == 0 && y == v.screenRows / 3 ==> RowText(v, y) == Banner(v.screenCols)
    ensures y + v.rowOffset < v.numRows ==>
              var line := v.rows[y + v.rowOffset].chars;
              RowText(v, y) == [] || (v.colOffset < |line| && RowText(v, y) == line[v.colOffset..])
    ensures y + v.rowOffset < v.numRows && |v.rows[y + v.rowOffset].chars| <= U16_MAX ==>
              var line := v.rows[y + v.rowOffset].chars;
              RowText(v, y) == line[Min(v.colOffset, |line|)..]
  {
  }

  /** Row `y` as appended: its text, erase-line, and a line break unless it is the last row. */
  function RowLine(v: View, y: nat): seq<byte>
    requires v.WellFormed()
  {
    RowText(v, y) + CLEAR_LINE + (if y + 1 < v.screenRows as int then CRLF else [])
  }

  /** What the drawing loop has appended after its first `n` rows. */
  function DrawnRows(v: View, n: nat): seq<byte>
    requires v.WellFormed()
  {
    if n == 0 then [] else DrawnRows(v, n - 1) + RowLine(v, n - 1)
  }

  /** The screen lines, each its text followed by erase-line. */
  function ScreenLines(v: View): (ls: seq<seq<byte>>)
    requires v.WellFormed()
  {
    seq(v.screenRows, y requires 0 <= y < v.screenRows as int && v.WellFormed() =>
      RowText(v, y) + CLEAR_LINE)
  }

  /** `lines` separated by CR LF, with none after the last. */
  function JoinCrlf(lines: seq<seq<byte>>): seq<byte> {
    if |lines| == 0 then []
    else if |lines| == 1 then lines[0]
    else JoinCrlf(lines[..|lines| - 1]) + CRLF + lines[|lines| - 1]
  }

  lemma {:induction false} DrawnPrefix(v: View, n: nat)
    requires v.WellFormed() && 1 <= n <= v.screenRows as int
    ensures DrawnRows(v, n) == JoinCrlf(ScreenLines(v)[..n]) + (if n < v.screenRows as int then CRLF else [])
  {
    var ls := ScreenLines(v);
    if n == 1 {
      assert ls[..1] == [ls[0]];
    } else {
      DrawnPrefix(v, n - 1);
      var shown := ls[..n];
      assert shown[..n - 1] == ls[..n - 1];
      assert shown[n - 1] == ls[n - 1];
      var before := JoinCrlf(ls[..n - 1]) + CRLF;
      var after: seq<byte> := if n < v.screenRows as int then CRLF else [];
      assert JoinCrlf(shown) == before + ls[n - 1];
      assert RowLine(v, n - 1) == ls[n - 1] + after;
      AppendAssoc(before, ls[n - 1], after);
    }
  }

  /**
   * The drawn rows are exactly `screenRows` screen lines, each ending in erase-line, separated by
   * CR LF with none after the last.
   */
  lemma DrawnRowsLayout(v: View)
    requires v.WellFormed()
    ensures |ScreenLines(v)| == v.screenRows as int
    ensures DrawnRows(v, v.screenRows) == JoinCrlf(ScreenLines(v))
  {
    var ls := ScreenLines(v);
    if v.screenRows > 0 {
      DrawnPrefix(v, v.screenRows);
      assert ls[..v.screenRows] == ls;
    }
  }

  /**
   * A buffer of three lines on a screen taller than three rows, scrolled to the top: three content
   * rows, then placeholders.
   */
  lemma ShortBufferRows(v: View, y: nat)
    requires v.WellFormed() && v.numRows == 3 && v.rowOffset == 0 && v.colOffset == 0
    requires forall i | 0 <= i < 3 :: |v.rows[i].chars| <= U16_MAX
    requires y < v.screenRows as int
    ensures y < 3 ==> RowText(v, y) == v.rows[y].chars
    ensures 3 <= y ==> RowText(v, y) == TILDE
  {
  }

  /** An empty buffer on a 24-row screen shows the banner on row 8 and `~` on every other row. */
  lemma EmptyBufferBanner(v: View, y: nat)
    requires v.WellFormed() && v.numRows == 0 && v.screenRows == 24
    ensures RowText(v, y) == if y == 8 then Banner(v.screenCols) else TILDE
  {
  }

  /**
   * A line of 65536 bytes has `size` 0 after the `as u16` cast, so it is drawn as an empty row
   * although it is not empty.
   */
  lemma LongLineHidden(v: View)
    requires v.WellFormed() && 1 <= v.numRows && v.rowOffset == 0
    requires |v.rows[0].chars| == 0x1_0000
    ensures RowText(v, 0) == []
  {
  }

  /**
   * The frame `editor_refresh_screen` appends: hide the cursor, home it, the rows, place the cursor
   * at its 1-based screen position, show the cursor.
   */
  function Frame(v: View, cursorX: u16, cursorY: u16): seq<byte>
    requires v.WellFormed()
    requires v.rowOffset <= cursorY && v.colOffset <= cursorX
  {
    HIDE_CURSOR + CursorPosition(1, 1) + DrawnRows(v, v.screenRows)
    + CursorPosition(cursorY - v.rowOffset + 1, cursorX - v.colOffset + 1) + SHOW_CURSOR
  }
}
