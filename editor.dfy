/**
 * The editor state `EditorConfig` and the operations that update it in place: loading rows, moving
 * the cursor, scrolling the viewport, drawing a frame and handling one keypress.
 */
module Editor {
  import opened Bytes
  import opened Wrappers
  import opened Keys
  import opened Screen
  import opened Render

  /** The cursor: column `x`, buffer row `y`. */
  datatype Pos = Pos(x: u16, y: u16)

  /** The `u16` arithmetic of `move_cursor` stays in range for `key`. */
  predicate MoveFits(key: EditorKey, p: Pos, screenRows: u16, screenCols: u16) {
    && (key == Right ==> p.x < U16_MAX)
    && (key == PageDown ==> 1 <= screenRows)
    && (key == End ==> 1 <= screenCols)
  }

  /**
   * The cursor after `move_cursor`: Left and Up stop at 0, Down stops at the line just past the
   * buffer, Right is unbounded; PageUp/PageDown and Home/End jump to the screen's edges.
   */
  function Moved(key: EditorKey, p: Pos, numRows: u16, screenRows: u16, screenCols: u16): (q: Pos)
    requires MoveFits(key, p, screenRows, screenCols)
    ensures (key == Left || key == Right || key == Home || key == End) ==> q.y == p.y
    ensures (key == Up || key == Down || key == PageUp || key == PageDown || key == Delete) ==> q.x == p.x
    ensures key == Delete ==> q == p
    ensures key == Left ==> (p.x == 0 && q.x == 0) || q.x + 1 == p.x
    ensures key == Right ==> q.x == p.x + 1
    ensures key == Up ==> (p.y == 0 && q.y == 0) || q.y + 1 == p.y
    ensures key == Down ==> q.y == if p.y < numRows then p.y + 1 else p.y
    ensures key == PageUp ==> q.y == 0
    ensures key == PageDown ==> q.y as int == screenRows as int - 1
    ensures key == Home ==> q.x == 0
    ensures key == End ==> q.x as int == screenCols as int - 1
    ensures key != PageDown && p.y <= numRows ==> q.y <= numRows
  {
    match key
    case Left => if p.x > 0 then p.(x := p.x - 1) else p
    case Right => p.(x := p.x + 1)
    case Up => if p.y > 0 then p.(y := p.y - 1) else p
    case Down => if p.y < numRows then p.(y := p.y + 1) else p
    case PageUp => p.(y := 0)
    case PageDown => p.(y := screenRows - 1)
    case Home => p.(x := 0)
    case End => p.(x := screenCols - 1)
    case Delete => p
  }

  /**
   * PageDown is the one move that can leave `cursor_y <= num_rows`: on an empty buffer and a
   * 24-row screen it puts the cursor on row 23. `process_keypress` never performs it, because
   * `try_from` rejects the PageDown code.
   */
  lemma PageDownPastBuffer(p: Pos)
    ensures Moved(PageDown, p, 0, 24, 80).y == 23 > 0
    ensures Dispatch(PageDown.Code()) == Ignore
  {
  }

  /** Left undoes Right, and Up undoes a Down that moved. */
  lemma MovesUndo(p: Pos, numRows: u16, screenRows: u16, screenCols: u16)
    ensures p.x < U16_MAX ==>
              Moved(Left, Moved(Right, p, numRows, screenRows, screenCols), numRows, screenRows, screenCols) == p
    ensures p.y < numRows ==>
              Moved(Up, Moved(Down, p, numRows, screenRows, screenCols), numRows, screenRows, screenCols) == p
  {
  }

  /**
   * The `u16` arithmetic of one axis of `scroll_screen` stays in range: `offset + size` after the
   * scroll-back step, and `cursor - size + 1` when `size` is 0.
   */
  predicate ScrollFits(cursor: u16, offset: u16, size: u16) {
    Min(cursor, offset) + size <= U16_MAX && (size == 0 ==> cursor < U16_MAX)
  }

  /**
   * The offset one axis of `scroll_screen` chooses: the smallest move of the window
   * [offset, offset + size) that brings `cursor` into it.
   */
  function ScrollAxis(cursor: u16, offset: u16, size: u16): (r: u16)
    requires ScrollFits(cursor, offset, size)
    ensures 1 <= size ==> r <= cursor < r + size
    ensures 1 <= size ==> r + size <= U16_MAX + 1
    ensures offset <= cursor < offset + size ==> r == offset
    ensures 1 <= size && cursor < offset ==> r == cursor
    ensures 1 <= size && offset + size <= cursor ==> r + size - 1 == cursor
  {
    var top := if cursor < offset then cursor else offset;
    if cursor >= top + size then cursor - size + 1 else top
  }

  /** Scrolling again with an unchanged cursor changes nothing. */
  lemma ScrollIdempotent(cursor: u16, offset: u16, size: u16)
    requires ScrollFits(cursor, offset, size)
    requires ScrollFits(cursor, ScrollAxis(cursor, offset, size), size)
    ensures ScrollAxis(cursor, ScrollAxis(cursor, offset, size), size) == ScrollAxis(cursor, offset, size)
  {
  }

  /** The welcome-banner branch of `editor_draw_rows` for a screen `cols` wide. */
  method AppendBanner(sb: ScreenBuffer, cols: u16)
    modifies sb
    ensures sb.toPrint == old(sb.toPrint) + Banner(cols)
  {
    var welcome := WELCOME;
    if |welcome| > cols as int {
      sb.Append(welcome[..cols]);
    } else {
      var padding := (cols - |welcome|) / 2;
      ghost var start := sb.toPrint;
      if padding > 0 {
        sb.Append(TILDE);
        padding := padding - 1;
        sb.Append(Spaces(padding));
        AppendAssoc(start, TILDE, Spaces(padding));
        ghost var lead := TILDE + Spaces(padding);
        sb.Append(welcome);
        AppendAssoc(start, lead, welcome);
        assert Banner(cols) == lead + welcome;
      } else {
        sb.Append(welcome);
        assert Banner(cols) == welcome;
      }
    }
  }

  /** `EditorConfig` without the saved termios. */
  class EditorConfig {
    var screenRows: u16
    var screenCols: u16
    var cursorX: u16
    var cursorY: u16
    var numRows: u16
    var rows: seq<Erow>
    var rowOffset: u16
    var colOffset: u16

    /** Everything but the cursor. */
    ghost function Snapshot(): View
      reads this
    {
      View(screenRows, screenCols, rowOffset, colOffset, numRows, rows)
    }

    /** `num_rows` counts the rows, and each row's `size` is its byte length as `u16`. */
    ghost predicate Valid()
      reads this
    {
      Snapshot().WellFormed()
    }

    /** `init_editor`, with the window size the terminal reported. */
    constructor (screenRows: u16, screenCols: u16)
      ensures Valid()
      ensures this.screenRows == screenRows && this.screenCols == screenCols
      ensures cursorX == 0 && cursorY == 0 && rowOffset == 0 && colOffset == 0
      ensures numRows == 0 && rows == []
    {
      this.screenRows := screenRows;
      this.screenCols := screenCols;
      cursorX := 0;
      cursorY := 0;
      numRows := 0;
      rows := [];
      rowOffset := 0;
      colOffset := 0;
    }

    /** The row-push loop of `editor_open`, over the lines of the file. */
    method Open(lines: seq<seq<byte>>)
      requires Valid()
      requires numRows as int + |lines| <= U16_MAX
      modifies this`rows, this`numRows
      ensures Valid()
      ensures numRows == old(numRows) + |lines|
      ensures rows == old(rows) + seq(|lines|, i requires 0 <= i < |lines| => LoadRow(lines[i]))
      ensures forall i | 0 <= i < |lines| :: |lines[i]| <= U16_MAX ==> rows[old(numRows) + i].size == |lines[i]|
    {
      for i := 0 to |lines|
        invariant numRows == old(numRows) + i
        invariant rows == old(rows) + seq(i, j requires 0 <= j < i => LoadRow(lines[j]))
        invariant Valid()
      {
        var row := LoadRow(lines[i]);
        rows := rows + [row];
        numRows := numRows + 1;
      }
    }

    /** `move_cursor`. */
    method MoveCursor(key: EditorKey)
      requires MoveFits(key, Pos(cursorX, cursorY), screenRows, screenCols)
      modifies this`cursorX, this`cursorY
      ensures Pos(cursorX, cursorY) == Moved(key, old(Pos(cursorX, cursorY)), numRows, screenRows, screenCols)
    {
      match key {
        case Left =>
          if cursorX > 0 {
            cursorX := cursorX - 1;
          }
        case Right =>
          cursorX := cursorX + 1;
        case Up =>
          if cursorY > 0 {
            cursorY := cursorY - 1;
          }
        case Down =>
          if cursorY < numRows {
            cursorY := cursorY + 1;
          }
        case PageUp =>
          cursorY := 0;
        case PageDown =>
          cursorY := screenRows - 1;
        case Home =>
          cursorX := 0;
        case End =>
          cursorX := screenCols - 1;
        case Delete =>
      }
    }

    /** `scroll_screen`: moves the offsets, never the cursor. */
    method ScrollScreen()
      requires ScrollFits(cursorY, rowOffset, screenRows) && ScrollFits(cursorX, colOffset, screenCols)
      modifies this`rowOffset, this`colOffset
      ensures rowOffset == ScrollAxis(cursorY, old(rowOffset), screenRows)
      ensures colOffset == ScrollAxis(cursorX, old(colOffset), screenCols)
      ensures 1 <= screenRows ==> rowOffset <= cursorY < rowOffset + screenRows
      ensures 1 <= screenCols ==> colOffset <= cursorX < colOffset + screenCols
    {
      if cursorY < rowOffset {
        rowOffset := cursorY;
      }
      var bottom: u16 := rowOffset + screenRows;
      if cursorY >= bottom {
        rowOffset := cursorY - screenRows + 1;
      }
      if cursorX < colOffset {
        colOffset := cursorX;
      }
      var right: u16 := colOffset + screenCols;
      if cursorX >= right {
        colOffset := cursorX - screenCols + 1;
      }
    }

    /** `editor_draw_rows`: appends the `screenRows` rows of the current view. */
    method DrawRows(sb: ScreenBuffer)
      requires Valid()
      requires rowOffset + screenRows <= U16_MAX + 1
      requires SlicesOnCharBoundaries(Snapshot())
      modifies sb
      ensures sb.toPrint == old(sb.toPrint) + DrawnRows(Snapshot(), screenRows)
    {
      ghost var v := Snapshot();
      for y := 0 to screenRows
        invariant sb.toPrint == old(sb.toPrint) + DrawnRows(v, y)
      {
        ghost var before := sb.toPrint;
        var fileRow: u16 := y + rowOffset;
        if fileRow >= numRows {
          if numRows == 0 && y == screenRows / 3 {
            AppendBanner(sb, screenCols);
          } else {
            sb.Append(TILDE);
          }
        } else {
          var row := rows[fileRow];
          LoadedSize(row);
          var len := if row.size > colOffset then row.size - colOffset else 0;
          if len > 0 {
            sb.Append(StrFrom(row.chars, colOffset));
          } else {
            sb.Append([]);
          }
        }
        ghost var text := RowText(v, y);
        assert sb.toPrint == before + text;
        sb.Append(CLEAR_LINE);
        ghost var tail: seq<byte> := [];
        if y < screenRows - 1 {
          sb.Append(CRLF);
          tail := CRLF;
        }
        assert sb.toPrint == ((before + text) + CLEAR_LINE) + tail;
        AppendAssoc(before, text, CLEAR_LINE);
        AppendAssoc(before, text + CLEAR_LINE, tail);
        assert RowLine(v, y) == (text + CLEAR_LINE) + tail;
        AppendAssoc(old(sb.toPrint), DrawnRows(v, y), RowLine(v, y));
      }
    }

    /**
     * `editor_refresh_screen`: scrolls, then appends one frame whose final CUP puts the cursor on
     * the screen (stdout is flushed by the caller's I/O).
     */
    method RefreshScreen(sb: ScreenBuffer)
      requires Valid()
      requires 1 <= screenRows && 1 <= screenCols
      requires ScrollFits(cursorY, rowOffset, screenRows) && ScrollFits(cursorX, colOffset, screenCols)
      requires SlicesOnCharBoundaries(Snapshot().(rowOffset := ScrollAxis(cursorY, rowOffset, screenRows),
                                                  colOffset := ScrollAxis(cursorX, colOffset, screenCols)))
      modifies this`rowOffset, this`colOffset, sb
      ensures Valid()
      ensures rowOffset == ScrollAxis(cursorY, old(rowOffset), screenRows)
      ensures colOffset == ScrollAxis(cursorX, old(colOffset), screenCols)
      ensures 1 <= cursorY - rowOffset + 1 <= screenRows && 1 <= cursorX - colOffset + 1 <= screenCols
      ensures sb.toPrint == old(sb.toPrint) + Frame(Snapshot(), cursorX, cursorY)
    {
      ScrollScreen();
      ghost var start := sb.toPrint;
      assert start == old(sb.toPrint);
      ghost var v := Snapshot();
      ghost var cx, cy := cursorX, cursorY;
      var row: u16 := (cursorY - rowOffset) + 1;
      var col: u16 := (cursorX - colOffset) + 1;
      ghost var home := HIDE_CURSOR + CursorPosition(1, 1);
      ghost var drawn := home + DrawnRows(v, v.screenRows);
      ghost var placed := drawn + CursorPosition(row, col);
      assert Frame(v, cx, cy) == placed + SHOW_CURSOR;
      ToggleCursor(sb, false);
      SetCursorPosition(sb, 1, 1);
      AppendAssoc(start, HIDE_CURSOR, CursorPosition(1, 1));
      DrawRows(sb);
      AppendAssoc(start, home, DrawnRows(v, v.screenRows));
      assert Snapshot() == v && cursorX == cx && cursorY == cy;
      SetCursorPosition(sb, row, col);
      AppendAssoc(start, drawn, CursorPosition(row, col));
      ToggleCursor(sb, true);
      AppendAssoc(start, placed, SHOW_CURSOR);
      assert Snapshot() == v && cursorX == cx && cursorY == cy;
    }

    /**
     * `process_keypress` on the bytes `input` delivers. Returns whether the editor quits (the
     * screen clearing, terminal restore and exit are I/O) and how many bytes were read.
     */
    method ProcessKeypress(input: seq<byte>) returns (quit: bool, consumed: nat)
      requires Dispatch(ReadKey(input).key) == Move(Right) ==> cursorX < U16_MAX
      modifies this`cursorX, this`cursorY
      ensures consumed == ReadKey(input).consumed
      ensures quit <==> ReadKey(input).key == CtrlKey('q')
      ensures Pos(cursorX, cursorY) == match Dispatch(ReadKey(input).key)
                                         case Move(k) => Moved(k, old(Pos(cursorX, cursorY)), numRows, screenRows, screenCols)
                                         case _ => old(Pos(cursorX, cursorY))
      ensures old(cursorY) <= numRows ==> cursorY <= numRows
    {
      var r := ReadKey(input);
      var c := r.key;
      consumed := r.consumed;
      if IsCntrl(c) && c == CtrlKey('q') {
        return true, consumed;
      }
      quit := false;
      if c == 0 {
        return;
      }
      var key := TryFrom(c);
      if key.Ok? {
        MoveCursor(key.value);
      }
    }
  }
}
