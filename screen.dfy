/**
 * The output side: the escape sequences the editor emits, the append-only `ScreenBuffer` a frame is
 * assembled in, and the cursor helpers `toggle_cursor` and `set_cursor_position` (buffer branch).
 */
module Screen {
  import opened Bytes

  /** EL, erase to the end of the line (ECMA-48 section 8.3.41). */
  const CLEAR_LINE: seq<byte> := [ESC, '[' as int, 'K' as int]
  const HIDE_CURSOR: seq<byte> := [ESC, '[' as int, '?' as int, '2' as int, '5' as int, 'l' as int]
  const SHOW_CURSOR: seq<byte> := [ESC, '[' as int, '?' as int, '2' as int, '5' as int, 'h' as int]

  /**
   * `ESC [ row ; col <final>` with decimal parameters: with final byte 'H' this is CUP, cursor
   * position (ECMA-48 section 8.3.21); with 'R' it is the CPR report a terminal answers with
   * (section 8.3.14).
   */
  function PositionSequence(row: nat, col: nat, final: byte): seq<byte> {
    [ESC, '[' as int] + Decimal(row) + [';' as int] + Decimal(col) + [final]
  }

  function CursorPosition(row: nat, col: nat): seq<byte> {
    PositionSequence(row, col, 'H' as int)
  }

  /** The frame under construction; `flush` hands it to the terminal and starts over. */
  class ScreenBuffer {
    var toPrint: seq<byte>

    constructor ()
      ensures toPrint == []
    {
      toPrint := [];
    }

    method Append(s: seq<byte>)
      modifies this
      ensures toPrint == old(toPrint) + s
    {
      toPrint := toPrint + s;
    }

    /** Returns what is written to the terminal, and empties the buffer. */
    method Flush() returns (written: seq<byte>)
      modifies this
      ensures written == old(toPrint) && toPrint == []
    {
      written := toPrint;
      toPrint := [];
    }
  }

  method ToggleCursor(sb: ScreenBuffer, show: bool)
    modifies sb
    ensures sb.toPrint == old(sb.toPrint) + (if show then SHOW_CURSOR else HIDE_CURSOR)
  {
    if show {
      sb.Append(SHOW_CURSOR);
    } else {
      sb.Append(HIDE_CURSOR);
    }
  }

  /** `set_cursor_position` with a buffer: appends CUP for the 1-based `row` and `col`. */
  method SetCursorPosition(sb: ScreenBuffer, row: u16, col: u16)
    modifies sb
    ensures sb.toPrint == old(sb.toPrint) + CursorPosition(row, col)
  {
    sb.Append(CursorPosition(row, col));
  }
}
