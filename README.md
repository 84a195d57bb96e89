# teditor core, modelled in Dafny

teditor is a small kilo-style terminal viewer written in Rust (one file, `src/main.rs`). It puts
the terminal in raw mode, loads a file into rows, and loops: redraw the screen into a buffer, read
and act on one keypress, flush the buffer to stdout. This project models the deterministic core
around that terminal I/O and proves what it does.

- `bytes.dfy` (`Bytes`): the `u8`/`u16`/`u32` integer types as bounded subset types of `int`,
  the decimal formatting used by `format!("{}")`, and the left-to-right decimal scan that inverts it.
- `keys.dfy` (`Keys`): `read_key` as a function over the byte stream `read_input` would return
  (a byte past the end is 0, the value a timed-out read leaves), `ctrl_key`, `is_cntrl`,
  `EditorKey` with its discriminants, `EditorKey::try_from`, and the decision `process_keypress`
  takes (quit, ignore, or move).
- `screen.dfy` (`Screen`): the append-only `ScreenBuffer` as a class with its `to_print` field,
  the control sequences (ECMA-48 CUP, section 8.3.21; EL, section 8.3.41;
  the DEC private cursor show/hide modes), `toggle_cursor` and the buffer branch of
  `set_cursor_position`.
- `cursor_reply.dfy` (`CursorReply`): the byte scan of `get_cursor_position` over its 16-byte,
  zero-initialised buffer, parsing the ECMA-48 CPR reply `ESC [ row ; col R` (section 8.3.14) into
  `(col, row)`. The two `while` loops are a method over an `array<byte>` proved equal to a
  recursive specification.
- `render.dfy` (`Render`): what `editor_draw_rows` and `editor_refresh_screen` append, as
  functions of a `View` (the fields drawing reads): the text of each screen row, the welcome
  banner, the rows joined with erase-line and CR LF, and the whole frame.
- `editor.dfy` (`Editor`): `EditorConfig` as a class whose `u16` fields the methods update in
  place: `init_editor`, the row-push loop of `editor_open`, `move_cursor`, `scroll_screen`,
  `editor_draw_rows`, `editor_refresh_screen` and `process_keypress`. Each method is proved against
  the pure function that specifies it (`Moved`, `ScrollAxis`, `DrawnRows`, `Frame`, `Dispatch`).

Integer widths follow the source. The fields are `u16`, so every `u16` addition, subtraction and
multiplication that Rust checks in a debug build appears as a precondition exactly where the
source would panic:
- `cursor_x += 1` needs `cursor_x < 65535`;
- `row_offset + screen_rows` in `scroll_screen` and `y + row_offset` in `editor_draw_rows` must fit;
- `screen_rows - 1` and `screen_cols - 1` in PageDown and End need a non-zero size;
- on a screen with 0 rows (or 0 columns), `scroll_screen` sets `row_offset = cursor_y + 1`, so
  `cursor_y - row_offset` in `editor_refresh_screen` underflows; refreshing needs a non-empty
  screen;
- in the reply parse, `buf[i] as u16 - 48` on a byte below `'0'` and `row * 10 + d` above 65535
  are excluded by `ReplySafe`.

`line.len() as u16` wraps: a row's `size` is its byte length modulo 65536, which is modelled, and
`LongLineHidden` shows its effect. Slicing a line at `col_offset` panics unless that is a UTF-8
character boundary, which `SlicesOnCharBoundaries` requires.

Three behaviours of the code that a reader might not expect are modelled as written:
- content rows are not cut to the screen width;
- an escape sequence that is not recognised yields 27, the ESC byte, not a later byte;
- PageUp, PageDown, Home, End and Delete are decoded, but `try_from` rejects them, so
  `process_keypress` never moves the cursor for them (`Dispatch`, `TryFromCodes`).

`move_cursor` keeps `cursor_y <= num_rows` for every key but PageDown, which sets `cursor_y` to
`screen_rows - 1` whatever the buffer holds (on an empty buffer and 24 rows, row 23). This is
unreachable from `process_keypress`, since `try_from` rejects the PageDown code
(`PageDownPastBuffer`).

## Model

| member | source | states |
|---|---|---|
| Bytes.Decimal | src/main.rs:232 | the `{}` formatting of a number: at least one ASCII digit, no leading zero (0 itself is the single digit `0`), and scanning the digits left to right (`acc * 10 + d`) gives back the number |
| Keys.EditorKey.Code | src/main.rs:33-44 | every key's `#[repr(u32)]` discriminant lies in 1000..1008 |
| Keys.CodeInjective | src/main.rs:33-44 | distinct keys have distinct codes |
| Keys.CtrlKey | src/main.rs:128-130 | `key & 0x1f` is a control code, and for a letter of either case it is the letter's position in the alphabet |
| Keys.IsCntrl | src/main.rs:132-134 | an ASCII control code (below 32); `CtrlKey` ensures every Ctrl chord is one, so the `is_cntrl` test before the Ctrl-Q comparison never changes the outcome (`Dispatch` quits exactly on 17) |
| Keys.QuitChord | src/main.rs:128-130 | Ctrl-q and Ctrl-Q are both code 17 |
| Keys.TryFrom | src/main.rs:49-68 | a code converts exactly when it is one of h/l/k/j/A/B/C/D or 1000..1003: h, D and 1000 give Left; l, C and 1001 Right; k, A and 1002 Up; j, B and 1003 Down; a rejection carries the code |
| Keys.TryFromCodes | src/main.rs:49-68 | the code of each of the four arrow keys converts back to that key; the five other keys' codes are rejected; an arrow's final letter typed alone converts to that arrow |
| Keys.ReadKey | src/main.rs:373-416 | one byte is read exactly when the first is not ESC, four exactly after `ESC [ 1-9`, otherwise three; a code below 256 is the first byte; a key code (1000..1008) only ever comes after ESC |
| Keys.DecodeComplete | src/main.rs:375-412 | each escape sequence of each key (`[A` `[B` `[C` `[D`, `[H` `[F` `OH` `OF`, `[1~`..`[8~`) decodes to that key's code and consumes exactly its own bytes, whatever follows |
| Keys.DecodeSound | src/main.rs:375-415 | whenever a key code is decoded, the bytes consumed are one of that key's escape sequences |
| Keys.TildeKey | src/main.rs:379-394 | a four-byte decode is `ESC [ d ~` for the key it names (1 and 7 Home, 3 Delete, 4 and 8 End, 5 PageUp, 6 PageDown) |
| Keys.LetterKey | src/main.rs:395-412 | a three-byte decode is `ESC [ A/B/C/D/H/F` or `ESC O H/F` for the key it names |
| Keys.Dispatch | src/main.rs:419-437 | quit exactly on code 17; move exactly on the codes `try_from` accepts, with the key it returns; code 0 does nothing |
| Screen.ScreenBuffer.constructor | src/main.rs:75-79 | a new buffer is empty |
| Screen.ScreenBuffer.Append | src/main.rs:81-83 | the bytes are added at the end |
| Screen.ScreenBuffer.Flush | src/main.rs:85-88 | the whole buffer is handed to the output and the buffer is left empty |
| Screen.ToggleCursor | src/main.rs:222-228 | appends `ESC [?25h` to show the cursor, `ESC [?25l` to hide it |
| Screen.SetCursorPosition | src/main.rs:230-235 | appends the CUP sequence `ESC [ row ; col H` with both numbers in decimal |
| CursorReply.Accumulate | src/main.rs:168-182 | one digit loop stops at the first stop byte or the buffer's end, and while every byte is a digit and no intermediate exceeds 65535 its result stays within `u16` |
| CursorReply.ParseReply | src/main.rs:157-184 | the reply is rejected exactly when it does not start with `ESC [`; otherwise the pair is (the digits after the `;`, the digits before it) |
| CursorReply.GetCursorPosition | src/main.rs:157-184 | the two `while` loops over the 16-byte buffer compute exactly `ParseReply` of its contents |
| CursorReply.ReplyRoundTrip | src/main.rs:157-184 | a terminal's report `ESC [ row ; col R` for any `u16` position fits in the buffer, starts with `ESC [`, never overflows the loops, and parses to `(col, row)` |
| CursorReply.ReplyExample | src/main.rs:157-184 | the reply `ESC [ 24 ; 80 R` parses to (80, 24) |
| CursorReply.CursorPositionDetermined | src/main.rs:232 | two cursor positions that format to the same CUP sequence are equal |
| Render.LoadRow | src/main.rs:211-216 | a loaded row keeps the line's bytes, its `size` is the byte length cast to `u16`, and equals the length when that fits |
| Render.Banner | src/main.rs:296-309 | the banner row; specified by `BannerCentred` and appended by `AppendBanner` |
| Render.BannerCentred | src/main.rs:295-309 | the banner row is never wider than the screen; too wide, it is the banner cut to the width; otherwise it ends with the banner, centred with the right gap equal to the left gap or one more, and led by `~` and spaces when there is room |
| Render.RowText | src/main.rs:293-322 | the text of one screen row; specified by `RowTextShows` |
| Render.RowTextShows | src/main.rs:293-322 | a screen row past the buffer shows `~` (or the banner on row `screen_rows / 3` of an empty buffer); a buffer row shows a suffix of that line starting at `col_offset`, or nothing; for a line of at most 65535 bytes exactly the bytes from `col_offset` on, nothing when the line is not longer than `col_offset` (longer lines wrap, see `LongLineHidden`) |
| Render.DrawnRows | src/main.rs:291-327 | what the draw loop has appended after its first rows; specified by `DrawnRowsLayout` and computed by `DrawRows` |
| Render.DrawnRowsLayout | src/main.rs:291-327 | the drawn rows are exactly `screen_rows` screen lines, each ending with erase-line, separated by CR LF and with none after the last |
| Render.Frame | src/main.rs:347-355 | the bytes one refresh appends: hide-cursor, CUP 1;1, the drawn rows, the cursor's CUP relative to the offsets, show-cursor; appended by `RefreshScreen` |
| Render.ShortBufferRows | src/main.rs:292-322 | a three-line buffer scrolled to the top shows its three lines, then `~` on every other row |
| Render.EmptyBufferBanner | src/main.rs:294-312 | an empty buffer on a 24-row screen shows the banner on row 8 and `~` on every other row |
| Render.LongLineHidden | src/main.rs:212-216 | a line of 65536 bytes gets `size` 0 from the `as u16` cast and is drawn empty |
| Editor.Moved | src/main.rs:237-271 | each key changes only its own coordinate; Left and Up stop at 0; Right adds exactly 1; Down adds 1 only below `num_rows`; PageUp and Home go to 0, PageDown to `screen_rows - 1`, End to `screen_cols - 1`; Delete changes nothing; every key but PageDown keeps `cursor_y <= num_rows` |
| Editor.PageDownPastBuffer | src/main.rs:260-262 | PageDown can break `cursor_y <= num_rows` (row 23 on an empty buffer and 24 rows), and `process_keypress` ignores the PageDown code |
| Editor.MovesUndo | src/main.rs:239-256 | Left undoes Right, and Up undoes a Down that moved |
| Editor.ScrollAxis | src/main.rs:330-343 | for a non-empty screen the chosen offset puts the cursor on the screen; it stays put when the cursor is already visible, moves back to the cursor when the cursor is above, and puts the cursor on the last line when it is below |
| Editor.ScrollIdempotent | src/main.rs:330-343 | scrolling a second time with the same cursor changes nothing |
| Editor.AppendBanner | src/main.rs:296-309 | the banner branch of the draw loop appends exactly the banner row |
| Editor.EditorConfig.constructor | src/main.rs:439-452 | a new editor has the given screen size, the cursor and both offsets at 0, and no rows |
| Editor.EditorConfig.Open | src/main.rs:211-219 | each line is pushed as a loaded row, `num_rows` grows by the number of lines and keeps counting the rows, and a row's `size` is its length when that fits in `u16` |
| Editor.EditorConfig.MoveCursor | src/main.rs:237-271 | the cursor becomes `Moved` of the old cursor, and nothing else changes |
| Editor.EditorConfig.ScrollScreen | src/main.rs:330-343 | both offsets become `ScrollAxis` of the old ones, the cursor is then on the screen, and the cursor is not touched |
| Editor.EditorConfig.DrawRows | src/main.rs:291-328 | the `for` loop appends exactly `DrawnRows`, the `screen_rows` screen lines of the current view |
| Editor.EditorConfig.RefreshScreen | src/main.rs:345-356 | scrolls, then appends hide-cursor, CUP 1;1, the rows, the CUP of the cursor relative to the offsets (row in 1..screen_rows, column in 1..screen_cols), and show-cursor |
| Editor.EditorConfig.ProcessKeypress | src/main.rs:419-437 | quits exactly on Ctrl-Q; otherwise the cursor moves by `Moved` exactly when `Dispatch` says move, and `cursor_y <= num_rows` is kept |

## Left out

- Raw mode (`setup_terminal`, `enable_raw_mode`, `disable_raw_mode`, src/main.rs:91-126): calls into the termios library on terminal state.
- `get_window_size` (src/main.rs:188-195): the `termsize` library call and the `ESC [999C ESC [999B` fallback are terminal I/O; the editor is created with the size as a parameter.
- The `\x1b[6n` query and the stdin read of `get_cursor_position` (src/main.rs:149-155): I/O; the parse starts from the filled buffer.
- `read_input` (src/main.rs:364-371): the stdin read is replaced by an explicit input byte sequence, with 0 past its end.
- stdout: `print!`, `println!` and `io::stdout().flush()` (src/main.rs:86, 149, 278-288, 358-361) are not modelled; `Flush` returns the bytes it would print.
- `clear_and_reset_cursor` (src/main.rs:273-289) and its `CLEAR_SCREEN` sequence (ED, ECMA-48 section 8.3.39): only called on quit and on `die`, both of which end the process.
- `die`, `panic!` and `std::process::exit` (src/main.rs:136-145, 425): process termination. The parse returns `Err(UnexpectedReply)` where the source dies; `ProcessKeypress` returns `quit` where the source clears the screen, restores the terminal and exits.
- `fs::read_to_string`, `str::lines`, `env::args` and the `main` loop (src/main.rs:198-210, 454-468): file and argument I/O; `Open` starts from the sequence of lines.
- UTF-8: text is modelled as bytes; `str` validity is not, and only the character-boundary check of the `col_offset` slice is kept.
- `EditorKey`'s `#[repr(u32)]` casts: modelled as a datatype with an explicit code function.
- Keys.TryFrom: the rejection carries the key code instead of the formatted message "Unknown key: {key}".
