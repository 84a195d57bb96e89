/**
 * The byte parse of `get_cursor_position`: the terminal's CPR reply `ESC [ row ; col R`, read into
 * a zero-initialised 16-byte buffer, becomes the pair (col, row).
 */
module CursorReply {
  import opened Bytes
  import opened Wrappers
  import opened Screen

  const REPLY_LEN: nat := 16
  const SEMICOLON: byte := 59
  const FINAL_R: byte := 82

  /** The reply does not start with `ESC [` (`get_cursor_position` dies with "unexpected output"). */
  datatype ReplyError = UnexpectedReply

  /**
   * One of the two digit loops: from index `i` with accumulator `acc`, every byte up to the first
   * `stop` byte (or the end of the buffer) is folded in as `acc * 10 + (b - '0')`. Returns the
   * accumulator and the index where the loop stopped.
   */
  function Accumulate(buf: seq<byte>, i: nat, acc: int, stop: byte): (r: (int, nat))
    requires i <= |buf|
    ensures i <= r.1 <= |buf|
    ensures r.1 < |buf| ==> buf[r.1] == stop
    ensures forall j | i <= j < r.1 :: buf[j] != stop
    ensures AccumulateSafe(buf, i, acc, stop) && 0 <= acc <= U16_MAX ==> 0 <= r.0 <= U16_MAX
    decreases |buf| - i
  {
    if i == |buf| || buf[i] == stop then (acc, i)
    else Accumulate(buf, i + 1, acc * 10 + (buf[i] - ZERO), stop)
  }

  /**
   * The loop from `i` never leaves `u16`: no byte below '0' (the `u16` subtraction would
   * underflow) and no accumulator above 65535 (the multiply-add would overflow).
   */
  predicate AccumulateSafe(buf: seq<byte>, i: nat, acc: int, stop: byte)
    requires i <= |buf|
    decreases |buf| - i
  {
    || i == |buf|
    || buf[i] == stop
    || (&& ZERO <= buf[i]
        && acc * 10 + (buf[i] - ZERO) <= U16_MAX
        && AccumulateSafe(buf, i + 1, acc * 10 + (buf[i] - ZERO), stop))
  }

  /** Where the column loop starts: just past the ';' the row loop stopped at, if it found one. */
  function ColStart(buf: seq<byte>): (r: nat)
    requires 2 <= |buf|
    ensures r <= |buf|
  {
    var j := Accumulate(buf, 2, 0, SEMICOLON).1;
    if j < |buf| then j + 1 else j
  }

  predicate ReplySafe(buf: seq<byte>)
    requires 2 <= |buf|
  {
    AccumulateSafe(buf, 2, 0, SEMICOLON)
    && AccumulateSafe(buf, ColStart(buf), 0, FINAL_R)
  }

  predicate HasPrefix(buf: seq<byte>)
    requires 2 <= |buf|
  {
    buf[0] == ESC && buf[1] == '[' as int
  }

  /**
   * The parse: an error unless the buffer starts with `ESC [`; otherwise the row digits up to ';'
   * and the column digits up to 'R', returned as (col, row).
   */
  function ParseReply(buf: seq<byte>): (r: Result<(u16, u16), ReplyError>)
    requires |buf| == REPLY_LEN
    requires HasPrefix(buf) ==> ReplySafe(buf)
    ensures r.Err? <==> !HasPrefix(buf)
    ensures r.Ok? ==> r.value.0 == Accumulate(buf, ColStart(buf), 0, FINAL_R).0
    ensures r.Ok? ==> r.value.1 == Accumulate(buf, 2, 0, SEMICOLON).0
  {
    if !HasPrefix(buf) then Err(UnexpectedReply)
    else
      var row := Accumulate(buf, 2, 0, SEMICOLON).0;
      var col := Accumulate(buf, ColStart(buf), 0, FINAL_R).0;
      Ok((col, row))
  }

  /**
   * The scanning part of `get_cursor_position` on the buffer the terminal's reply was read into
   * (the `\x1b[6n` query and the read itself are terminal I/O).
   */
  method GetCursorPosition(buf: array<byte>) returns (r: Result<(u16, u16), ReplyError>)
    requires buf.Length == REPLY_LEN
    requires HasPrefix(buf[..]) ==> ReplySafe(buf[..])
    ensures r == ParseReply(buf[..])
  {
    if buf[0] != 27 || buf[1] != 91 {
      return Err(UnexpectedReply);
    }
    ghost var b := buf[..];
    var row: u16 := 0;
    var col: u16 := 0;
    var i := 2;
    while i < buf.Length
      invariant 2 <= i <= buf.Length
      invariant Accumulate(b, i, row, SEMICOLON) == Accumulate(b, 2, 0, SEMICOLON)
      invariant AccumulateSafe(b, i, row, SEMICOLON)
    {
      if buf[i] == 59 {
        i := i + 1;
        break;
      }
      var digit: u16 := buf[i] - 48;
      row := row * 10 + digit;
      i := i + 1;
    }
    assert row == Accumulate(b, 2, 0, SEMICOLON).0 && i == ColStart(b);
    while i < buf.Length
      invariant ColStart(b) <= i <= buf.Length
      invariant Accumulate(b, i, col, FINAL_R) == Accumulate(b, ColStart(b), 0, FINAL_R)
      invariant AccumulateSafe(b, i, col, FINAL_R)
    {
      if buf[i] == 82 {
        break;
      }
      var digit: u16 := buf[i] - 48;
      col := col * 10 + digit;
      i := i + 1;
    }
    r := Ok((col, row));
  }

  /** The CPR report a terminal sends for the 1-based position (row, col). */
  function PositionReport(row: nat, col: nat): seq<byte> {
    PositionSequence(row, col, FINAL_R)
  }

  /** The 16-byte read buffer after a reply `s` was read into it; unread bytes stay 0. */
  function Padded(s: seq<byte>): seq<byte>
    requires |s| <= REPLY_LEN
  {
    s + seq(REPLY_LEN - |s|, _ => 0)
  }

  /** A digit loop over the digits `ds` followed by `stop` ends at `stop` with `Fold(acc, ds)`. */
  lemma {:induction false} ScanDigits(buf: seq<byte>, i: nat, acc: int, ds: seq<byte>, stop: byte)
    requires i + |ds| < |buf| && buf[i..i + |ds|] == ds && buf[i + |ds|] == stop
    requires AllDigits(ds) && !IsDigit(stop)
    requires 0 <= acc && Fold(acc, ds) <= U16_MAX
    ensures Accumulate(buf, i, acc, stop) == (Fold(acc, ds), i + |ds|)
    ensures AccumulateSafe(buf, i, acc, stop)
    decreases |ds|
  {
    if ds != [] {
      assert buf[i] == ds[0];
      var next := acc * 10 + (ds[0] - ZERO);
      FoldGrows(next, ds[1..]);
      assert buf[i + 1..i + 1 + |ds[1..]|] == ds[1..];
      ScanDigits(buf, i + 1, next, ds[1..], stop);
    }
  }

  /**
   * Every position a terminal can report fits the 16-byte buffer, is parsed without overflow, and
   * comes back as (col, row): the parse inverts the CPR format.
   */
  lemma ReplyRoundTrip(row: u16, col: u16)
    ensures |PositionReport(row, col)| <= REPLY_LEN
    ensures HasPrefix(Padded(PositionReport(row, col)))
    ensures ReplySafe(Padded(PositionReport(row, col)))
    ensures ParseReply(Padded(PositionReport(row, col))) == Ok((col, row))
  {
    var dr, dc := Decimal(row), Decimal(col);
    ReplyLayout(row, col);
    var buf := Padded(PositionReport(row, col));
    ScanDigits(buf, 2, 0, dr, SEMICOLON);
    var cs := 3 + |dr|;
    assert ColStart(buf) == cs;
    ScanDigits(buf, cs, 0, dc, FINAL_R);
  }

  /** The reply `ESC [ 24 ; 80 R` of a cursor at row 24, column 80 parses to (80, 24). */
  lemma ReplyExample()
    ensures var buf := Padded([ESC, '[' as int, '2' as int, '4' as int, SEMICOLON, '8' as int, '0' as int, FINAL_R]);
            && HasPrefix(buf) && ReplySafe(buf) && ParseReply(buf) == Ok((80, 24))
  {
    ReplyRoundTrip(24, 80);
    assert Decimal(24) == ['2' as int, '4' as int];
    assert Decimal(80) == ['8' as int, '0' as int];
    assert PositionReport(24, 80)
        == [ESC, '[' as int, '2' as int, '4' as int, SEMICOLON, '8' as int, '0' as int, FINAL_R];
  }

  /** Where the parts of a report lie in the read buffer. */
  lemma ReplyLayout(row: u16, col: u16)
    ensures |PositionReport(row, col)| <= REPLY_LEN
    ensures var dr, dc, buf := Decimal(row), Decimal(col), Padded(PositionReport(row, col));
            && |buf| == REPLY_LEN && 3 + |dr| + |dc| < |buf|
            && buf[0] == ESC && buf[1] == '[' as int
            && buf[2..2 + |dr|] == dr && buf[2 + |dr|] == SEMICOLON
            && buf[3 + |dr|..3 + |dr| + |dc|] == dc && buf[3 + |dr| + |dc|] == FINAL_R
  {
    var dr, dc := Decimal(row), Decimal(col);
    U16Width(row);
    U16Width(col);
    var msg := PositionReport(row, col);
    ReportLayout(row, col);
    PaddedKeeps(msg, 2, 2 + |dr|);
    PaddedKeeps(msg, 3 + |dr|, 3 + |dr| + |dc|);
  }

  /** Where the parts of a report lie in the report itself. */
  lemma ReportLayout(row: nat, col: nat)
    ensures var dr, dc, msg := Decimal(row), Decimal(col), PositionReport(row, col);
            && |msg| == 4 + |dr| + |dc|
            && msg[0] == ESC && msg[1] == '[' as int
            && msg[2..2 + |dr|] == dr && msg[2 + |dr|] == SEMICOLON
            && msg[3 + |dr|..3 + |dr| + |dc|] == dc && msg[3 + |dr| + |dc|] == FINAL_R
  {
    var dr, dc := Decimal(row), Decimal(col);
    var msg := PositionReport(row, col);
    assert msg == [ESC, '[' as int] + dr + [SEMICOLON] + dc + [FINAL_R];
  }

  /** Padding leaves the reply's own bytes in place. */
  lemma PaddedKeeps(msg: seq<byte>, i: nat, j: nat)
    requires |msg| <= REPLY_LEN && i <= j <= |msg|
    ensures Padded(msg)[i..j] == msg[i..j]
    ensures forall k | 0 <= k < |msg| :: Padded(msg)[k] == msg[k]
  {
  }

  /**
   * The CUP sequence the renderer emits determines its parameters: two positions that format to
   * the same bytes are the same position.
   */
  lemma CursorPositionDetermined(row1: u16, col1: u16, row2: u16, col2: u16)
    requires CursorPosition(row1, col1) == CursorPosition(row2, col2)
    ensures row1 == row2 && col1 == col2
  {
    var s1, s2 := CursorPosition(row1, col1), CursorPosition(row2, col2);
    assert PositionReport(row1, col1) == s1[..|s1| - 1] + [FINAL_R];
    assert PositionReport(row2, col2) == s2[..|s2| - 1] + [FINAL_R];
    ReplyRoundTrip(row1, col1);
    ReplyRoundTrip(row2, col2);
  }
}
