/**
 * Keyboard input: decoding the byte stream into key codes (`read_key`), the control-key helpers,
 * the `EditorKey` codes with their `try_from` classification, and the decision `process_keypress`
 * takes on each key.
 */
module Keys {
  import opened Bytes
  import opened Wrappers

  /** `EditorKey`, with its `#[repr(u32)]` discriminants given by `Code`. */
  datatype EditorKey = Left | Right | Up | Down | PageUp | PageDown | Home | End | Delete {

    function Code(): (c: u32)
      ensures 1000 <= c <= 1008
    {
      match this
      case Left => 1000
      case Right => 1001
      case Up => 1002
      case Down => 1003
      case PageUp => 1004
      case PageDown => 1005
      case Home => 1006
      case End => 1007
      case Delete => 1008
    }

    predicate IsArrow() {
      Left? || Right? || Up? || Down?
    }
  }

  /** Distinct keys have distinct codes, so a code names at most one key. */
  lemma CodeInjective(a: EditorKey, b: EditorKey)
    ensures a.Code() == b.Code() ==> a == b
  {
  }

  /** `ctrl_key`: the code a terminal sends for Ctrl plus `key` (`key as u32 & 0x1f`). */
  function CtrlKey(key: char): (r: u32)
    ensures IsCntrl(r)
    ensures 'a' <= key <= 'z' ==> r == key as int - 'a' as int + 1
    ensures 'A' <= key <= 'Z' ==> r == key as int - 'A' as int + 1
  {
    key as int % 32
  }

  /** `is_cntrl`: an ASCII control code. */
  predicate IsCntrl(key: u32) {
    key < 32
  }

  /** Ctrl-Q, the quit chord, is code 17 whichever case the letter has. */
  lemma QuitChord()
    ensures CtrlKey('q') == 17 && CtrlKey('Q') == 17
  {
  }

  /** The bytes `try_from` accepts as movement keys: vi's h/l/k/j and the final letters D/C/A/B. */
  const MOVE_LETTERS: set<int> :=
    {'h' as int, 'l' as int, 'k' as int, 'j' as int, 'A' as int, 'B' as int, 'C' as int, 'D' as int}

  /**
   * `EditorKey::try_from`: a byte code is a movement key when it is one of MOVE_LETTERS, a larger
   * code when it is the code of an arrow key; everything else, PageUp to Delete included, is
   * rejected with the offending key.
   */
  function TryFrom(key: u32): (r: Result<EditorKey, u32>)
    ensures r.Ok? <==> key in MOVE_LETTERS || 1000 <= key <= 1003
    ensures r.Ok? ==> r.value.IsArrow()
    ensures r.Ok? && 0x100 <= key ==> r.value.Code() == key
    ensures r.Err? ==> r.error == key
    ensures key == 'h' as int || key == 'D' as int || key == Left.Code() ==> r == Ok(Left)
    ensures key == 'l' as int || key == 'C' as int || key == Right.Code() ==> r == Ok(Right)
    ensures key == 'k' as int || key == 'A' as int || key == Up.Code() ==> r == Ok(Up)
    ensures key == 'j' as int || key == 'B' as int || key == Down.Code() ==> r == Ok(Down)
  {
    if key < 0x100 then
      // `(key as u8) as u32 == key`: in ASCII range
      if key == 'h' as int || key == 'D' as int then Ok(Left)
      else if key == 'l' as int || key == 'C' as int then Ok(Right)
      else if key == 'k' as int || key == 'A' as int then Ok(Up)
      else if key == 'j' as int || key == 'B' as int then Ok(Down)
      else Err(key)
    else if key == Left.Code() then Ok(Left)
    else if key == Right.Code() then Ok(Right)
    else if key == Up.Code() then Ok(Up)
    else if key == Down.Code() then Ok(Down)
    else Err(key)
  }

  /** The letter that ends the ANSI sequence of an arrow key. */
  function ArrowLetter(k: EditorKey): byte
    requires k.IsArrow()
  {
    match k
    case Up => 'A' as int
    case Down => 'B' as int
    case Right => 'C' as int
    case Left => 'D' as int
  }

  /**
   * `try_from` classifies the code of every key, and an arrow key's final letter typed on its own
   * moves the same way as the arrow key itself.
   */
  lemma TryFromCodes(k: EditorKey)
    ensures TryFrom(k.Code()) == if k.IsArrow() then Ok(k) else Err(k.Code())
    ensures k.IsArrow() ==> TryFrom(ArrowLetter(k)) == Ok(k)
  {
  }

  /** One decoded key and `consumed`, the number of `read_input` calls it took. */
  datatype KeyRead = KeyRead(key: u32, consumed: nat)

  /** The `i`-th byte `read_input` returns: 0 once the input is exhausted (the read timed out). */
  function At(input: seq<byte>, i: nat): byte {
    if i < |input| then input[i] else 0
  }

  /** The bytes returned by the first `n` reads. */
  function Reads(input: seq<byte>, n: nat): seq<byte> {
    seq(n, i requires 0 <= i < n => At(input, i))
  }

  /**
   * `read_key`. A byte other than ESC is the key. After ESC two more bytes are always read, and a
   * fourth only after `ESC [` and a digit 1-9; an ESC sequence that is not recognised yields ESC.
   */
  function ReadKey(input: seq<byte>): (r: KeyRead)
    ensures r.consumed == 1 <==> At(input, 0) != ESC
    ensures r.consumed == 4 <==>
              (At(input, 0) == ESC && At(input, 1) == '[' as int && '1' as int <= At(input, 2) <= '9' as int)
    ensures r.consumed == 1 || r.consumed == 3 || r.consumed == 4
    ensures r.key < 0x100 ==> r.key == At(input, 0)
    ensures 0x100 <= r.key ==> At(input, 0) == ESC && 1000 <= r.key <= 1008
  {
    var c := At(input, 0);
    if c != ESC then KeyRead(c, 1)
    else
      var c1 := At(input, 1);
      var c2 := At(input, 2);
      if c1 == '[' as int then
        if '0' as int < c2 <= '9' as int then
          var c3 := At(input, 3);
          var key :=
            if c3 != '~' as int then c
            else if c2 == '1' as int then Home.Code()
            else if c2 == '3' as int then Delete.Code()
            else if c2 == '4' as int then End.Code()
            else if c2 == '5' as int then PageUp.Code()
            else if c2 == '6' as int then PageDown.Code()
            else if c2 == '7' as int then Home.Code()
            else if c2 == '8' as int then End.Code()
            else c;
          KeyRead(key, 4)
        else
          var key :=
            if c2 == 'A' as int then Up.Code()
            else if c2 == 'B' as int then Down.Code()
            else if c2 == 'C' as int then Right.Code()
            else if c2 == 'D' as int then Left.Code()
            else if c2 == 'H' as int then Home.Code()
            else if c2 == 'F' as int then End.Code()
            else c;
          KeyRead(key, 3)
      else if c1 == 'O' as int then
        var key :=
          if c2 == 'H' as int then Home.Code()
          else if c2 == 'F' as int then End.Code()
          else c;
        KeyRead(key, 3)
      else KeyRead(c, 3)
  }

  /** An ESC-prefixed sequence, written by its ASCII tail. */
  function Escape(tail: string): seq<byte>
    requires forall i | 0 <= i < |tail| :: tail[i] as int < 0x80
  {
    [ESC] + Ascii(tail)
  }

  /** The escape sequences a terminal may send for each key. */
  function Encodings(k: EditorKey): set<seq<byte>> {
    match k
    case Up => {Escape("[A")}
    case Down => {Escape("[B")}
    case Right => {Escape("[C")}
    case Left => {Escape("[D")}
    case Home => {Escape("[1~"), Escape("[7~"), Escape("[H"), Escape("OH")}
    case End => {Escape("[4~"), Escape("[8~"), Escape("[F"), Escape("OF")}
    case Delete => {Escape("[3~")}
    case PageUp => {Escape("[5~")}
    case PageDown => {Escape("[6~")}
  }

  /** Every encoding of a key decodes to that key's code, whatever follows it, and uses up exactly its own bytes. */
  lemma DecodeComplete(k: EditorKey, e: seq<byte>, rest: seq<byte>)
    requires e in Encodings(k)
    ensures ReadKey(e + rest) == KeyRead(k.Code(), |e|)
  {
    var input := e + rest;
    assert 3 <= |e| <= 4;
    assert forall i | 0 <= i < |e| :: At(input, i) == e[i];
  }

  /** A decoded key code always comes from one of that key's encodings: the bytes read are exactly it. */
  lemma DecodeSound(input: seq<byte>)
    requires 0x100 <= ReadKey(input).key
    ensures exists k: EditorKey :: k.Code() == ReadKey(input).key
                                   && Reads(input, ReadKey(input).consumed) in Encodings(k)
  {
    var k;
    if ReadKey(input).consumed == 4 {
      k := TildeKey(input);
    } else {
      k := LetterKey(input);
    }
  }

  /** The four-byte case of `DecodeSound`: `ESC [ digit ~`. */
  lemma TildeKey(input: seq<byte>) returns (k: EditorKey)
    requires 0x100 <= ReadKey(input).key && ReadKey(input).consumed == 4
    ensures k.Code() == ReadKey(input).key && Reads(input, 4) in Encodings(k)
  {
    var got := Reads(input, 4);
    assert got == [At(input, 0), At(input, 1), At(input, 2), At(input, 3)];
    var c2 := At(input, 2);
    if c2 == '1' as int {
      k := Home; assert got == Escape("[1~");
    } else if c2 == '3' as int {
      k := Delete; assert got == Escape("[3~");
    } else if c2 == '4' as int {
      k := End; assert got == Escape("[4~");
    } else if c2 == '5' as int {
      k := PageUp; assert got == Escape("[5~");
    } else if c2 == '6' as int {
      k := PageDown; assert got == Escape("[6~");
    } else if c2 == '7' as int {
      k := Home; assert got == Escape("[7~");
    } else {
      k := End; assert got == Escape("[8~");
    }
  }

  /** The three-byte case of `DecodeSound`: `ESC [ letter` or `ESC O letter`. */
  lemma LetterKey(input: seq<byte>) returns (k: EditorKey)
    requires 0x100 <= ReadKey(input).key && ReadKey(input).consumed != 4
    ensures k.Code() == ReadKey(input).key && Reads(input, 3) in Encodings(k)
  {
    var got := Reads(input, 3);
    assert got == [At(input, 0), At(input, 1), At(input, 2)];
    var c2 := At(input, 2);
    if At(input, 1) == '[' as int {
      if c2 == 'A' as int {
        k := Up; assert got == Escape("[A");
      } else if c2 == 'B' as int {
        k := Down; assert got == Escape("[B");
      } else if c2 == 'C' as int {
        k := Right; assert got == Escape("[C");
      } else if c2 == 'D' as int {
        k := Left; assert got == Escape("[D");
      } else if c2 == 'H' as int {
        k := Home; assert got == Escape("[H");
      } else {
        k := End; assert got == Escape("[F");
      }
    } else if c2 == 'H' as int {
      k := Home; assert got == Escape("OH");
    } else {
      k := End; assert got == Escape("OF");
    }
  }

  /** What `process_keypress` does with a decoded key. */
  datatype Action = Quit | Ignore | Move(key: EditorKey)

  /**
   * The decision part of `process_keypress`: Ctrl-Q quits, 0 (no input) and keys `try_from` rejects
   * are ignored, and only the four movement keys move the cursor.
   */
  function Dispatch(c: u32): (a: Action)
    ensures a == Quit <==> c == CtrlKey('q')
    ensures a.Move? <==> c in MOVE_LETTERS || 1000 <= c <= 1003
    ensures a.Move? ==> a.key.IsArrow() && TryFrom(c) == Ok(a.key)
    ensures c == 0 ==> a == Ignore
  {
    if IsCntrl(c) && c == CtrlKey('q') then Quit
    else if c == 0 then Ignore
    else match TryFrom(c)
      case Ok(key) => Move(key)
      case Err(_) => Ignore
  }
}
