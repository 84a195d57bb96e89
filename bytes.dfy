/**
 * Machine integers and byte strings as the editor uses them: `u8` bytes, the `u16` fields of the
 * editor state, `u32` key codes, and the decimal formatting of `format!("{}", n)`.
 */
module Bytes {

  type byte = b: int | 0 <= b < 0x100
  type u16 = x: int | 0 <= x < 0x1_0000
  type u32 = x: int | 0 <= x < 0x1_0000_0000

  const U16_MAX: int := 0xFFFF

  const ESC: byte := 27
  const ZERO: byte := 48   // '0'

  /** The bytes of an ASCII string literal. */
  function Ascii(s: string): seq<byte>
    requires forall i | 0 <= i < |s| :: s[i] as int < 0x80
  {
    seq(|s|, i requires 0 <= i < |s| => s[i] as int)
  }

  lemma AppendAssoc(a: seq<byte>, b: seq<byte>, c: seq<byte>)
    ensures (a + b) + c == a + (b + c)
  {
  }

  function Min(a: int, b: int): int {
    if a <= b then a else b
  }

  predicate IsDigit(b: int) {
    ZERO as int <= b <= ZERO as int + 9
  }

  predicate AllDigits(s: seq<byte>) {
    forall i | 0 <= i < |s| :: IsDigit(s[i])
  }

  /**
   * The accumulator a left-to-right decimal scan reaches: starting from `acc`, each byte `d`
   * turns it into `acc * 10 + (d - '0')`.
   */
  function Fold(acc: int, ds: seq<byte>): int
    decreases |ds|
  {
    if ds == [] then acc else Fold(acc * 10 + (ds[0] - ZERO), ds[1..])
  }

  lemma {:induction false} FoldSnoc(acc: int, ds: seq<byte>, d: byte)
    ensures Fold(acc, ds + [d]) == Fold(acc, ds) * 10 + (d - ZERO)
    decreases |ds|
  {
    if ds == [] {
      assert ds + [d] == [d];
    } else {
      assert (ds + [d])[1..] == ds[1..] + [d];
      FoldSnoc(acc * 10 + (ds[0] - ZERO), ds[1..], d);
    }
  }

  /** Scanning digits never makes a non-negative accumulator smaller. */
  lemma {:induction false} FoldGrows(acc: int, ds: seq<byte>)
    requires 0 <= acc && AllDigits(ds)
    ensures acc <= Fold(acc, ds)
    decreases |ds|
  {
    if ds != [] {
      FoldGrows(acc * 10 + (ds[0] - ZERO), ds[1..]);
    }
  }

  /**
   * `format!("{}", n)`: the decimal digits of `n`, most significant first, without leading zeros.
   * Scanning them back yields `n`.
   */
  function Decimal(n: nat): (r: seq<byte>)
    ensures 1 <= |r| && AllDigits(r)
    ensures Fold(0, r) == n
    ensures r[0] == ZERO ==> r == [ZERO]
  {
    if n < 10 then [ZERO + n]
    else
      FoldSnoc(0, Decimal(n / 10), ZERO + n % 10);
      Decimal(n / 10) + [ZERO + n % 10]
  }

  function Pow10(k: nat): nat {
    if k == 0 then 1 else 10 * Pow10(k - 1)
  }

  /** A number below 10^k takes at most k digits. */
  lemma {:induction false} DecimalWidth(n: nat, k: nat)
    requires 1 <= k && n < Pow10(k)
    ensures |Decimal(n)| <= k
  {
    if n >= 10 {
      assert 2 <= k;
      DecimalWidth(n / 10, k - 1);
    }
  }

  /** A `u16` formats to at most five digits. */
  lemma U16Width(n: u16)
    ensures |Decimal(n)| <= 5
  {
    assert Pow10(5) == 100000;
    DecimalWidth(n, 5);
  }
}
