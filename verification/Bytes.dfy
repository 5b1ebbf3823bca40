/** Byte strings: the library operations of Python and C the codec leans on. */
module Bytes {
  import opened Basics

  type byte = n: int | 0 <= n < 256
  type bytes = seq<byte>

  const CR: byte := 13
  const LF: byte := 10
  const CRLF: bytes := [CR, LF]

  predicate OccursAt(hay: bytes, needle: bytes, i: nat) {
    i + |needle| <= |hay| && hay[i..i + |needle|] == needle
  }

  /** The first occurrence of `needle`. */
  function Find(hay: bytes, needle: bytes): (at: Option<nat>)
    ensures at.Some? ==> OccursAt(hay, needle, at.value)
    ensures forall i: nat :: OccursAt(hay, needle, i) ==> at.Some? && at.value <= i
  {
    if |hay| < |needle| then None
    else if hay[..|needle|] == needle then Some(0)
    else
      var rest := Find(hay[1..], needle);
      assert forall i: nat :: OccursAt(hay, needle, i) ==> i > 0 && OccursAt(hay[1..], needle, i - 1);
      assert rest.Some? ==> OccursAt(hay, needle, rest.value + 1);
      if rest.None? then None else Some(rest.value + 1)
  }

  /** bytes.split(needle) */
  function Split(s: bytes, needle: bytes): seq<bytes>
    requires needle != []
    decreases |s|
  {
    var at := Find(s, needle);
    if at.None? then [s] else [s[..at.value]] + Split(s[at.value + |needle|..], needle)
  }

  function Digit(d: nat): byte
    requires d < 10
  {
    48 + d
  }

  predicate IsDigit(b: byte) { 48 <= b <= 57 }

  predicate AllDigits(s: bytes) {
    forall i :: 0 <= i < |s| ==> IsDigit(s[i])
  }

  /** The digits %d prints for a natural number. */
  function Decimal(n: nat): (s: bytes)
    ensures s != [] && AllDigits(s)
  {
    if n < 10 then [Digit(n)] else Decimal(n / 10) + [Digit(n % 10)]
  }

  function DigitValue(b: int): nat
    requires 48 <= b <= 57
  {
    b - 48
  }

  /** The number a string of digits stands for. */
  function Value(s: bytes): nat
    requires AllDigits(s)
  {
    if s == [] then 0 else
    assert IsDigit(s[|s| - 1]);
    10 * Value(s[..|s| - 1]) + DigitValue(s[|s| - 1])
  }

  lemma {:induction false} ValueOfDecimal(n: nat)
    ensures Value(Decimal(n)) == n
  {
    if n < 10 {
    } else {
      ValueOfDecimal(n / 10);
      assert Decimal(n)[..|Decimal(n)| - 1] == Decimal(n / 10);
    }
  }
}
