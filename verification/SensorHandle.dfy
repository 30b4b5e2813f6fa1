/** The proxy's 32-bit sensor handles: the sub-HAL index in the top byte, the sub-HAL's own handle
    in the other three. Machine integers are modelled with their width: a handle is a two's
    complement 32-bit value, a size_t is taken modulo 2^64. */
module SensorHandle {
  import opened SensorTypes

  const LOW: int := 0x100_0000
  const SIZE_T: int := 0x1_0000_0000_0000_0000

  /** The value of the low three bytes. */
  function Low(h: Int32): (low: nat)
    ensures low < LOW
  {
    h % LOW
  }

  /** The value of the top byte, as an unsigned byte. */
  function Top(h: Int32): (top: nat)
    ensures top < 256
  {
    (h / LOW) % 256
  }

  /** The handle with the given bytes; a top byte from 128 up is a negative handle. */
  function FromBytes(top: nat, low: nat): (h: Int32)
    requires top < 256 && low < LOW
    ensures Top(h) == top && Low(h) == low
  {
    (if top < 128 then top else top - 256) * LOW + low
  }

  /** Bitwise or of two numbers below 2^bits. */
  function BitOr(a: nat, b: nat, bits: nat): (r: nat)
    requires a < Pow2(bits) && b < Pow2(bits)
    ensures r < Pow2(bits)
    ensures a == 0 ==> r == b
    ensures b == 0 ==> r == a
    ensures r >= a && r >= b
  {
    if bits == 0 then 0
    else
      2 * BitOr(a / 2, b / 2, bits - 1) + if a % 2 == 1 || b % 2 == 1 then 1 else 0
  }

  function Pow2(n: nat): (p: nat)
    ensures p > 0
  {
    if n == 0 then 1 else 2 * Pow2(n - 1)
  }

  /** Binary digit k of a number. */
  predicate Digit(a: nat, k: nat) {
    if k == 0 then a % 2 == 1 else Digit(a / 2, k - 1)
  }

  /** The or has a binary digit exactly where one of its operands has it. */
  lemma {:induction false} BitOrDigit(a: nat, b: nat, bits: nat, k: nat)
    requires a < Pow2(bits) && b < Pow2(bits)
    ensures Digit(BitOr(a, b, bits), k) <==> Digit(a, k) || Digit(b, k)
  {
    if bits == 0 {
      NoDigit(k);
    } else if k > 0 {
      BitOrDigit(a / 2, b / 2, bits - 1, k - 1);
      assert BitOr(a, b, bits) / 2 == BitOr(a / 2, b / 2, bits - 1);
    }
  }

  lemma {:induction false} NoDigit(k: nat)
    ensures !Digit(0, k)
  {
    if k > 0 { NoDigit(k - 1); }
  }

  /** sensorHandle | (int32_t(subHalIndex) << 24): the shift keeps the index modulo 256 and its low
      three bytes are 0, so the or only reaches the top byte. */
  function SetSubHalIndex(h: Int32, subHalIndex: nat): Int32 {
    assert Pow2(8) == 256;
    FromBytes(BitOr(Top(h), subHalIndex % 256, 8), Low(h))
  }

  /** size_t(sensorHandle >> 24): an arithmetic shift, then a widening that keeps the sign. */
  function ExtractSubHalIndex(h: Int32): nat {
    (h / LOW) % SIZE_T
  }

  function ClearSubHalIndex(h: Int32): Int32 {
    Low(h)
  }

  predicate SubHalIndexIsClear(h: Int32) {
    Top(h) == 0
  }

  /** isSubHalIndexValid against a list of the given size. */
  predicate SubHalIndexValid(h: Int32, subHals: nat) {
    ExtractSubHalIndex(h) < subHals
  }

  lemma ClearIsLow(h: Int32)
    ensures SubHalIndexIsClear(h) <==> 0 <= h < LOW
  {
  }

  /** A handle is its bytes. */
  lemma BytesOf(h: Int32)
    ensures h == (if Top(h) < 128 then Top(h) else Top(h) - 256) * LOW + Low(h)
    ensures ExtractSubHalIndex(h) == if Top(h) < 128 then Top(h) else SIZE_T - 256 + Top(h)
  {
    var q := h / LOW;
    assert -128 <= q < 128;
    assert q < 0 ==> (q + SIZE_T) % SIZE_T == q + SIZE_T && q % 256 == q + 256;
  }

  /** What tagging a clear handle gives, for every index. */
  lemma TaggedClear(h: Int32, i: nat)
    requires SubHalIndexIsClear(h)
    ensures Top(SetSubHalIndex(h, i)) == i % 256 && Low(SetSubHalIndex(h, i)) == h
  {
    ClearIsLow(h);
  }

  /** Tagging any handle, clear or not, adds the digits of the index to those of the top byte. */
  lemma TagAddsDigits(h: Int32, i: nat, k: nat)
    ensures Digit(Top(SetSubHalIndex(h, i)), k) <==> Digit(Top(h), k) || Digit(i % 256, k)
  {
    assert Pow2(8) == 256;
    BitOrDigit(Top(h), i % 256, 8, k);
  }

  /** Tagging any handle keeps its low bytes. */
  lemma TagKeepsLow(h: Int32, i: nat)
    ensures ClearSubHalIndex(SetSubHalIndex(h, i)) == ClearSubHalIndex(h)
  {
  }

  /** Round trip: a tagged clear handle is valid in a list that has the index, and leads back to the
      index and the handle it came from, exactly when the index is below 128. From 128 to 255 the
      shift makes the handle negative and its index larger than any list; from 256 on the tag leads
      to another sub-HAL or to none. */
  lemma RoundTrip(h: Int32, i: nat, subHals: nat)
    requires SubHalIndexIsClear(h) && i < subHals <= SIZE_T / 2
    ensures var tagged := SetSubHalIndex(h, i);
            && ClearSubHalIndex(tagged) == h
            && (SubHalIndexValid(tagged, subHals) && ExtractSubHalIndex(tagged) == i <==> i < 128)
            && (SubHalIndexValid(tagged, subHals) <==> i % 256 < 128)
  {
    TaggedClear(h, i);
    BytesOf(SetSubHalIndex(h, i));
    if i % 256 < 128 {
      assert i % 256 <= i;
    }
  }

  /** No two sensors share a tagged handle. */
  lemma TagInjective(h: Int32, i: nat, h': Int32, i': nat)
    requires SubHalIndexIsClear(h) && SubHalIndexIsClear(h') && i < 256 && i' < 256
    ensures SetSubHalIndex(h, i) == SetSubHalIndex(h', i') ==> h == h' && i == i'
  {
    assert i % 256 == i && i' % 256 == i';
    hide *;
    TaggedClear(h, i);
    TaggedClear(h', i');
  }
}
