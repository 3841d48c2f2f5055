/**
 * The scalar arithmetic of the dithering sweep, over exact reals: numpy's
 * `round`, the quantisation to multiples of 32, and the final
 * `clip(0, 255).astype(uint8)`.
 */
module Rounding {
  import opened Images

  /** numpy's `np.round`: to the nearest integer, halves to the even neighbour. */
  function RoundHalfEven(r: real): (n: int)
    ensures n as real - 0.5 <= r <= n as real + 0.5
    ensures r == n as real - 0.5 || r == n as real + 0.5 ==> n % 2 == 0
  {
    var f := r.Floor;
    var fraction := r - f as real;
    if fraction < 0.5 then f
    else if fraction > 0.5 then f + 1
    else if f % 2 == 0 then f else f + 1
  }

  /** The two ensures of RoundHalfEven pin its result down: no other integer meets them. */
  lemma {:induction false} RoundHalfEvenUnique(r: real, m: int)
    requires m as real - 0.5 <= r <= m as real + 0.5
    requires r == m as real - 0.5 || r == m as real + 0.5 ==> m % 2 == 0
    ensures m == RoundHalfEven(r)
  {
    var n := RoundHalfEven(r);
    assert -1 <= m - n <= 1;
  }

  /** The distance between two quantisation levels. */
  const LevelStep: real := 32.0

  /** True when `v` is an integer multiple of 32. */
  predicate OnLevelGrid(v: real) {
    (v / LevelStep).Floor as real == v / LevelStep
  }

  /**
   * `np.round(v / 32) * 32`: the multiple of 32 nearest to `v`, an exact half
   * going to the multiple whose quotient is even.
   */
  function Quantize(v: real): (q: real)
    ensures OnLevelGrid(q)
    ensures -16.0 <= v - q <= 16.0
    ensures v - q == 16.0 || q - v == 16.0 ==> (q / LevelStep).Floor % 2 == 0
  {
    (RoundHalfEven(v / LevelStep) as real) * LevelStep
  }

  /** The levels an in-range working value can quantise to: nine of them, 0 to 256. */
  predicate IsLevel(v: real) {
    v in {0.0, 32.0, 64.0, 96.0, 128.0, 160.0, 192.0, 224.0, 256.0}
  }

  /** A working value within 16 of the byte range quantises to one of the nine levels. */
  lemma {:induction false} QuantizeInRange(v: real)
    requires -16.0 <= v <= 271.0
    ensures IsLevel(Quantize(v))
  {
    var n := RoundHalfEven(v / LevelStep);
    assert Quantize(v) == n as real * 32.0;
    assert -1 <= n <= 9;
    assert 0 <= n <= 8;
  }

  /** Byte values from 240 up quantise to 256, the ninth level. */
  lemma {:induction false} QuantizeReachesTop(v: real)
    requires 240.0 <= v <= 255.0
    ensures Quantize(v) == 256.0
  {
    var n := RoundHalfEven(v / LevelStep);
    assert 7 <= n <= 9;
  }

  /** `np.clip(v, 0, 255)`. */
  function Clip(v: real): real {
    if v < 0.0 then 0.0 else if v > 255.0 then 255.0 else v
  }

  /** `np.clip(v, 0, 255).astype(np.uint8)`: clipping, then truncation, which is floor on [0, 255]. */
  function ToByte(v: real): (b: Byte)
    ensures v <= 0.0 ==> b == 0
    ensures v >= 255.0 ==> b == 255
    ensures 0.0 <= v <= 255.0 ==> b as real <= v < b as real + 1.0
  {
    Clip(v).Floor
  }

  /** A byte value converted to real and back comes back unchanged. */
  lemma {:induction false} ToByteOfByte(b: Byte)
    ensures ToByte(b as real) == b
  {
  }

  /** The byte values the nine levels end up as: 256 is clipped to 255. */
  lemma {:induction false} LevelToByte(v: real)
    requires IsLevel(v)
    ensures ToByte(v) in {0, 32, 64, 96, 128, 160, 192, 224, 255}
    ensures v == 256.0 <==> ToByte(v) == 255
  {
  }
}
