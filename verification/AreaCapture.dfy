/** The average colour of a captured screen area, with the 32-bit arithmetic of the capture service. */
module AreaCapture {

  type Byte = x: int | 0 <= x < 256

  const WORD: int := 0x1_0000_0000

  /** Reduction to an unsigned 32-bit value. */
  function U32(x: int): (r: nat)
    ensures r < WORD
  {
    x % WORD
  }

  lemma U32Add(a: int, b: int)
    ensures U32(U32(a) + b) == U32(a + b)
  {
    assert a == WORD * (a / WORD) + a % WORD;
    var q := (U32(a) + b) / WORD;
    assert a + b == WORD * (a / WORD + q) + (U32(a) + b) % WORD;
    Unique(a + b, a / WORD + q, (U32(a) + b) % WORD);
  }

  lemma Unique(n: int, q: int, r: nat)
    requires r < WORD && n == WORD * q + r
    ensures n % WORD == r
  {
  }

  /** A quotient of two unsigned values: undefined for an empty area. */
  datatype Average = NotANumber | Value(v: real)

  function Mean(sum: nat, count: nat): Average {
    if count == 0 then NotANumber else Value(sum as real / count as real)
  }

  /** A buffer of four bytes a pixel, `stride` pixels a row, of which the first `width` are visible. */
  datatype Frame = Frame(width: nat, height: nat, stride: nat) {
    function Offset(x: nat, y: nat): nat { 4 * (y * stride + x) }

    predicate Fits(length: nat) {
      && width <= stride && width < WORD / 2 && height < WORD / 2
      && 4 * (stride * height) <= length && 4 * (stride * height) < WORD
    }
  }

  /** Every visible pixel lies inside the buffer. */
  lemma InsideBuffer(f: Frame, length: nat, x: nat, y: nat)
    requires f.Fits(length) && x < f.width && y < f.height
    ensures 0 <= f.Offset(x, y) && f.Offset(x, y) + 3 < length && f.Offset(x, y) + 3 < WORD
  {
    OffsetBound(x, y, f.stride, f.height);
  }

  lemma OffsetBound(x: nat, y: nat, stride: nat, height: nat)
    requires x < stride && y < height
    ensures 4 * (y * stride + x) + 3 < 4 * (stride * height)
  {
    MulMonotone(y + 1, height, stride);
    assert (y + 1) * stride == y * stride + stride;
  }

  lemma MulMonotone(a: nat, b: nat, c: nat)
    requires a <= b
    ensures a * c <= b * c
  {
    assert b * c == a * c + (b - a) * c;
  }

  /** The sum of channel c over the first n pixels of row y. */
  function RowSum(out: seq<Byte>, f: Frame, c: nat, y: nat, n: nat): (sum: nat)
    requires f.Fits(|out|) && c < 3 && y < f.height && n <= f.width
    ensures sum <= 255 * n
  {
    if n == 0 then 0
    else
      InsideBuffer(f, |out|, n - 1, y);
      RowSum(out, f, c, y, n - 1) + out[f.Offset(n - 1, y) + c]
  }

  /** The sum of channel c over the visible pixels of the first m rows. */
  function AreaSum(out: seq<Byte>, f: Frame, c: nat, m: nat): (sum: nat)
    requires f.Fits(|out|) && c < 3 && m <= f.height
    ensures sum <= 255 * (m * f.width)
  {
    if m == 0 then 0
    else
      assert 255 * (m * f.width) == 255 * ((m - 1) * f.width) + 255 * f.width;
      AreaSum(out, f, c, m - 1) + RowSum(out, f, c, m - 1, f.width)
  }

  /** The index the loop computes in 32 bits is the pixel's offset. */
  lemma IndexIsOffset(f: Frame, length: nat, x: nat, y: nat)
    requires f.Fits(length) && x < f.width && y < f.height
    ensures U32(U32(y * U32(f.stride * 4)) + U32(x * 4)) == f.Offset(x, y)
  {
    InsideBuffer(f, length, x, y);
    MulMonotone(1, f.height, f.stride);
    U32Small(f.stride * 4);
    assert y * (f.stride * 4) == 4 * (y * f.stride);
    U32Small(y * (f.stride * 4));
    U32Small(x * 4);
    U32Small(f.Offset(x, y));
  }

  lemma U32Small(x: nat)
    requires x < WORD
    ensures U32(x) == x
  {
  }

  /** The 32-bit sum of channel c when the loops stand at row y, pixel x. */
  function Running(out: seq<Byte>, f: Frame, c: nat, y: nat, x: nat): nat
    requires f.Fits(|out|) && c < 3 && y < f.height && x <= f.width
  {
    U32(AreaSum(out, f, c, y) + RowSum(out, f, c, y, x))
  }

  /** One more pixel of channel c. */
  lemma AddPixel(out: seq<Byte>, f: Frame, c: nat, y: nat, x: nat)
    requires f.Fits(|out|) && c < 3 && y < f.height && x < f.width
    ensures f.Offset(x, y) + c < |out|
    ensures U32(Running(out, f, c, y, x) + out[f.Offset(x, y) + c]) == Running(out, f, c, y, x + 1)
  {
    InsideBuffer(f, |out|, x, y);
    U32Add(AreaSum(out, f, c, y) + RowSum(out, f, c, y, x), out[f.Offset(x, y) + c]);
  }

  lemma RowEnds(out: seq<Byte>, f: Frame, c: nat, y: nat)
    requires f.Fits(|out|) && c < 3 && y < f.height
    ensures Running(out, f, c, y, 0) == U32(AreaSum(out, f, c, y))
    ensures Running(out, f, c, y, f.width) == U32(AreaSum(out, f, c, y + 1))
  {
  }

  lemma NothingSummed(out: seq<Byte>, f: Frame, c: nat)
    requires f.Fits(|out|) && c < 3
    ensures U32(AreaSum(out, f, c, 0)) == 0
  {
  }

  /** One channel of the inner loop's body: the word at the computed index is added. */
  method AddSample(out: array<Byte>, f: Frame, c: nat, x: nat, y: nat, sum: nat) returns (more: nat)
    requires f.Fits(out.Length) && c < 3 && x < f.width && y < f.height
    requires sum == Running(out[..], f, c, y, x)
    ensures more == Running(out[..], f, c, y, x + 1)
  {
    IndexIsOffset(f, out.Length, x, y);
    AddPixel(out[..], f, c, y, x);
    hide AreaSum, RowSum, Running, U32, Frame.Fits;
    more := U32(sum + out[U32(U32(y * U32(f.stride * 4)) + U32(x * 4)) + c]);
  }

  /** The inner loop: one row of all three channels. */
  method AddRow(out: array<Byte>, f: Frame, y: nat, r: nat, g: nat, b: nat)
    returns (rsum: nat, gsum: nat, bsum: nat)
    requires f.Fits(out.Length) && y < f.height
    requires r == U32(AreaSum(out[..], f, 0, y))
    requires g == U32(AreaSum(out[..], f, 1, y))
    requires b == U32(AreaSum(out[..], f, 2, y))
    ensures rsum == U32(AreaSum(out[..], f, 0, y + 1))
    ensures gsum == U32(AreaSum(out[..], f, 1, y + 1))
    ensures bsum == U32(AreaSum(out[..], f, 2, y + 1))
  {
    ghost var pixels := out[..];
    RowEnds(pixels, f, 0, y);
    RowEnds(pixels, f, 1, y);
    RowEnds(pixels, f, 2, y);
    hide *;
    rsum, gsum, bsum := r, g, b;
    var x := 0;
    while x < f.width
      invariant 0 <= x <= f.width
      invariant rsum == Running(pixels, f, 0, y, x)
      invariant gsum == Running(pixels, f, 1, y, x)
      invariant bsum == Running(pixels, f, 2, y, x)
    {
      rsum := AddSample(out, f, 0, x, y, rsum);
      gsum := AddSample(out, f, 1, x, y, gsum);
      bsum := AddSample(out, f, 2, x, y, bsum);
      x := x + 1;
    }
  }

  /** The capture: sums in 32-bit words, divided by the 32-bit pixel count. */
  method GetAreaBrightness(out: array<Byte>, f: Frame) returns (r: Average, g: Average, b: Average)
    requires f.Fits(out.Length)
    ensures r == Mean(U32(AreaSum(out[..], f, 0, f.height)), U32(f.width * f.height))
    ensures g == Mean(U32(AreaSum(out[..], f, 1, f.height)), U32(f.width * f.height))
    ensures b == Mean(U32(AreaSum(out[..], f, 2, f.height)), U32(f.width * f.height))
  {
    NothingSummed(out[..], f, 0);
    NothingSummed(out[..], f, 1);
    NothingSummed(out[..], f, 2);
    hide AreaSum, RowSum, U32, Frame.Fits;
    var rsum, gsum, bsum := 0, 0, 0;
    var y := 0;
    while y < f.height
      invariant 0 <= y <= f.height
      invariant rsum == U32(AreaSum(out[..], f, 0, y))
      invariant gsum == U32(AreaSum(out[..], f, 1, y))
      invariant bsum == U32(AreaSum(out[..], f, 2, y))
    {
      rsum, gsum, bsum := AddRow(out, f, y, rsum, gsum, bsum);
      y := y + 1;
    }
    var max := U32(f.width * f.height);
    r, g, b := Mean(rsum, max), Mean(gsum, max), Mean(bsum, max);
  }

  /** An average times the number of pixels is the sum. */
  lemma MeanExactly(sum: nat, count: nat)
    ensures Mean(sum, count).NotANumber? <==> count == 0
    ensures count > 0 ==> Mean(sum, count).v * count as real == sum as real
  {
  }

  /** What the average should be: the visible pixels' values over their number. */
  function TrueAverage(out: seq<Byte>, f: Frame, c: nat): Average
    requires f.Fits(|out|) && c < 3
  {
    Mean(AreaSum(out, f, c, f.height), f.width * f.height)
  }

  /** The largest number of pixels whose sum cannot wrap: 255 times this is the largest word. */
  const MAX_PIXELS: nat := 16843009

  /** The computed average is the true one exactly when the true sum fits a word; up to MAX_PIXELS
      visible pixels it always does, and then it lies within 0..255 unless the area is empty. */
  lemma AverageExact(out: seq<Byte>, f: Frame, c: nat)
    requires f.Fits(|out|) && c < 3
    ensures var sum, count := AreaSum(out, f, c, f.height), f.width * f.height;
            && count < WORD
            && (count > 0 ==> (Mean(U32(sum), U32(count)) == TrueAverage(out, f, c) <==> sum < WORD))
            && (count == 0 ==> Mean(U32(sum), U32(count)) == NotANumber == TrueAverage(out, f, c))
            && (count <= MAX_PIXELS ==> sum < WORD)
            && (0 < count <= MAX_PIXELS ==> 0.0 <= TrueAverage(out, f, c).v <= 255.0)
  {
    var sum, count := AreaSum(out, f, c, f.height), f.width * f.height;
    MulMonotone(f.width, f.stride, f.height);
    assert sum <= 255 * (f.height * f.width) && f.height * f.width == count;
    hide AreaSum, Frame.Fits;
    U32Small(count);
    if sum < WORD { U32Small(sum); }
    if count > 0 {
      MeanInjective(U32(sum), sum, count);
      MeanBounded(sum, count);
    }
  }

  /** Every buffer of this length averages to the truth, in every channel. */
  ghost predicate AlwaysExact(f: Frame, length: nat)
    requires f.Fits(length)
  {
    forall out: seq<Byte>, c: nat | |out| == length && c < 3 ::
      Mean(U32(AreaSum(out, f, c, f.height)), U32(f.width * f.height)) == TrueAverage(out, f, c)
  }

  // ---------------------------------------------------------------- which bytes count

  /** The byte of channel c of pixel x in row y. */
  predicate IsByte(f: Frame, c: nat, x: nat, y: nat, at: nat) {
    at == 4 * (y * f.stride + x) + c
  }

  predicate RowCounts(f: Frame, c: nat, y: nat, n: nat, at: nat) {
    exists x: nat :: x < n && IsByte(f, c, x, y, at)
  }

  /** The byte belongs to channel c of a visible pixel of the first m rows. */
  predicate Counts(f: Frame, c: nat, m: nat, at: nat) {
    exists x: nat, y: nat :: x < f.width && y < m && IsByte(f, c, x, y, at)
  }

  lemma {:induction false} RowOfOneByte(out: seq<Byte>, f: Frame, c: nat, y: nat, n: nat, at: nat, b: Byte)
    requires f.Fits(|out|) && c < 3 && y < f.height && n <= f.width && at < |out|
    ensures RowSum(out[at := b], f, c, y, n) ==
            RowSum(out, f, c, y, n) + if RowCounts(f, c, y, n, at) then b - out[at] else 0
  {
    if n > 0 {
      RowOfOneByte(out, f, c, y, n - 1, at, b);
      InsideBuffer(f, |out|, n - 1, y);
      assert IsByte(f, c, n - 1, y, f.Offset(n - 1, y) + c);
      if IsByte(f, c, n - 1, y, at) {
        assert !RowCounts(f, c, y, n - 1, at);
        assert RowCounts(f, c, y, n, at);
      } else {
        assert RowCounts(f, c, y, n, at) <==> RowCounts(f, c, y, n - 1, at);
      }
      hide Frame.Fits, RowCounts;
    }
  }

  lemma RowsApart(x: nat, y: nat, x': nat, y': nat, stride: nat)
    requires x < stride && y < y'
    ensures y * stride + x < y' * stride + x'
  {
    MulMonotone(y + 1, y', stride);
    assert (y + 1) * stride == y * stride + stride;
  }

  /** One more row counts its own bytes, which no row before counts. */
  lemma CountsStep(f: Frame, length: nat, c: nat, m: nat, at: nat)
    requires f.Fits(length)
    ensures Counts(f, c, m + 1, at) <==> Counts(f, c, m, at) || RowCounts(f, c, m, f.width, at)
    ensures !(Counts(f, c, m, at) && RowCounts(f, c, m, f.width, at))
  {
    forall x: nat, y: nat, x': nat | x < f.width && x' < f.width && y < m
      ensures !(IsByte(f, c, x, y, at) && IsByte(f, c, x', m, at))
    {
      RowsApart(x, y, x', m, f.stride);
    }
    if x: nat :| x < f.width && IsByte(f, c, x, m, at) {
      assert Counts(f, c, m + 1, at);
    }
    hide IsByte;
  }

  lemma {:induction false} AreaOfOneByte(out: seq<Byte>, f: Frame, c: nat, m: nat, at: nat, b: Byte)
    requires f.Fits(|out|) && c < 3 && m <= f.height && at < |out|
    ensures AreaSum(out[at := b], f, c, m) == AreaSum(out, f, c, m) + if Counts(f, c, m, at) then b - out[at] else 0
  {
    if m > 0 {
      AreaOfOneByte(out, f, c, m - 1, at, b);
      RowOfOneByte(out, f, c, m - 1, f.width, at, b);
      CountsStep(f, |out|, c, m - 1, at);
      hide Frame.Fits, RowSum, Counts, RowCounts;
    }
  }

  lemma {:induction false} BlackRow(out: seq<Byte>, f: Frame, c: nat, y: nat, n: nat)
    requires f.Fits(|out|) && c < 3 && y < f.height && n <= f.width && forall i :: 0 <= i < |out| ==> out[i] == 0
    ensures RowSum(out, f, c, y, n) == 0
  {
    if n > 0 {
      BlackRow(out, f, c, y, n - 1);
      InsideBuffer(f, |out|, n - 1, y);
    }
  }

  /** A black buffer sums to 0. As changing a byte moves the sum of its channel by exactly the change if
      it belongs to a visible pixel, and by nothing if not, this says what the sum of any buffer is. */
  lemma {:induction false} BlackArea(out: seq<Byte>, f: Frame, c: nat, m: nat)
    requires f.Fits(|out|) && c < 3 && m <= f.height && forall i :: 0 <= i < |out| ==> out[i] == 0
    ensures AreaSum(out, f, c, m) == 0
  {
    if m > 0 {
      BlackArea(out, f, c, m - 1);
      BlackRow(out, f, c, m - 1, f.width);
    }
  }

  function White(length: nat): seq<Byte> {
    seq(length, _ => 255)
  }

  lemma {:induction false} WhiteRow(f: Frame, length: nat, c: nat, y: nat, n: nat)
    requires f.Fits(length) && c < 3 && y < f.height && n <= f.width
    ensures RowSum(White(length), f, c, y, n) == 255 * n
  {
    if n > 0 {
      WhiteRow(f, length, c, y, n - 1);
      InsideBuffer(f, length, n - 1, y);
    }
  }

  lemma {:induction false} WhiteArea(f: Frame, length: nat, c: nat, m: nat)
    requires f.Fits(length) && c < 3 && m <= f.height
    ensures AreaSum(White(length), f, c, m) == 255 * (m * f.width)
  {
    if m > 0 {
      WhiteArea(f, length, c, m - 1);
      WhiteRow(f, length, c, m - 1, f.width);
      assert 255 * (m * f.width) == 255 * ((m - 1) * f.width) + 255 * f.width;
    }
  }

  /** The size of the area alone decides: the averages are true for every buffer if and only if there
      are at most MAX_PIXELS visible pixels. From there on a white screen wraps the sums. */
  lemma AlwaysExactUpTo(f: Frame, length: nat)
    requires f.Fits(length)
    ensures AlwaysExact(f, length) <==> f.width * f.height <= MAX_PIXELS
  {
    if f.width * f.height <= MAX_PIXELS {
      forall out: seq<Byte>, c: nat | |out| == length && c < 3
        ensures Mean(U32(AreaSum(out, f, c, f.height)), U32(f.width * f.height)) == TrueAverage(out, f, c)
      {
        AverageExact(out, f, c);
      }
    } else {
      var out := White(length);
      WhiteArea(f, length, 0, f.height);
      assert f.height * f.width == f.width * f.height;
      AverageExact(out, f, 0);
      hide AreaSum, Mean, U32;
    }
  }

  lemma MeanInjective(a: nat, b: nat, count: nat)
    requires count > 0
    ensures Mean(a, count) == Mean(b, count) <==> a == b
  {
    var n := count as real;
    if a as real / n == b as real / n {
      assert (a as real / n) * n == a as real;
      assert (b as real / n) * n == b as real;
    }
  }

  lemma MeanBounded(sum: nat, count: nat)
    requires count > 0 && sum <= 255 * count
    ensures 0.0 <= Mean(sum, count).v <= 255.0
  {
    var v, n := sum as real / count as real, count as real;
    assert v * n == sum as real <= 255.0 * n;
    assert v > 255.0 ==> v * n > 255.0 * n;
    assert v < 0.0 ==> v * n < 0.0;
  }

  /** Stride padding does not matter: frames with the same visible pixels have the same sums. */
  lemma {:induction false} RowIgnoresPadding(out: seq<Byte>, f: Frame, out': seq<Byte>, f': Frame, c: nat, y: nat, n: nat)
    requires f.Fits(|out|) && f'.Fits(|out'|) && f'.width == f.width && f'.height == f.height
    requires c < 3 && y < f.height && n <= f.width
    requires SamePixels(out, f, out', f', c)
    ensures RowSum(out, f, c, y, n) == RowSum(out', f', c, y, n)
  {
    if n > 0 {
      RowIgnoresPadding(out, f, out', f', c, y, n - 1);
      assert Pixel(out, f, c, n - 1, y) == Pixel(out', f', c, n - 1, y);
    }
  }

  function Pixel(out: seq<Byte>, f: Frame, c: nat, x: nat, y: nat): Byte
    requires f.Fits(|out|) && c < 3 && x < f.width && y < f.height
  {
    InsideBuffer(f, |out|, x, y);
    out[f.Offset(x, y) + c]
  }

  predicate SamePixels(out: seq<Byte>, f: Frame, out': seq<Byte>, f': Frame, c: nat)
    requires f.Fits(|out|) && f'.Fits(|out'|) && f'.width == f.width && f'.height == f.height && c < 3
  {
    forall x: nat, y: nat :: x < f.width && y < f.height ==> Pixel(out, f, c, x, y) == Pixel(out', f', c, x, y)
  }

  lemma {:induction false} SumIgnoresPadding(out: seq<Byte>, f: Frame, out': seq<Byte>, f': Frame, c: nat, m: nat)
    requires f.Fits(|out|) && f'.Fits(|out'|) && f'.width == f.width && f'.height == f.height
    requires c < 3 && m <= f.height && SamePixels(out, f, out', f', c)
    ensures AreaSum(out, f, c, m) == AreaSum(out', f', c, m)
  {
    if m > 0 {
      SumIgnoresPadding(out, f, out', f', c, m - 1);
      RowIgnoresPadding(out, f, out', f', c, m - 1, f.width);
    }
  }
}
