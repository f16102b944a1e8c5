/**
  Bilinear resizing of 8-bit RGB/RGBA buffers: the scalar loop, the SSE2 loop that blends four lanes
  at once, and what both compute.  Values are exact; binary32 rounding is considered only for the
  source coordinates, in the second half.
 */
module BilinearResize {
  import opened RealMath

  type Byte = b: int | 0 <= b < 256

  /** Sizes of source and destination and the number of channels. */
  datatype Shape = Shape(srcW: int, srcH: int, channels: int, dstW: int, dstH: int) {
    predicate Positive() {
      srcW > 0 && srcH > 0 && dstW > 0 && dstH > 0 && channels > 0
    }

    function SrcSize(): int { srcW * srcH * channels }

    function DstSize(): int { dstW * dstH * channels }
  }

  // ---------------------------------------------------------------------------------------
  // Source coordinates
  // ---------------------------------------------------------------------------------------

  /** dst index times (src size / dst size). */
  function Coord(i: int, src: int, dst: int): real
    requires dst > 0
  {
    Mul(i as real, Div(src as real, dst as real))
  }

  /** Every coordinate falls in the source, so its integer part is a valid row or column. */
  lemma CoordInBounds(i: int, src: int, dst: int)
    requires 0 <= i < dst && src > 0
    ensures 0.0 <= Coord(i, src, dst) < src as real
    ensures 0 <= Coord(i, src, dst).Floor < src
  {
    hide Mul, Div;
    var ratio := Div(src as real, dst as real);
    DivPositive(dst as real, src as real);
    MulDiv(dst as real, src as real);
    MulCommutes(dst as real, ratio);
    MulCommutes(i as real, ratio);
    MulStrict(ratio, i as real, dst as real);
    MulUnits(ratio);
    MulMonotone(ratio, 0.0, i as real);
  }

  /** The lower and upper neighbour of a coordinate and the weight of the upper one. */
  datatype Sample = Sample(low: int, high: int, frac: real)

  function SampleAt(i: int, src: int, dst: int): Sample
    requires dst > 0
  {
    var coord := Coord(i, src, dst);
    var low := coord.Floor;
    Sample(low, if low + 1 <= src - 1 then low + 1 else src - 1, coord - low as real)
  }

  lemma SampleInBounds(i: int, src: int, dst: int)
    requires 0 <= i < dst && src > 0
    ensures
      var s := SampleAt(i, src, dst);
      0 <= s.low < src && 0 <= s.high < src && 0.0 <= s.frac < 1.0
  {
    CoordInBounds(i, src, dst);
  }

  // ---------------------------------------------------------------------------------------
  // Pixel values
  // ---------------------------------------------------------------------------------------

  /** The scalar form: a + f (b - a). */
  function Lerp(a: real, b: real, f: real): real {
    a + Mul(f, b - a)
  }

  /** The SSE2 form: a (1 - f) + b f. */
  function Blend(a: real, b: real, f: real): real {
    Mul(a, 1.0 - f) + Mul(b, f)
  }

  lemma BlendIsLerp(a: real, b: real, f: real)
    ensures Blend(a, b, f) == Lerp(a, b, f)
  {
  }

  /** The four corner values around a source position. */
  datatype Corners = Corners(topLeft: Byte, topRight: Byte, botLeft: Byte, botRight: Byte)

  function ScalarValue(k: Corners, fx: real, fy: real): real {
    var top := Lerp(k.topLeft as real, k.topRight as real, fx);
    var bottom := Lerp(k.botLeft as real, k.botRight as real, fx);
    Lerp(top, bottom, fy)
  }

  function SimdValue(k: Corners, fx: real, fy: real): real {
    var top := Blend(k.topLeft as real, k.topRight as real, fx);
    var bottom := Blend(k.botLeft as real, k.botRight as real, fx);
    Blend(top, bottom, fy)
  }

  /** Clamp to [0, 255] and truncate. */
  function ToByte(value: real): Byte {
    if value <= 0.0 then 0 else if value >= 255.0 then 255 else value.Floor
  }

  /** In exact arithmetic the two forms compute the same value. */
  lemma SimdIsScalar(k: Corners, fx: real, fy: real)
    ensures SimdValue(k, fx, fy) == ScalarValue(k, fx, fy)
  {
    hide Blend, Lerp;
    BlendIsLerp(k.topLeft as real, k.topRight as real, fx);
    BlendIsLerp(k.botLeft as real, k.botRight as real, fx);
    BlendIsLerp(Lerp(k.topLeft as real, k.topRight as real, fx), Lerp(k.botLeft as real, k.botRight as real, fx), fy);
  }

  /** The textbook form: each corner weighs the area of the rectangle opposite it. */
  function WeightedSum(k: Corners, fx: real, fy: real): real {
    Mul(Mul(1.0 - fx, 1.0 - fy), k.topLeft as real) + Mul(Mul(fx, 1.0 - fy), k.topRight as real)
    + Mul(Mul(1.0 - fx, fy), k.botLeft as real) + Mul(Mul(fx, fy), k.botRight as real)
  }

  lemma LerpAsProducts(a: real, b: real, f: real)
    ensures Lerp(a, b, f) == Mul(1.0 - f, a) + Mul(f, b)
  {
  }

  lemma MulSum(a: real, b: real, c: real)
    ensures Mul(a, b + c) == Mul(a, b) + Mul(a, c)
  {
  }

  /** Both forms are the weighted mean of the four corners. */
  lemma ValueIsWeightedSum(k: Corners, fx: real, fy: real)
    ensures ScalarValue(k, fx, fy) == WeightedSum(k, fx, fy) == SimdValue(k, fx, fy)
  {
    SimdIsScalar(k, fx, fy);
    hide Mul, Lerp, SimdValue;
    var tl, tr, bl, br := k.topLeft as real, k.topRight as real, k.botLeft as real, k.botRight as real;
    var gx, gy := 1.0 - fx, 1.0 - fy;
    LerpAsProducts(tl, tr, fx);
    LerpAsProducts(bl, br, fx);
    LerpAsProducts(Lerp(tl, tr, fx), Lerp(bl, br, fx), fy);
    MulSum(gy, Mul(gx, tl), Mul(fx, tr));
    MulSum(fy, Mul(gx, bl), Mul(fx, br));
    MulAssociates(gy, gx, tl);
    MulAssociates(gy, fx, tr);
    MulAssociates(fy, gx, bl);
    MulAssociates(fy, fx, br);
    MulCommutes(gy, gx);
    MulCommutes(gy, fx);
    MulCommutes(fy, gx);
    MulCommutes(fy, fx);
  }

  lemma LerpBetween(a: real, b: real, f: real, least: real, greatest: real)
    requires 0.0 <= f <= 1.0 && least <= a <= greatest && least <= b <= greatest
    ensures least <= Lerp(a, b, f) <= greatest
  {
    hide Mul;
    MulCommutes(f, b - a);
    if a <= b {
      MulMonotone(b - a, 0.0, f);
      MulMonotone(b - a, f, 1.0);
      MulUnits(b - a);
    } else {
      LerpSwap(a, b, f);
      MulCommutes(1.0 - f, a - b);
      MulMonotone(a - b, 0.0, 1.0 - f);
      MulMonotone(a - b, 1.0 - f, 1.0);
      MulUnits(a - b);
    }
  }

  lemma LerpSwap(a: real, b: real, f: real)
    ensures Lerp(a, b, f) == b + Mul(1.0 - f, a - b)
  {
  }

  function Least(k: Corners): int {
    var a := if k.topLeft <= k.topRight then k.topLeft else k.topRight;
    var b := if k.botLeft <= k.botRight then k.botLeft else k.botRight;
    if a <= b then a else b
  }

  function Greatest(k: Corners): int {
    var a := if k.topLeft >= k.topRight then k.topLeft else k.topRight;
    var b := if k.botLeft >= k.botRight then k.botLeft else k.botRight;
    if a >= b then a else b
  }

  /** The value lies between the least and the greatest corner, so the clamp never acts. */
  lemma ValueBetweenCorners(k: Corners, fx: real, fy: real)
    requires 0.0 <= fx <= 1.0 && 0.0 <= fy <= 1.0
    ensures Least(k) as real <= ScalarValue(k, fx, fy) <= Greatest(k) as real
    ensures Least(k) <= ToByte(ScalarValue(k, fx, fy)) <= Greatest(k)
    ensures ToByte(ScalarValue(k, fx, fy)) == ScalarValue(k, fx, fy).Floor
  {
    hide Lerp;
    var least, greatest := Least(k) as real, Greatest(k) as real;
    LerpBetween(k.topLeft as real, k.topRight as real, fx, least, greatest);
    LerpBetween(k.botLeft as real, k.botRight as real, fx, least, greatest);
    LerpBetween(Lerp(k.topLeft as real, k.topRight as real, fx), Lerp(k.botLeft as real, k.botRight as real, fx),
                fy, least, greatest);
  }

  // ---------------------------------------------------------------------------------------
  // The image both loops compute
  // ---------------------------------------------------------------------------------------

  /** Offset of a channel of a pixel in a row-major interleaved buffer. */
  function Offset(w: int, channels: int, row: int, col: int, chan: int): int {
    (row * w + col) * channels + chan
  }

  lemma IntMulMonotone(a: int, b: int, c: int)
    requires a <= b && c >= 0
    ensures a * c <= b * c
  {
  }

  lemma OffsetInBounds(w: int, h: int, channels: int, row: int, col: int, chan: int)
    requires 0 <= row < h && 0 <= col < w && 0 <= chan < channels
    ensures 0 <= row * w + col < w * h
    ensures 0 <= Offset(w, channels, row, col, chan) < w * h * channels
  {
    var pixel, pixels := row * w + col, w * h;
    IntMulMonotone(0, row, w);
    IntMulMonotone(row, h - 1, w);
    assert (h - 1) * w == pixels - w;
    assert 0 <= pixel <= pixels - 1;
    IntMulMonotone(0, pixel, channels);
    IntMulMonotone(pixel, pixels - 1, channels);
    assert (pixels - 1) * channels == pixels * channels - channels;
  }

  lemma DivModOf(q: int, d: int, r: int)
    requires 0 <= r < d
    ensures (q * d + r) / d == q && (q * d + r) % d == r
  {
    var n := q * d + r;
    var k := n / d - q;
    assert n == (n / d) * d + n % d;
    assert k * d == r - n % d;
    if k >= 1 {
      IntMulMonotone(1, k, d);
      assert false;
    } else if k <= -1 {
      IntMulMonotone(k, -1, d);
      assert false;
    }
  }

  predicate Fits(src: seq<Byte>, shape: Shape) {
    shape.Positive() && |src| == shape.SrcSize()
  }

  function Read(src: seq<Byte>, shape: Shape, row: int, col: int, chan: int): Byte
    requires Fits(src, shape) && 0 <= row < shape.srcH && 0 <= col < shape.srcW && 0 <= chan < shape.channels
  {
    OffsetInBounds(shape.srcW, shape.srcH, shape.channels, row, col, chan);
    src[Offset(shape.srcW, shape.channels, row, col, chan)]
  }

  function CornersAt(src: seq<Byte>, shape: Shape, y: int, x: int, chan: int): Corners
    requires Fits(src, shape) && 0 <= y < shape.dstH && 0 <= x < shape.dstW && 0 <= chan < shape.channels
  {
    SampleInBounds(y, shape.srcH, shape.dstH);
    SampleInBounds(x, shape.srcW, shape.dstW);
    var row, col := SampleAt(y, shape.srcH, shape.dstH), SampleAt(x, shape.srcW, shape.dstW);
    Corners(Read(src, shape, row.low, col.low, chan), Read(src, shape, row.low, col.high, chan),
            Read(src, shape, row.high, col.low, chan), Read(src, shape, row.high, col.high, chan))
  }

  /** The resized value of one channel of one destination pixel. */
  function Pixel(src: seq<Byte>, shape: Shape, y: int, x: int, chan: int): Byte
    requires Fits(src, shape) && 0 <= y < shape.dstH && 0 <= x < shape.dstW && 0 <= chan < shape.channels
  {
    ToByte(ScalarValue(CornersAt(src, shape, y, x, chan),
                       SampleAt(x, shape.srcW, shape.dstW).frac, SampleAt(y, shape.srcH, shape.dstH).frac))
  }

  /** The resized image, byte by byte. */
  function Resized(src: seq<Byte>, shape: Shape): (dst: seq<Byte>)
    requires Fits(src, shape)
    ensures |dst| == shape.DstSize()
  {
    SizesPositive(shape);
    seq(shape.DstSize(), at requires 0 <= at < shape.DstSize() => ByteAt(src, shape, at))
  }

  function ByteAt(src: seq<Byte>, shape: Shape, at: int): Byte
    requires Fits(src, shape) && 0 <= at < shape.DstSize()
  {
    DecodeInBounds(shape, at);
    Pixel(src, shape, at / shape.channels / shape.dstW, at / shape.channels % shape.dstW, at % shape.channels)
  }

  lemma SizesPositive(shape: Shape)
    requires shape.Positive()
    ensures shape.DstSize() >= 0
  {
    IntMulMonotone(0, shape.dstW, shape.dstH);
    IntMulMonotone(0, shape.dstW * shape.dstH, shape.channels);
  }

  lemma DecodeInBounds(shape: Shape, at: int)
    requires shape.Positive() && 0 <= at < shape.DstSize()
    ensures 0 <= at / shape.channels / shape.dstW < shape.dstH
    ensures 0 <= at / shape.channels % shape.dstW < shape.dstW
    ensures 0 <= at % shape.channels < shape.channels
  {
    var pixel := at / shape.channels;
    QuotientBelow(at, shape.channels, shape.dstW * shape.dstH);
    assert shape.dstW * shape.dstH == shape.dstH * shape.dstW;
    QuotientBelow(pixel, shape.dstW, shape.dstH);
  }

  lemma QuotientBelow(n: int, d: int, bound: int)
    requires d > 0 && 0 <= n < bound * d
    ensures 0 <= n / d < bound
  {
    var q := n / d;
    assert n == q * d + n % d;
    if q >= bound {
      IntMulMonotone(bound, q, d);
      assert false;
    } else if q <= -1 {
      IntMulMonotone(q, -1, d);
      assert false;
    }
  }

  /** Channel chan of pixel (y, x) of the resized image is the interpolated value. */
  lemma {:induction false} ResizedAt(src: seq<Byte>, shape: Shape, y: int, x: int, chan: int)
    requires Fits(src, shape) && 0 <= y < shape.dstH && 0 <= x < shape.dstW && 0 <= chan < shape.channels
    ensures
      var at := Offset(shape.dstW, shape.channels, y, x, chan);
      0 <= at < shape.DstSize() && Resized(src, shape)[at] == Pixel(src, shape, y, x, chan)
  {
    hide Pixel;
    OffsetInBounds(shape.dstW, shape.dstH, shape.channels, y, x, chan);
    DivModOf(y * shape.dstW + x, shape.channels, chan);
    DivModOf(y, shape.dstW, x);
  }

  // ---------------------------------------------------------------------------------------
  // A closed form in integers
  // ---------------------------------------------------------------------------------------

  /** A real number given as a quotient of integers. */
  lemma FloorOfQuotient(x: real, n: int, d: int)
    requires d > 0 && Mul(x, d as real) == n as real
    ensures x.Floor == n / d && Mul(x - (n / d) as real, d as real) == (n % d) as real
  {
    var q, r := n / d, n % d;
    assert n == q * d + r;
    var f := x - q as real;
    assert Mul(f, d as real) == Mul(x, d as real) - Mul(q as real, d as real);
    assert Mul(q as real, d as real) == (q * d) as real;
    assert Mul(f, d as real) == r as real;
    FractionBounds(f, r, d);
  }

  lemma FractionBounds(f: real, r: int, d: int)
    requires 0 <= r < d && Mul(f, d as real) == r as real
    ensures 0.0 <= f < 1.0
  {
    hide Mul;
    MulCommutes(f, d as real);
    MulUnits(d as real);
    if f < 0.0 {
      MulStrict(d as real, f, 0.0);
    }
    if f >= 1.0 {
      MulMonotone(d as real, 1.0, f);
    }
  }

  /** The sample of an index: quotient and remainder of index times source size by destination size. */
  lemma SampleIsQuotient(i: int, src: int, dst: int)
    requires 0 <= i < dst && src > 0
    ensures
      var s, c := SampleAt(i, src, dst), i * src / dst;
      && s.low == c && s.high == (if c + 1 <= src - 1 then c + 1 else src - 1)
      && Mul(s.frac, dst as real) == (i * src % dst) as real
  {
    var coord, ratio := Coord(i, src, dst), Div(src as real, dst as real);
    hide Div;
    MulDiv(dst as real, src as real);
    MulAssociates(i as real, ratio, dst as real);
    MulCommutes(ratio, dst as real);
    assert Mul(i as real, src as real) == (i * src) as real;
    FloorOfQuotient(coord, i * src, dst);
  }

  /** One corner's share, scaled to integers. */
  lemma ScaledTerm(a: real, b: real, corner: int, w: int, h: int, x: int, y: int)
    requires Mul(a, w as real) == x as real && Mul(b, h as real) == y as real
    ensures Mul(Mul(Mul(a, b), corner as real), (w * h) as real) == (x * y * corner) as real
  {
    assert Mul(Mul(Mul(a, b), corner as real), (w * h) as real) == (a * w as real) * (b * h as real) * corner as real;
    assert (x as real * y as real) * corner as real == (x * y * corner) as real;
  }

  lemma Complement(f: real, d: int, r: int)
    requires Mul(f, d as real) == r as real
    ensures Mul(1.0 - f, d as real) == (d - r) as real
  {
  }

  lemma MulFourSum(a: real, b: real, c: real, d: real, k: real)
    ensures Mul(a + b + c + d, k) == Mul(a, k) + Mul(b, k) + Mul(c, k) + Mul(d, k)
  {
  }

  /** The weighted mean of the corners, as a quotient of integers. */
  lemma WeightedQuotient(k: Corners, fx: real, fy: real, w: int, h: int, rx: int, ry: int)
    requires w > 0 && h > 0 && Mul(fx, w as real) == rx as real && Mul(fy, h as real) == ry as real
    ensures
      Mul(WeightedSum(k, fx, fy), (w * h) as real)
      == ((w - rx) * (h - ry) * k.topLeft + rx * (h - ry) * k.topRight
          + (w - rx) * ry * k.botLeft + rx * ry * k.botRight) as real
  {
    hide Mul;
    Complement(fx, w, rx);
    Complement(fy, h, ry);
    ScaledTerm(1.0 - fx, 1.0 - fy, k.topLeft, w, h, w - rx, h - ry);
    ScaledTerm(fx, 1.0 - fy, k.topRight, w, h, rx, h - ry);
    ScaledTerm(1.0 - fx, fy, k.botLeft, w, h, w - rx, ry);
    ScaledTerm(fx, fy, k.botRight, w, h, rx, ry);
    MulFourSum(Mul(Mul(1.0 - fx, 1.0 - fy), k.topLeft as real), Mul(Mul(fx, 1.0 - fy), k.topRight as real),
               Mul(Mul(1.0 - fx, fy), k.botLeft as real), Mul(Mul(fx, fy), k.botRight as real), (w * h) as real);
  }

  /** The mean of four bytes weighed by the remainders' distance to the opposite corner, rounded down. */
  function Mean(w: int, h: int, rx: int, ry: int, tl: int, tr: int, bl: int, br: int): int {
    if w * h == 0 then 0
    else ((w - rx) * (h - ry) * tl + rx * (h - ry) * tr + (w - rx) * ry * bl + rx * ry * br) / (w * h)
  }

  /** The byte that the corners and the remainders give. */
  lemma ByteOfCorners(k: Corners, fx: real, fy: real, w: int, h: int, rx: int, ry: int)
    requires w > 0 && h > 0 && 0.0 <= fx <= 1.0 && 0.0 <= fy <= 1.0
    requires Mul(fx, w as real) == rx as real && Mul(fy, h as real) == ry as real
    ensures ToByte(ScalarValue(k, fx, fy)) == Mean(w, h, rx, ry, k.topLeft, k.topRight, k.botLeft, k.botRight)
  {
    hide Mul, ScalarValue, SimdValue, WeightedSum, ToByte;
    assert w * h > 0 by { IntMulMonotone(1, w, h); }
    ValueBetweenCorners(k, fx, fy);
    ValueIsWeightedSum(k, fx, fy);
    WeightedQuotient(k, fx, fy, w, h, rx, ry);
    FloorOfQuotient(WeightedSum(k, fx, fy), (w - rx) * (h - ry) * k.topLeft + rx * (h - ry) * k.topRight
                                            + (w - rx) * ry * k.botLeft + rx * ry * k.botRight, w * h);
  }

  /**
    The whole resize in integers: with the quotients and remainders of x * srcW by dstW and y * srcH by
    dstH, every byte of the result is the mean of the four source bytes around that position, the right
    and lower ones no further than the edge, each weighed by the remainders' distance to the opposite
    corner, and rounded down.
   */
  lemma ResizedClosedForm(src: seq<Byte>, shape: Shape, y: int, x: int, chan: int)
    requires Fits(src, shape) && 0 <= y < shape.dstH && 0 <= x < shape.dstW && 0 <= chan < shape.channels
    ensures
      var sw, sh, dw, dh, n := shape.srcW, shape.srcH, shape.dstW, shape.dstH, shape.channels;
      var c, rx, r, ry := x * sw / dw, x * sw % dw, y * sh / dh, y * sh % dh;
      var c' := if c + 1 <= sw - 1 then c + 1 else sw - 1;
      var r' := if r + 1 <= sh - 1 then r + 1 else sh - 1;
      var tl, tr := (r * sw + c) * n + chan, (r * sw + c') * n + chan;
      var bl, br := (r' * sw + c) * n + chan, (r' * sw + c') * n + chan;
      var at := (y * dw + x) * n + chan;
      && 0 <= tl < |src| && 0 <= tr < |src| && 0 <= bl < |src| && 0 <= br < |src|
      && 0 <= at < |Resized(src, shape)|
      && Resized(src, shape)[at] == Mean(dw, dh, rx, ry, src[tl], src[tr], src[bl], src[br])
  {
    hide Resized, SampleAt, ScalarValue, ToByte, Mul;
    var row, col := SampleAt(y, shape.srcH, shape.dstH), SampleAt(x, shape.srcW, shape.dstW);
    SampleInBounds(y, shape.srcH, shape.dstH);
    SampleInBounds(x, shape.srcW, shape.dstW);
    SampleIsQuotient(y, shape.srcH, shape.dstH);
    SampleIsQuotient(x, shape.srcW, shape.dstW);
    OffsetInBounds(shape.srcW, shape.srcH, shape.channels, row.low, col.low, chan);
    OffsetInBounds(shape.srcW, shape.srcH, shape.channels, row.low, col.high, chan);
    OffsetInBounds(shape.srcW, shape.srcH, shape.channels, row.high, col.low, chan);
    OffsetInBounds(shape.srcW, shape.srcH, shape.channels, row.high, col.high, chan);
    ResizedAt(src, shape, y, x, chan);
    ByteOfCorners(CornersAt(src, shape, y, x, chan), col.frac, row.frac, shape.dstW, shape.dstH,
                  x * shape.srcW % shape.dstW, y * shape.srcH % shape.dstH);
  }

  // ---------------------------------------------------------------------------------------
  // The loops
  // ---------------------------------------------------------------------------------------

  /** The first k bytes are final, and were written once each, in order. */
  ghost predicate Progress(expected: seq<Byte>, dst: seq<Byte>, writes: seq<int>, k: int) {
    && 0 <= k <= |dst| == |expected|
    && dst[..k] == expected[..k]
    && |writes| == k && forall i :: 0 <= i < k ==> writes[i] == i
  }

  lemma ProgressOne(expected: seq<Byte>, dst: seq<Byte>, writes: seq<int>, k: int)
    requires Progress(expected, dst, writes, k) && k < |dst|
    ensures Progress(expected, dst[k := expected[k]], writes + [k], k + 1)
  {
    var dst' := dst[k := expected[k]];
    assert dst'[..k + 1] == dst[..k] + [expected[k]];
    assert expected[..k + 1] == expected[..k] + [expected[k]];
  }

  /** The innermost scalar loop: all channels of one destination pixel. */
  method ScalarPixel(src: array<Byte>, shape: Shape, dst: array<Byte>, y: int, x: int, row: Sample, col: Sample,
                     ghost writes: seq<int>) returns (ghost writes': seq<int>)
    requires src != dst && Fits(src[..], shape) && dst.Length == shape.DstSize()
    requires 0 <= y < shape.dstH && 0 <= x < shape.dstW
    requires row == SampleAt(y, shape.srcH, shape.dstH) && col == SampleAt(x, shape.srcW, shape.dstW)
    requires Progress(Resized(src[..], shape), dst[..], writes, Offset(shape.dstW, shape.channels, y, x, 0))
    modifies dst
    ensures Progress(Resized(src[..], shape), dst[..], writes',
                     Offset(shape.dstW, shape.channels, y, x, 0) + shape.channels)
  {
    hide Resized, Progress, SampleAt, ScalarValue, ToByte;
    ghost var expected := Resized(src[..], shape);
    SampleInBounds(y, shape.srcH, shape.dstH);
    SampleInBounds(x, shape.srcW, shape.dstW);
    writes' := writes;
    var chan := 0;
    while chan < shape.channels
      invariant 0 <= chan <= shape.channels
      invariant Progress(expected, dst[..], writes', Offset(shape.dstW, shape.channels, y, x, 0) + chan)
    {
      OffsetInBounds(shape.srcW, shape.srcH, shape.channels, row.low, col.low, chan);
      OffsetInBounds(shape.srcW, shape.srcH, shape.channels, row.low, col.high, chan);
      OffsetInBounds(shape.srcW, shape.srcH, shape.channels, row.high, col.low, chan);
      OffsetInBounds(shape.srcW, shape.srcH, shape.channels, row.high, col.high, chan);
      var corners := Corners(src[Offset(shape.srcW, shape.channels, row.low, col.low, chan)],
                             src[Offset(shape.srcW, shape.channels, row.low, col.high, chan)],
                             src[Offset(shape.srcW, shape.channels, row.high, col.low, chan)],
                             src[Offset(shape.srcW, shape.channels, row.high, col.high, chan)]);
      assert corners == CornersAt(src[..], shape, y, x, chan);
      var at := Offset(shape.dstW, shape.channels, y, x, chan);
      ResizedAt(src[..], shape, y, x, chan);
      ProgressOne(expected, dst[..], writes', at);
      dst[at] := ToByte(ScalarValue(corners, col.frac, row.frac));
      writes' := writes' + [at];
      chan := chan + 1;
    }
  }

  lemma NextPixel(shape: Shape, y: int, x: int)
    ensures Offset(shape.dstW, shape.channels, y, x, 0) + shape.channels
            == Offset(shape.dstW, shape.channels, y, x + 1, 0)
    ensures Offset(shape.dstW, shape.channels, y, shape.dstW, 0) == Offset(shape.dstW, shape.channels, y + 1, 0, 0)
    ensures Offset(shape.dstW, shape.channels, 0, 0, 0) == 0
    ensures Offset(shape.dstW, shape.channels, shape.dstH, 0, 0) == shape.DstSize()
  {
    assert (y * shape.dstW + x + 1) * shape.channels == (y * shape.dstW + x) * shape.channels + shape.channels;
    assert (y + 1) * shape.dstW == y * shape.dstW + shape.dstW;
    assert shape.dstH * shape.dstW == shape.dstW * shape.dstH;
  }

  /** bilinear_resize_scalar: dst becomes the resized image, each byte written exactly once. */
  method ScalarResize(src: array<Byte>, shape: Shape, dst: array<Byte>) returns (ghost writes: seq<int>)
    requires src != dst && Fits(src[..], shape) && dst.Length == shape.DstSize()
    modifies dst
    ensures dst[..] == Resized(src[..], shape)
    ensures |writes| == dst.Length && forall i :: 0 <= i < dst.Length ==> writes[i] == i
  {
    hide Resized, SampleAt, Offset;
    writes := [];
    ghost var expected := Resized(src[..], shape);
    NextPixel(shape, 0, 0);
    var y := 0;
    while y < shape.dstH
      invariant 0 <= y <= shape.dstH
      invariant Progress(expected, dst[..], writes, Offset(shape.dstW, shape.channels, y, 0, 0))
    {
      hide Progress;
      var row := SampleAt(y, shape.srcH, shape.dstH);
      var x := 0;
      while x < shape.dstW
        invariant 0 <= x <= shape.dstW
        invariant Progress(expected, dst[..], writes, Offset(shape.dstW, shape.channels, y, x, 0))
      {
        var col := SampleAt(x, shape.srcW, shape.dstW);
        writes := ScalarPixel(src, shape, dst, y, x, row, col, writes);
        NextPixel(shape, y, x);
        x := x + 1;
      }
      NextPixel(shape, y, x);
      y := y + 1;
    }
    assert dst[..] == dst[..dst.Length] && expected == expected[..dst.Length];
  }

  // Four float lanes, one per channel; a missing fourth channel is a zero lane.

  type Lanes = s: seq<real> | |s| == 4 witness [0.0, 0.0, 0.0, 0.0]

  /** load_pixel and unpack_u8x4_to_ps: `channels` bytes into the low lanes. */
  function LoadPixel(src: seq<Byte>, at: int, channels: int): Lanes
    requires 0 <= at && 0 <= channels <= 4 && at + channels <= |src|
  {
    seq(4, lane requires 0 <= lane < 4 => if lane < channels then src[at + lane] as real else 0.0)
  }

  function BlendLanes(a: Lanes, b: Lanes, f: real): Lanes {
    seq(4, lane requires 0 <= lane < 4 => Blend(a[lane], b[lane], f))
  }

  /** pack_ps_to_u8x4: clamp, truncate, narrow. */
  function PackLanes(v: Lanes): (packed: seq<Byte>)
    ensures |packed| == 4 && forall lane :: 0 <= lane < 4 ==> packed[lane] == ToByte(v[lane])
  {
    seq(4, lane requires 0 <= lane < 4 => ToByte(v[lane]))
  }

  /** Offset of the first channel of a pixel is in bounds with all its channels. */
  lemma PixelInBounds(w: int, h: int, channels: int, row: int, col: int)
    requires 0 <= row < h && 0 <= col < w && 0 < channels
    ensures 0 <= Offset(w, channels, row, col, 0)
    ensures Offset(w, channels, row, col, 0) + channels <= w * h * channels
    ensures forall chan :: Offset(w, channels, row, col, chan) == Offset(w, channels, row, col, 0) + chan
  {
    OffsetInBounds(w, h, channels, row, col, 0);
    OffsetInBounds(w, h, channels, row, col, channels - 1);
  }

  /** What lane `chan` of the blended vector is worth, given the four corner lanes. */
  lemma LaneValue(tl: Lanes, tr: Lanes, bl: Lanes, br: Lanes, fx: real, fy: real, k: Corners, chan: int)
    requires 0 <= chan < 4
    requires tl[chan] == k.topLeft as real && tr[chan] == k.topRight as real
    requires bl[chan] == k.botLeft as real && br[chan] == k.botRight as real
    ensures
      PackLanes(BlendLanes(BlendLanes(tl, tr, fx), BlendLanes(bl, br, fx), fy))[chan] == ToByte(ScalarValue(k, fx, fy))
  {
    hide Blend, ScalarValue, ToByte;
    SimdIsScalar(k, fx, fy);
  }

  /** The SSE2 loop body: one destination pixel, all channels at once, then a copy of `channels` bytes. */
  method SimdPixel(src: array<Byte>, shape: Shape, dst: array<Byte>, y: int, x: int, row: Sample, col: Sample,
                   ghost writes: seq<int>) returns (ghost writes': seq<int>)
    requires src != dst && Fits(src[..], shape) && dst.Length == shape.DstSize() && shape.channels <= 4
    requires 0 <= y < shape.dstH && 0 <= x < shape.dstW
    requires row == SampleAt(y, shape.srcH, shape.dstH) && col == SampleAt(x, shape.srcW, shape.dstW)
    requires Progress(Resized(src[..], shape), dst[..], writes, Offset(shape.dstW, shape.channels, y, x, 0))
    modifies dst
    ensures Progress(Resized(src[..], shape), dst[..], writes',
                     Offset(shape.dstW, shape.channels, y, x, 0) + shape.channels)
  {
    hide Resized, Progress, SampleAt, ScalarValue, ToByte, BlendLanes, PackLanes;
    ghost var expected, pixels := Resized(src[..], shape), src[..];
    var w, n := shape.srcW, shape.channels;
    SampleInBounds(y, shape.srcH, shape.dstH);
    SampleInBounds(x, shape.srcW, shape.dstW);
    PixelInBounds(w, shape.srcH, n, row.low, col.low);
    PixelInBounds(w, shape.srcH, n, row.low, col.high);
    PixelInBounds(w, shape.srcH, n, row.high, col.low);
    PixelInBounds(w, shape.srcH, n, row.high, col.high);
    PixelInBounds(shape.dstW, shape.dstH, n, y, x);
    hide Offset;
    var topLeft := LoadPixel(src[..], Offset(w, n, row.low, col.low, 0), n);
    var topRight := LoadPixel(src[..], Offset(w, n, row.low, col.high, 0), n);
    var botLeft := LoadPixel(src[..], Offset(w, n, row.high, col.low, 0), n);
    var botRight := LoadPixel(src[..], Offset(w, n, row.high, col.high, 0), n);
    var top := BlendLanes(topLeft, topRight, col.frac);
    var bottom := BlendLanes(botLeft, botRight, col.frac);
    var packed := PackLanes(BlendLanes(top, bottom, row.frac));
    var at := Offset(shape.dstW, n, y, x, 0);
    writes' := writes;
    var chan := 0;
    while chan < n
      invariant 0 <= chan <= n
      invariant Progress(expected, dst[..], writes', at + chan)
    {
      ghost var corners := CornersAt(src[..], shape, y, x, chan);
      LaneValue(topLeft, topRight, botLeft, botRight, col.frac, row.frac, corners, chan);
      ResizedAt(src[..], shape, y, x, chan);
      ProgressOne(expected, dst[..], writes', at + chan);
      dst[at + chan] := packed[chan];
      writes' := writes' + [at + chan];
      chan := chan + 1;
    }
  }

  /** bilinear_resize_sse2: the same image as the scalar loop, each byte written exactly once. */
  method SimdResize(src: array<Byte>, shape: Shape, dst: array<Byte>) returns (ghost writes: seq<int>)
    requires src != dst && Fits(src[..], shape) && dst.Length == shape.DstSize() && shape.channels <= 4
    modifies dst
    ensures dst[..] == Resized(src[..], shape)
    ensures |writes| == dst.Length && forall i :: 0 <= i < dst.Length ==> writes[i] == i
  {
    hide Resized, SampleAt, Offset;
    writes := [];
    ghost var expected := Resized(src[..], shape);
    NextPixel(shape, 0, 0);
    var y := 0;
    while y < shape.dstH
      invariant 0 <= y <= shape.dstH
      invariant Progress(expected, dst[..], writes, Offset(shape.dstW, shape.channels, y, 0, 0))
    {
      hide Progress;
      var row := SampleAt(y, shape.srcH, shape.dstH);
      var x := 0;
      while x < shape.dstW
        invariant 0 <= x <= shape.dstW
        invariant Progress(expected, dst[..], writes, Offset(shape.dstW, shape.channels, y, x, 0))
      {
        var col := SampleAt(x, shape.srcW, shape.dstW);
        writes := SimdPixel(src, shape, dst, y, x, row, col, writes);
        NextPixel(shape, y, x);
        x := x + 1;
      }
      NextPixel(shape, y, x);
      y := y + 1;
    }
    assert dst[..] == dst[..dst.Length] && expected == expected[..dst.Length];
  }

  datatype Result = Image(pixels: seq<Byte>) | InvalidArgument(message: string)

  /** bilinear_resize: reject bad arguments, allocate the output, run one of the two loops. */
  method Resize(src: array<Byte>, shape: Shape, sse2: bool) returns (r: Result)
    ensures r.Image? <==>
              (shape.channels == 3 || shape.channels == 4) && shape.Positive() && src.Length == shape.SrcSize()
    ensures r.Image? ==> Fits(src[..], shape) && r.pixels == Resized(src[..], shape)
    ensures r.InvalidArgument? ==>
              r.message == if shape.channels != 3 && shape.channels != 4 then "channels must be 3 (RGB) or 4 (RGBA)"
                           else if !shape.Positive() then "dimensions must be positive"
                           else "src buffer size mismatch"
  {
    if shape.channels != 3 && shape.channels != 4 {
      return InvalidArgument("channels must be 3 (RGB) or 4 (RGBA)");
    }
    if shape.srcW <= 0 || shape.srcH <= 0 || shape.dstW <= 0 || shape.dstH <= 0 {
      return InvalidArgument("dimensions must be positive");
    }
    if src.Length != shape.SrcSize() {
      return InvalidArgument("src buffer size mismatch");
    }
    SizesPositive(shape);
    var dst := new Byte[shape.DstSize()];
    if sse2 {
      ghost var writes := SimdResize(src, shape, dst);
    } else {
      ghost var writes := ScalarResize(src, shape, dst);
    }
    r := Image(dst[..]);
  }

  // ---------------------------------------------------------------------------------------
  // What resizing does to images
  // ---------------------------------------------------------------------------------------

  lemma CoordOfSameSize(i: int, n: int)
    requires 0 <= i < n
    ensures SampleAt(i, n, n).low == i && SampleAt(i, n, n).frac == 0.0
  {
    assert Div(n as real, n as real) == 1.0;
    MulUnits(i as real);
  }

  lemma ValueAtCorner(k: Corners)
    ensures ToByte(ScalarValue(k, 0.0, 0.0)) == k.topLeft
  {
    hide Mul;
    MulUnits(k.topRight as real - k.topLeft as real);
    MulUnits(k.botRight as real - k.botLeft as real);
    MulUnits(k.botLeft as real - k.topLeft as real);
  }

  lemma PixelCopied(src: seq<Byte>, shape: Shape, y: int, x: int, chan: int)
    requires Fits(src, shape) && shape.srcW == shape.dstW && shape.srcH == shape.dstH
    requires 0 <= y < shape.dstH && 0 <= x < shape.dstW && 0 <= chan < shape.channels
    ensures Pixel(src, shape, y, x, chan) == Read(src, shape, y, x, chan)
  {
    hide ScalarValue, ToByte, SampleAt, Read;
    CoordOfSameSize(y, shape.srcH);
    CoordOfSameSize(x, shape.srcW);
    ValueAtCorner(CornersAt(src, shape, y, x, chan));
  }

  lemma CopiesByte(src: seq<Byte>, shape: Shape, at: int)
    requires Fits(src, shape) && shape.srcW == shape.dstW && shape.srcH == shape.dstH && 0 <= at < |src|
    ensures shape.DstSize() == |src| && Resized(src, shape)[at] == src[at]
  {
    hide Pixel;
    DecodeInBounds(shape, at);
    var pixel, chan := at / shape.channels, at % shape.channels;
    var y, x := pixel / shape.dstW, pixel % shape.dstW;
    PixelCopied(src, shape, y, x, chan);
    assert pixel == y * shape.dstW + x && at == pixel * shape.channels + chan;
  }

  /** Resizing to the same size copies the image. */
  lemma {:induction false} SameSizeCopies(src: seq<Byte>, shape: Shape)
    requires Fits(src, shape) && shape.srcW == shape.dstW && shape.srcH == shape.dstH
    ensures Resized(src, shape) == src
  {
    hide Resized;
    forall at | 0 <= at < |src| ensures Resized(src, shape)[at] == src[at] {
      CopiesByte(src, shape, at);
    }
  }

  lemma ReadInRange(src: seq<Byte>, shape: Shape, least: int, greatest: int, row: int, col: int, chan: int)
    requires Fits(src, shape) && forall b <- src :: least <= b <= greatest
    requires 0 <= row < shape.srcH && 0 <= col < shape.srcW && 0 <= chan < shape.channels
    ensures least <= Read(src, shape, row, col, chan) <= greatest
  {
    OffsetInBounds(shape.srcW, shape.srcH, shape.channels, row, col, chan);
    hide Offset;
    assert src[Offset(shape.srcW, shape.channels, row, col, chan)] in src;
  }

  lemma PixelInRange(src: seq<Byte>, shape: Shape, least: int, greatest: int, y: int, x: int, chan: int)
    requires Fits(src, shape) && forall b <- src :: least <= b <= greatest
    requires 0 <= y < shape.dstH && 0 <= x < shape.dstW && 0 <= chan < shape.channels
    ensures least <= Pixel(src, shape, y, x, chan) <= greatest
  {
    hide ScalarValue, ToByte, SampleAt, Read;
    SampleInBounds(y, shape.srcH, shape.dstH);
    SampleInBounds(x, shape.srcW, shape.dstW);
    var row, col := SampleAt(y, shape.srcH, shape.dstH), SampleAt(x, shape.srcW, shape.dstW);
    ReadInRange(src, shape, least, greatest, row.low, col.low, chan);
    ReadInRange(src, shape, least, greatest, row.low, col.high, chan);
    ReadInRange(src, shape, least, greatest, row.high, col.low, chan);
    ReadInRange(src, shape, least, greatest, row.high, col.high, chan);
    ValueBetweenCorners(CornersAt(src, shape, y, x, chan),
                        SampleAt(x, shape.srcW, shape.dstW).frac, SampleAt(y, shape.srcH, shape.dstH).frac);
  }

  /** Every byte of the result lies between bounds that hold for the whole source. */
  lemma {:induction false} StaysInRange(src: seq<Byte>, shape: Shape, least: int, greatest: int)
    requires Fits(src, shape) && forall b <- src :: least <= b <= greatest
    ensures forall b <- Resized(src, shape) :: least <= b <= greatest
  {
    forall at | 0 <= at < shape.DstSize() ensures least <= Resized(src, shape)[at] <= greatest {
      hide Pixel;
      DecodeInBounds(shape, at);
      PixelInRange(src, shape, least, greatest, at / shape.channels / shape.dstW, at / shape.channels % shape.dstW,
                   at % shape.channels);
    }
  }

  /** A constant image stays constant. */
  lemma {:induction false} ConstantStaysConstant(src: seq<Byte>, shape: Shape, value: Byte)
    requires Fits(src, shape) && forall b <- src :: b == value
    ensures forall b <- Resized(src, shape) :: b == value
  {
    StaysInRange(src, shape, value, value);
  }

  // ---------------------------------------------------------------------------------------
  // Offsets in 32-bit int, as the scalar loop computes them
  // ---------------------------------------------------------------------------------------

  predicate IsInt32(n: int) { -0x8000_0000 <= n < 0x8000_0000 }

  /** No intermediate of the scalar loop's offset arithmetic overflows. */
  predicate OffsetArithmeticFits(w: int, channels: int, row: int, col: int, chan: int) {
    IsInt32(row * w) && IsInt32(row * w + col) && IsInt32((row * w + col) * channels)
    && IsInt32(Offset(w, channels, row, col, chan))
  }

  /** All offsets the scalar loop computes for one channel of one destination pixel. */
  predicate PixelArithmeticFits(shape: Shape, y: int, x: int, chan: int)
    requires shape.Positive()
  {
    var row, col := SampleAt(y, shape.srcH, shape.dstH), SampleAt(x, shape.srcW, shape.dstW);
    && OffsetArithmeticFits(shape.srcW, shape.channels, row.low, col.low, chan)
    && OffsetArithmeticFits(shape.srcW, shape.channels, row.low, col.high, chan)
    && OffsetArithmeticFits(shape.srcW, shape.channels, row.high, col.low, chan)
    && OffsetArithmeticFits(shape.srcW, shape.channels, row.high, col.high, chan)
    && OffsetArithmeticFits(shape.dstW, shape.channels, y, x, chan)
  }

  /** The furthest byte of the source that the loop reads. */
  function LastRead(shape: Shape): int
    requires shape.Positive()
  {
    Offset(shape.srcW, shape.channels, SampleAt(shape.dstH - 1, shape.srcH, shape.dstH).high,
           SampleAt(shape.dstW - 1, shape.srcW, shape.dstW).high, shape.channels - 1)
  }

  /**
    No offset that the scalar loop computes overflows int, exactly when the furthest source byte it reads
    is at an offset below 2^31 and the destination has at most 2^31 bytes.
   */
  lemma Int32OffsetsSafeExactly(shape: Shape)
    requires shape.Positive()
    ensures (forall y, x, chan :: 0 <= y < shape.dstH && 0 <= x < shape.dstW && 0 <= chan < shape.channels ==>
               PixelArithmeticFits(shape, y, x, chan))
            <==> LastRead(shape) < 0x8000_0000 && shape.DstSize() <= 0x8000_0000
  {
    hide SampleAt, Offset;
    if LastRead(shape) < 0x8000_0000 && shape.DstSize() <= 0x8000_0000 {
      forall y, x, chan | 0 <= y < shape.dstH && 0 <= x < shape.dstW && 0 <= chan < shape.channels
        ensures PixelArithmeticFits(shape, y, x, chan)
      {
        PixelOffsetsBounded(shape, y, x, chan);
      }
    } else {
      var y, x, chan := shape.dstH - 1, shape.dstW - 1, shape.channels - 1;
      LastOffset(shape.dstW, shape.dstH, shape.channels);
      assert !PixelArithmeticFits(shape, y, x, chan);
    }
  }

  lemma SampleMonotone(i: int, j: int, src: int, dst: int)
    requires 0 <= i <= j < dst && src > 0
    ensures SampleAt(i, src, dst).low <= SampleAt(i, src, dst).high <= SampleAt(j, src, dst).high
  {
    hide Mul, Div;
    SampleInBounds(i, src, dst);
    var ratio := Div(src as real, dst as real);
    DivPositive(dst as real, src as real);
    MulCommutes(i as real, ratio);
    MulCommutes(j as real, ratio);
    MulMonotone(ratio, i as real, j as real);
  }

  lemma OffsetMonotone(w: int, channels: int, row: int, col: int, chan: int, row': int, col': int, chan': int)
    requires w > 0 && channels > 0 && row <= row' && col <= col' && chan <= chan'
    ensures Offset(w, channels, row, col, chan) <= Offset(w, channels, row', col', chan')
  {
    IntMulMonotone(row, row', w);
    IntMulMonotone(row * w + col, row' * w + col', channels);
  }

  /** An offset no further than a bounded one is computed without overflow. */
  lemma BoundedOffsetFits(w: int, h: int, channels: int, row: int, col: int, chan: int, bound: int)
    requires 0 <= row < h && 0 <= col < w && 0 <= chan < channels
    requires Offset(w, channels, row, col, chan) <= bound < 0x8000_0000
    ensures OffsetArithmeticFits(w, channels, row, col, chan)
  {
    OffsetBounds(w, h, channels, row, col, chan);
  }

  lemma PixelOffsetsBounded(shape: Shape, y: int, x: int, chan: int)
    requires shape.Positive() && 0 <= y < shape.dstH && 0 <= x < shape.dstW && 0 <= chan < shape.channels
    requires LastRead(shape) < 0x8000_0000 && shape.DstSize() <= 0x8000_0000
    ensures PixelArithmeticFits(shape, y, x, chan)
  {
    hide SampleAt, Offset, OffsetArithmeticFits;
    var row, col := SampleAt(y, shape.srcH, shape.dstH), SampleAt(x, shape.srcW, shape.dstW);
    var lastRow, lastCol := SampleAt(shape.dstH - 1, shape.srcH, shape.dstH), SampleAt(shape.dstW - 1, shape.srcW, shape.dstW);
    var w, h, n := shape.srcW, shape.srcH, shape.channels;
    SampleInBounds(y, shape.srcH, shape.dstH);
    SampleInBounds(x, shape.srcW, shape.dstW);
    SampleMonotone(y, shape.dstH - 1, shape.srcH, shape.dstH);
    SampleMonotone(x, shape.dstW - 1, shape.srcW, shape.dstW);
    forall r, k | r in {row.low, row.high} && k in {col.low, col.high}
      ensures OffsetArithmeticFits(w, n, r, k, chan)
    {
      OffsetMonotone(w, n, r, k, chan, lastRow.high, lastCol.high, n - 1);
      BoundedOffsetFits(w, h, n, r, k, chan, LastRead(shape));
    }
    OffsetInBounds(shape.dstW, shape.dstH, n, y, x, chan);
    BoundedOffsetFits(shape.dstW, shape.dstH, n, y, x, chan, shape.DstSize() - 1);
  }

  lemma OffsetBounds(w: int, h: int, channels: int, row: int, col: int, chan: int)
    requires 0 <= row < h && 0 <= col < w && 0 <= chan < channels
    ensures 0 <= row * w <= row * w + col <= (row * w + col) * channels <= Offset(w, channels, row, col, chan)
    ensures Offset(w, channels, row, col, chan) < w * h * channels
  {
    var pixel := row * w + col;
    OffsetInBounds(w, h, channels, row, col, chan);
    IntMulMonotone(0, row, w);
    IntMulMonotone(1, channels, pixel);
    assert channels * pixel == pixel * channels;
  }

  lemma LastOffset(w: int, h: int, channels: int)
    ensures Offset(w, channels, h - 1, w - 1, channels - 1) == w * h * channels - 1
  {
    assert (h - 1) * w + w - 1 == w * h - 1;
    assert (w * h - 1) * channels == w * h * channels - channels;
  }

  // ---------------------------------------------------------------------------------------
  // Source coordinates in binary32
  // ---------------------------------------------------------------------------------------

  /** The unit roundoff of round-to-nearest binary32 (section 4.3.1 of IEEE 754-2019), 2^-24. */
  const ROUNDOFF := 1.0 / 16777216.0

  predicate Rounding(e: real) {
    -ROUNDOFF <= e <= ROUNDOFF
  }

  /** The coordinate with a relative error in the division and one in the multiplication. */
  function FloatCoord(i: int, src: int, dst: int, e1: real, e2: real): real
    requires dst > 0
  {
    Mul(Mul(i as real, Mul(Div(src as real, dst as real), 1.0 + e1)), 1.0 + e2)
  }

  /** i (q a) b is q (i (a b)). */
  lemma Regroup(i: real, q: real, a: real, b: real)
    ensures Mul(Mul(i, Mul(q, a)), b) == Mul(q, Mul(i, Mul(a, b)))
  {
  }

  lemma ErrorProduct(e1: real, e2: real)
    requires Rounding(e1) && Rounding(e2)
    ensures 0.0 <= Mul(1.0 + e1, 1.0 + e2) <= Mul(1.0 + ROUNDOFF, 1.0 + ROUNDOFF)
  {
    hide Mul;
    var a, b, top := 1.0 + e1, 1.0 + e2, 1.0 + ROUNDOFF;
    MulMonotone(a, b, top);
    MulCommutes(a, top);
    MulMonotone(top, a, top);
    MulMonotone(a, 0.0, b);
    MulUnits(a);
  }

  /** The worst case for the last index: it stays below dst up to 2^23 and no further. */
  lemma WorstCase(dst: int)
    requires dst > 0
    ensures Mul((dst - 1) as real, Mul(1.0 + ROUNDOFF, 1.0 + ROUNDOFF)) < dst as real <==> dst <= 8388608
  {
  }

  lemma FloatCoordInBounds(i: int, src: int, dst: int, e1: real, e2: real)
    requires 0 <= i < dst <= 8388608 && src > 0 && Rounding(e1) && Rounding(e2)
    ensures 0.0 <= FloatCoord(i, src, dst, e1, e2) < src as real
  {
    hide Mul, Div;
    var q, p, top := Div(src as real, dst as real), Mul(1.0 + e1, 1.0 + e2), Mul(1.0 + ROUNDOFF, 1.0 + ROUNDOFF);
    var last := (dst - 1) as real;
    Regroup(i as real, q, 1.0 + e1, 1.0 + e2);
    ErrorProduct(e1, e2);
    MulMonotone(i as real, 0.0, p);
    MulUnits(i as real);
    MulMonotone(i as real, p, top);
    MulCommutes(i as real, top);
    MulCommutes(last, top);
    MulMonotone(top, i as real, last);
    WorstCase(dst);
    DivPositive(dst as real, src as real);
    MulDiv(dst as real, src as real);
    MulCommutes(dst as real, q);
    MulMonotone(q, 0.0, Mul(i as real, p));
    MulUnits(q);
    MulStrict(q, Mul(i as real, p), dst as real);
  }

  /** Beyond 2^23 the last index can round out of the source. */
  lemma FloatCoordEscapes(src: int, dst: int)
    requires dst > 8388608 && src > 0
    ensures FloatCoord(dst - 1, src, dst, ROUNDOFF, ROUNDOFF) >= src as real
  {
    hide Mul, Div;
    var q, top, last := Div(src as real, dst as real), Mul(1.0 + ROUNDOFF, 1.0 + ROUNDOFF), (dst - 1) as real;
    Regroup(last, q, 1.0 + ROUNDOFF, 1.0 + ROUNDOFF);
    WorstCase(dst);
    DivPositive(dst as real, src as real);
    MulDiv(dst as real, src as real);
    MulCommutes(dst as real, q);
    MulMonotone(q, dst as real, Mul(last, top));
  }

  /**
    With sizes that binary32 holds exactly, the row and column indices stay in bounds under every
    rounding of the two operations exactly when the destination size is at most 2^23.
   */
  lemma FloatIndexSafeExactly(src: int, dst: int)
    requires 0 < src <= 16777216 && 0 < dst <= 16777216
    ensures (forall i, e1, e2 :: 0 <= i < dst && Rounding(e1) && Rounding(e2) ==>
               0 <= FloatCoord(i, src, dst, e1, e2).Floor < src)
            <==> dst <= 8388608
  {
    hide FloatCoord;
    if dst <= 8388608 {
      forall i, e1, e2 | 0 <= i < dst && Rounding(e1) && Rounding(e2)
        ensures 0 <= FloatCoord(i, src, dst, e1, e2).Floor < src
      {
        FloatCoordInBounds(i, src, dst, e1, e2);
      }
    } else {
      FloatCoordEscapes(src, dst);
      assert Rounding(ROUNDOFF);
    }
  }

  /**
    Rounding to nearest in binary32: r has a significand of 24 bits in units of `ulp`, and is nearer to x
    than any other multiple of the unit (section 4.3.1 of IEEE 754-2019).
   */
  predicate RoundsTo(x: real, r: real, significand: int, ulp: real) {
    8388608 <= significand <= 16777216 && r == significand as real * ulp && -ulp < 2.0 * (x - r) < ulp
  }

  /**
    The escape happens in binary32 itself: from one source column to 16777215 destination columns, the
    ratio rounds up to (1 + 2^-23) * 2^-24, the product for the last index rounds to 1, and the column
    computed is 1, outside the source.
   */
  lemma FloatIndexEscapes()
    ensures
      var src, dst, i := 1, 16777215, 16777214;
      var ratio, coord := 8388609.0 / 140737488355328.0, 1.0;
      && RoundsTo(src as real / dst as real, ratio, 8388609, 1.0 / 140737488355328.0)
      && RoundsTo(i as real * ratio, coord, 16777216, 1.0 / 16777216.0)
      && i < dst && coord.Floor >= src
  {
  }
}
