/** The pixel transforms of the canvas interceptor (content/modules/interceptors/canvas.js),
    as functions of the buffers they read and of the draws they consume. */
module CanvasNoise {
  import opened SeededStream
  import opened PixelGrid
  import opened JsValues

  /** The canvas part of the session profile. */
  datatype CanvasProfile = CanvasProfile(noise: real, offsetX: real, offsetY: real)

  // ---------------------------------------------------------------- clamp

  /** `Math.round`: the nearest integer, halves rounded up. */
  function Round(v: real): (n: int)
    ensures n as real - 0.5 <= v < n as real + 0.5
  {
    (v + 0.5).Floor
  }

  /** `clamp(value)`: `Math.round`, then clipped to [0, 255]. */
  function Clamp(v: real): (b: int)
    ensures IsByte(b)
  {
    var n := Round(v);
    if n < 0 then 0 else if n > 255 then 255 else n
  }

  /** `clamp(value)` is the byte nearest to `value`. */
  lemma ClampIsNearestByte(v: real, c: int)
    requires IsByte(c)
    ensures Abs(Clamp(v) as real - v) <= Abs(c as real - v)
  {
    var n := Round(v);
    if n < 0 {
      assert v < -0.5;
    } else if n > 255 {
      assert v >= 255.5;
    } else if c < n {
      assert c as real <= n as real - 1.0;
    } else if c > n {
      assert c as real >= n as real + 1.0;
    }
  }

  /** `clamp` leaves a value that already is a byte as it is. */
  lemma ClampKeepsBytes(n: int)
    requires IsByte(n)
    ensures Clamp(n as real) == n
  {
  }

  /** Adding `d` to a byte and clamping moves it by at most |d| + 1/2. */
  lemma ClampStaysNear(v: int, d: real)
    requires IsByte(v)
    ensures Abs(Clamp(v as real + d) as real - v as real) <= Abs(d) + 0.5
  {
  }

  // ---------------------------------------------------------------- noise values

  /** The noise a draw `r` contributes: `(rng() - 0.5) * noise * scale`
      (scale 255 for edge noise, 50 for image-data noise). */
  function Shift(r: Unit, noise: real, scale: real): (d: real)
    ensures 0.0 < noise && 0.0 < scale ==> (d < 0.0 <==> (r as real) < 0.5) && (d == 0.0 <==> r as real == 0.5)
  {
    (r as real - 0.5) * noise * scale
  }

  /** A shift is at most half of `noise * scale` in magnitude. */
  lemma ShiftBound(r: Unit, noise: real, scale: real)
    requires 0.0 <= noise && 0.0 <= scale
    ensures Abs(Shift(r, noise, scale)) <= noise * scale / 2.0
  {
    var k := noise * scale;
    assert 0.0 <= k;
    assert Shift(r, noise, scale) == (r as real - 0.5) * k;
    if r as real >= 0.5 {
      assert (r as real - 0.5) * k <= 0.5 * k;
    } else {
      assert (0.5 - r as real) * k <= 0.5 * k;
    }
  }

  // ---------------------------------------------------------------- applyImageDataNoise

  /** The byte `applyImageDataNoise` leaves at index i of a buffer: pixel i / 4 consumes draw
      `base + i / 4`, whose shift (scale 50) is added to its red, green and blue before
      clamping; alpha is kept. */
  function NoisyByte(data: seq<int>, src: nat -> Unit, base: nat, noise: real, i: nat): (b: int)
    requires i < |data|
    ensures i % 4 == 3 ==> b == data[i]
    ensures i % 4 < 3 ==> IsByte(b) && b == Clamp(data[i] as real + Shift(src(Advance(base, i / 4)), noise, 50.0))
  {
    if i % 4 == 3 then data[i] else Clamp(data[i] as real + Shift(src(Advance(base, i / 4)), noise, 50.0))
  }

  /** Byte c of pixel p sits at index 4p + c. */
  lemma PixelChannel(p: nat, c: nat)
    requires c < 4
    ensures (4 * p + c) / 4 == p && (4 * p + c) % 4 == c
  {
  }

  /** `applyImageDataNoise` on a buffer, byte by byte in index order. */
  function ImageNoised(data: seq<int>, src: nat -> Unit, base: nat, noise: real): (r: seq<int>)
    ensures |r| == |data|
    decreases |data|
  {
    if data == [] then []
    else ImageNoised(data[..|data| - 1], src, base, noise) + [NoisyByte(data, src, base, noise, |data| - 1)]
  }

  /** Every byte of the noised buffer is the `NoisyByte` of its index. */
  lemma {:induction false} ImageNoisedAt(data: seq<int>, src: nat -> Unit, base: nat, noise: real, i: nat)
    requires i < |data|
    ensures ImageNoised(data, src, base, noise)[i] == NoisyByte(data, src, base, noise, i)
    decreases |data|
  {
    if i < |data| - 1 {
      var prefix := data[..|data| - 1];
      ImageNoisedAt(prefix, src, base, noise, i);
      assert prefix[i] == data[i];
    }
  }

  /** Image-data noise never changes an alpha byte, and every colour byte it writes is a byte. */
  lemma ImageNoiseKeepsAlpha(data: seq<int>, src: nat -> Unit, base: nat, noise: real)
    ensures forall i | 0 <= i < |data| && i % 4 == 3 :: ImageNoised(data, src, base, noise)[i] == data[i]
    ensures forall i | 0 <= i < |data| && i % 4 < 3 :: IsByte(ImageNoised(data, src, base, noise)[i])
  {
    forall i | 0 <= i < |data| {
      ImageNoisedAt(data, src, base, noise, i);
    }
  }

  /** Image-data noise keeps a byte buffer a byte buffer, and moves no byte by more than
      25 * noise + 1/2. */
  lemma ImageNoiseBounded(data: seq<int>, src: nat -> Unit, base: nat, noise: real)
    requires Bytes(data) && 0.0 <= noise
    ensures Bytes(ImageNoised(data, src, base, noise))
    ensures forall i | 0 <= i < |data| ::
      Abs(ImageNoised(data, src, base, noise)[i] as real - data[i] as real) <= 25.0 * noise + 0.5
  {
    var r := ImageNoised(data, src, base, noise);
    ImageNoiseKeepsAlpha(data, src, base, noise);
    forall i | 0 <= i < |data|
      ensures Abs(r[i] as real - data[i] as real) <= 25.0 * noise + 0.5
    {
      ImageNoisedAt(data, src, base, noise, i);
      NoisyByteNear(data, src, base, noise, i);
    }
  }

  lemma NoisyByteNear(data: seq<int>, src: nat -> Unit, base: nat, noise: real, i: nat)
    requires i < |data| && IsByte(data[i]) && 0.0 <= noise
    ensures Abs(NoisyByte(data, src, base, noise, i) as real - data[i] as real) <= 25.0 * noise + 0.5
  {
    if i % 4 < 3 {
      var u := src(Advance(base, i / 4));
      var d := Shift(u, noise, 50.0);
      ShiftBound(u, noise, 50.0);
      ClampStaysNear(data[i], d);
    }
  }

  /** With a noise level of 0, image-data noise changes no byte. */
  lemma ZeroNoiseKeepsImage(data: seq<int>, src: nat -> Unit, base: nat)
    requires Bytes(data)
    ensures ImageNoised(data, src, base, 0.0) == data
  {
    var r := ImageNoised(data, src, base, 0.0);
    forall i | 0 <= i < |data| ensures r[i] == data[i] {
      ImageNoisedAt(data, src, base, 0.0, i);
      if i % 4 < 3 {
        assert Shift(src(Advance(base, i / 4)), 0.0, 50.0) == 0.0;
        ClampKeepsBytes(data[i]);
      }
    }
  }

  /** Part way through `applyImageDataNoise`: the first n pixels of `cur` hold their noised
      bytes and the others still hold the buffer's own. */
  predicate ImageNoisedUpTo(cur: seq<int>, data: seq<int>, src: nat -> Unit, base: nat, noise: real, n: nat)
  {
    && |cur| == |data|
    && (forall j | 0 <= j < 4 * n && j < |cur| :: cur[j] == NoisyByte(data, src, base, noise, j))
    && (forall j | 4 * n <= j < |cur| :: cur[j] == data[j])
  }

  /** One turn of `applyImageDataNoise`: pixel n, shifted by draw `base + n`, now holds its
      noised bytes. */
  lemma ImageNoiseStep(cur: seq<int>, next: seq<int>, data: seq<int>, src: nat -> Unit, base: nat, noise: real, n: nat)
    requires 4 * n + 3 < |data|
    requires ImageNoisedUpTo(cur, data, src, base, noise, n)
    requires next == PixelShifted(cur, n, Shift(src(Advance(base, n)), noise, 50.0))
    ensures ImageNoisedUpTo(next, data, src, base, noise, n + 1)
  {
    forall j | 4 * n <= j < 4 * n + 4 ensures next[j] == NoisyByte(data, src, base, noise, j) {
      assert j == 4 * n || j == 4 * n + 1 || j == 4 * n + 2 || j == 4 * n + 3;
      PixelChannel(n, j - 4 * n);
    }
  }

  /** At the end of `applyImageDataNoise` the buffer is `ImageNoised` of the buffer read. */
  lemma ImageNoisedAll(cur: seq<int>, data: seq<int>, src: nat -> Unit, base: nat, noise: real, n: nat)
    requires ImageNoisedUpTo(cur, data, src, base, noise, n) && |data| <= 4 * n
    ensures cur == ImageNoised(data, src, base, noise)
  {
    forall j | 0 <= j < |data| ensures cur[j] == ImageNoised(data, src, base, noise)[j] {
      ImageNoisedAt(data, src, base, noise, j);
    }
  }

  // ---------------------------------------------------------------- detectEdges

  /** Three times `getPixelBrightness(data, p)`: the sum of the pixel's red, green and blue. */
  function Brightness3(data: seq<int>, p: nat): int
    requires 4 * p + 3 <= |data|
  {
    data[4 * p] + data[4 * p + 1] + data[4 * p + 2]
  }

  /** `getPixelBrightness(data, p)`: the unweighted mean of red, green and blue. */
  function PixelBrightness(data: seq<int>, p: nat): (b: real)
    requires 4 * p + 3 <= |data|
    ensures Bytes(data) ==> 0.0 <= b <= 255.0
    ensures 3.0 * b == Brightness3(data, p) as real
  {
    (data[4 * p] + data[4 * p + 1] + data[4 * p + 2]) as real / 3.0
  }

  /** Three times the brightness of pixel (x, y). */
  function BrightnessAt(data: seq<int>, width: nat, height: nat, x: nat, y: nat): int
    requires |data| == 4 * (width * height)
    requires x < width && y < height
  {
    IdxInGrid(width, height, x, y);
    Brightness3(data, Idx(width, x, y))
  }

  /** The 3x3 neighbourhood of an interior pixel, row by row (tl tm tr, ml mm mr, bl bm br),
      each entry three times its brightness. */
  function Window(data: seq<int>, width: nat, height: nat, x: nat, y: nat): (w: seq<int>)
    requires |data| == 4 * (width * height)
    requires 1 <= x < width - 1 && 1 <= y < height - 1
    ensures |w| == 9
  {
    [BrightnessAt(data, width, height, x - 1, y - 1), BrightnessAt(data, width, height, x, y - 1),
     BrightnessAt(data, width, height, x + 1, y - 1),
     BrightnessAt(data, width, height, x - 1, y), BrightnessAt(data, width, height, x, y),
     BrightnessAt(data, width, height, x + 1, y),
     BrightnessAt(data, width, height, x - 1, y + 1), BrightnessAt(data, width, height, x, y + 1),
     BrightnessAt(data, width, height, x + 1, y + 1)]
  }

  /** The horizontal Sobel kernel [-1 0 1; -2 0 2; -1 0 1] and the vertical one
      [-1 -2 -1; 0 0 0; 1 2 1], row by row. */
  const SobelX: seq<int> := [-1, 0, 1, -2, 0, 2, -1, 0, 1]
  const SobelY: seq<int> := [-1, -2, -1, 0, 0, 0, 1, 2, 1]

  function Apply(k: seq<int>, w: seq<int>): int
    requires |k| == 9 && |w| == 9
  {
    k[0] * w[0] + k[1] * w[1] + k[2] * w[2] +
    k[3] * w[3] + k[4] * w[4] + k[5] * w[5] +
    k[6] * w[6] + k[7] * w[7] + k[8] * w[8]
  }

  /** Both Sobel kernels sum to 0, so a window of equal brightness has no gradient. */
  lemma FlatWindowHasNoGradient(w: seq<int>)
    requires |w| == 9
    requires forall i | 0 <= i < 9 :: w[i] == w[0]
    ensures Apply(SobelX, w) == 0 && Apply(SobelY, w) == 0
  {
  }

  /** 9 (gx² + gy²): the squared Sobel magnitude of an interior pixel, in the integer scale. */
  function GradientSq9(data: seq<int>, width: nat, height: nat, x: nat, y: nat): nat
    requires |data| == 4 * (width * height)
    requires 1 <= x < width - 1 && 1 <= y < height - 1
  {
    var w := Window(data, width, height, x, y);
    var gx3, gy3 := Apply(SobelX, w), Apply(SobelY, w);
    gx3 * gx3 + gy3 * gy3
  }

  /** The byte `detectEdges` stores for a squared magnitude with 9 (gx² + gy²) == s9:
      `Math.min(255, Math.sqrt(gx² + gy²))` truncated by the `Uint8Array` store, i.e. the
      largest e <= 255 with e² <= gx² + gy². */
  function EdgeLevel(s9: nat): (e: nat)
    ensures e <= 255 && 9 * (e * e) <= s9
    ensures e < 255 ==> s9 < 9 * ((e + 1) * (e + 1))
  {
    LevelFrom(s9, 255)
  }

  /** The largest e <= k with 9 e² <= s9, searching down from k. */
  function LevelFrom(s9: nat, k: nat): (e: nat)
    requires k <= 255
    requires k < 255 ==> s9 < 9 * ((k + 1) * (k + 1))
    ensures e <= k && 9 * (e * e) <= s9
    ensures e < 255 ==> s9 < 9 * ((e + 1) * (e + 1))
    decreases k
  {
    if 9 * (k * k) <= s9 then k else LevelFrom(s9, k - 1)
  }

  /** A flat neighbourhood has edge level 0. */
  lemma LevelOfZero(s9: nat)
    requires s9 == 0
    ensures EdgeLevel(s9) == 0
  {
    var e := EdgeLevel(s9);
    if e > 0 {
      MulLeft(1, e, e);
    }
  }

  /** The edge test `edges[i] > 128` holds exactly when gx² + gy² >= 129², no square root needed. */
  lemma EdgeThreshold(s9: nat)
    ensures EdgeLevel(s9) > 128 <==> s9 >= 9 * (129 * 129)
  {
    var e := EdgeLevel(s9);
    if e > 128 {
      MulLeft(129, e, 129);
      MulLeft(129, e, e);
    } else {
      MulLeft(e + 1, 129, e + 1);
      MulLeft(e + 1, 129, 129);
    }
  }

  /** `detectEdges` at pixel (x, y): 0 on the one-pixel border, the edge level inside. */
  function EdgeAt(data: seq<int>, width: nat, height: nat, x: nat, y: nat): (e: int)
    requires |data| == 4 * (width * height)
    requires x < width && y < height
    ensures 0 <= e <= 255
  {
    if x == 0 || y == 0 || x == width - 1 || y == height - 1 then 0
    else EdgeLevel(GradientSq9(data, width, height, x, y))
  }

  /** `getPixelBrightness` of pixel (x, y). */
  function MeanAt(data: seq<int>, width: nat, height: nat, x: nat, y: nat): (b: real)
    requires |data| == 4 * (width * height)
    requires x < width && y < height
    ensures 3.0 * b == BrightnessAt(data, width, height, x, y) as real
  {
    IdxInGrid(width, height, x, y);
    PixelBrightness(data, Idx(width, x, y))
  }

  /** The real-valued gradients of source lines 241-248, on brightness means. */
  function GradientX(data: seq<int>, width: nat, height: nat, x: nat, y: nat): real
    requires |data| == 4 * (width * height)
    requires 1 <= x < width - 1 && 1 <= y < height - 1
  {
    - 1.0 * MeanAt(data, width, height, x - 1, y - 1) + 1.0 * MeanAt(data, width, height, x + 1, y - 1)
    - 2.0 * MeanAt(data, width, height, x - 1, y) + 2.0 * MeanAt(data, width, height, x + 1, y)
    - 1.0 * MeanAt(data, width, height, x - 1, y + 1) + 1.0 * MeanAt(data, width, height, x + 1, y + 1)
  }

  function GradientY(data: seq<int>, width: nat, height: nat, x: nat, y: nat): real
    requires |data| == 4 * (width * height)
    requires 1 <= x < width - 1 && 1 <= y < height - 1
  {
    - 1.0 * MeanAt(data, width, height, x - 1, y - 1) - 2.0 * MeanAt(data, width, height, x, y - 1)
    - 1.0 * MeanAt(data, width, height, x + 1, y - 1)
    + 1.0 * MeanAt(data, width, height, x - 1, y + 1) + 2.0 * MeanAt(data, width, height, x, y + 1)
    + 1.0 * MeanAt(data, width, height, x + 1, y + 1)
  }

  /** The integer Sobel sums are three times the real gradients on brightness means. */
  lemma GradientScaling(data: seq<int>, width: nat, height: nat, x: nat, y: nat)
    requires |data| == 4 * (width * height)
    requires 1 <= x < width - 1 && 1 <= y < height - 1
    ensures 3.0 * GradientX(data, width, height, x, y) == Apply(SobelX, Window(data, width, height, x, y)) as real
    ensures 3.0 * GradientY(data, width, height, x, y) == Apply(SobelY, Window(data, width, height, x, y)) as real
  {
  }

  lemma RealSquare(a: int)
    ensures (a * a) as real == a as real * a as real
  {
  }

  /** Nine times the sum of the squares of two reals is the sum of the squares of their triples. */
  lemma NineSquares(gx: real, gy: real, a: int, b: int)
    requires 3.0 * gx == a as real && 3.0 * gy == b as real
    ensures 9.0 * (gx * gx + gy * gy) == (a * a + b * b) as real
  {
    RealSquare(a);
    RealSquare(b);
    assert a as real * a as real == 9.0 * (gx * gx);
    assert b as real * b as real == 9.0 * (gy * gy);
  }

  /** The edge level e of 9 (gx² + gy²), for gradients given through their integer triples,
      is the truncated square root of gx² + gy²: e² <= gx² + gy² < (e + 1)² below 255. */
  lemma LevelOfThirds(gx: real, gy: real, a: int, b: int, e: nat)
    requires 3.0 * gx == a as real && 3.0 * gy == b as real
    requires e == EdgeLevel(a * a + b * b)
    ensures (e * e) as real <= gx * gx + gy * gy
    ensures e < 255 ==> gx * gx + gy * gy < ((e + 1) * (e + 1)) as real
  {
    var g := gx * gx + gy * gy;
    var s9 := a * a + b * b;
    NineSquares(gx, gy, a, b);
    var sq, sq1 := e * e, (e + 1) * (e + 1);
    assert 9 * sq <= s9;
    assert 9.0 * sq as real <= 9.0 * g;
    if e < 255 {
      assert s9 < 9 * sq1;
      assert 9.0 * g < 9.0 * sq1 as real;
    }
  }

  /** The stored edge byte e of an interior pixel is min(255, floor(sqrt(gx² + gy²))) for the
      gradients gx, gy computed on brightness means: e² <= gx² + gy², and (e + 1)² exceeds it
      below 255. */
  lemma EdgeIsTruncatedMagnitude(data: seq<int>, width: nat, height: nat, x: nat, y: nat, gx: real, gy: real)
    requires |data| == 4 * (width * height)
    requires 1 <= x < width - 1 && 1 <= y < height - 1
    requires gx == GradientX(data, width, height, x, y) && gy == GradientY(data, width, height, x, y)
    ensures (EdgeAt(data, width, height, x, y) * EdgeAt(data, width, height, x, y)) as real <= gx * gx + gy * gy
    ensures EdgeAt(data, width, height, x, y) < 255 ==>
      gx * gx + gy * gy < ((EdgeAt(data, width, height, x, y) + 1) * (EdgeAt(data, width, height, x, y) + 1)) as real
  {
    var w := Window(data, width, height, x, y);
    var a, b := Apply(SobelX, w), Apply(SobelY, w);
    var e := EdgeAt(data, width, height, x, y);
    assert e == EdgeLevel(a * a + b * b);
    GradientScaling(data, width, height, x, y);
    LevelOfThirds(gx, gy, a, b, e);
  }

  /** `detectEdges(data, width, height)`: one byte per pixel, row-major. */
  function EdgeMap(data: seq<int>, width: nat, height: nat): (edges: seq<int>)
    requires |data| == 4 * (width * height)
    ensures |edges| == width * height
  {
    seq(width * height, p requires 0 <= p < width * height =>
      Coordinates(width, height, p);
      EdgeAt(data, width, height, p % width, p / width))
  }

  /** The edge map's entry for pixel (x, y) is `EdgeAt` of that pixel; in particular it is 0 on
      the border x = 0, x = width - 1, y = 0, y = height - 1. */
  lemma EdgeMapAt(data: seq<int>, width: nat, height: nat, x: nat, y: nat)
    requires |data| == 4 * (width * height)
    requires x < width && y < height
    ensures Idx(width, x, y) < width * height
    ensures EdgeMap(data, width, height)[Idx(width, x, y)] == EdgeAt(data, width, height, x, y)
    ensures x == 0 || y == 0 || x == width - 1 || y == height - 1 ==>
      EdgeMap(data, width, height)[Idx(width, x, y)] == 0
  {
    var p := Idx(width, x, y);
    IdxInGrid(width, height, x, y);
    Coordinates(width, height, p);
    IdxInjective(width, p % width, p / width, x, y);
  }

  /** Row y of the edge map, entry by entry. */
  lemma EdgeMapRow(data: seq<int>, width: nat, height: nat, y: nat, row: nat)
    requires |data| == 4 * (width * height)
    requires y < height && row == y * width
    ensures forall x | 0 <= x < width :: row + x < width * height && EdgeMap(data, width, height)[row + x] == EdgeAt(data, width, height, x, y)
  {
    forall x | 0 <= x < width
      ensures row + x < width * height && EdgeMap(data, width, height)[row + x] == EdgeAt(data, width, height, x, y)
    {
      EdgeMapAt(data, width, height, x, y);
    }
  }

  /** The first and the last row of the edge map are 0. */
  lemma BorderRowsAreZero(data: seq<int>, width: nat, height: nat)
    requires |data| == 4 * (width * height)
    ensures forall p | 0 <= p < width * height && p < width :: EdgeMap(data, width, height)[p] == 0
    ensures forall p | 0 <= p < width * height && (height - 1) * width <= p :: EdgeMap(data, width, height)[p] == 0
  {
    forall p | 0 <= p < width * height && p < width ensures EdgeMap(data, width, height)[p] == 0 {
      EdgeMapAt(data, width, height, p, 0);
    }
    forall p | 0 <= p < width * height && (height - 1) * width <= p ensures EdgeMap(data, width, height)[p] == 0 {
      var last := height - 1;
      MulSucc(last, width);
      EdgeMapAt(data, width, height, p - last * width, last);
    }
  }

  /** An edge buffer that agrees with the edge map on every row above the last and is zero
      from the last row on is the edge map. */
  lemma RowsDone(edges: seq<int>, target: seq<int>, width: nat, height: nat, y: nat, row: nat)
    requires |edges| == |target| == width * height
    requires row == y * width && y == (if height < 2 then 1 else height - 1)
    requires forall p | 0 <= p < row && p < width * height :: edges[p] == target[p]
    requires forall p | row <= p < width * height :: edges[p] == 0
    requires forall p | 0 <= p < width * height && (height - 1) * width <= p :: target[p] == 0
    ensures edges == target
  {
    forall p | 0 <= p < width * height ensures edges[p] == target[p] {
    }
  }

  /** Every neighbour of an interior pixel lies in the grid, so a buffer of uniform brightness
      gives a flat window. */
  lemma FlatWindow(data: seq<int>, width: nat, height: nat, x: nat, y: nat, c: int)
    requires |data| == 4 * (width * height)
    requires 1 <= x < width - 1 && 1 <= y < height - 1
    requires forall p | 0 <= p < width * height :: Brightness3(data, p) == c
    ensures forall i | 0 <= i < 9 :: Window(data, width, height, x, y)[i] == c
  {
    IdxInGrid(width, height, x - 1, y - 1);
    IdxInGrid(width, height, x, y - 1);
    IdxInGrid(width, height, x + 1, y - 1);
    IdxInGrid(width, height, x - 1, y);
    IdxInGrid(width, height, x, y);
    IdxInGrid(width, height, x + 1, y);
    IdxInGrid(width, height, x - 1, y + 1);
    IdxInGrid(width, height, x, y + 1);
    IdxInGrid(width, height, x + 1, y + 1);
  }

  /** An interior pixel of a buffer of uniform brightness has edge value 0. */
  lemma FlatPixelHasNoEdge(data: seq<int>, width: nat, height: nat, x: nat, y: nat, c: int)
    requires |data| == 4 * (width * height)
    requires x < width && y < height
    requires forall p | 0 <= p < width * height :: Brightness3(data, p) == c
    ensures EdgeAt(data, width, height, x, y) == 0
  {
    if !(x == 0 || y == 0 || x == width - 1 || y == height - 1) {
      FlatWindow(data, width, height, x, y, c);
      FlatWindowHasNoGradient(Window(data, width, height, x, y));
      LevelOfZero(GradientSq9(data, width, height, x, y));
    }
  }

  /** A buffer whose pixels all have the same brightness has an all-zero edge map, so the
      selective loop of `applyCanvasNoise` leaves it exactly as it is, whatever the draws. */
  lemma UniformImageHasNoEdges(data: seq<int>, width: nat, height: nat, c: int, src: nat -> Unit, base: nat, noise: real)
    requires |data| == 4 * (width * height)
    requires forall p | 0 <= p < width * height :: Brightness3(data, p) == c
    ensures forall p | 0 <= p < width * height :: EdgeMap(data, width, height)[p] == 0
    ensures SelectiveNoised(data, EdgeMap(data, width, height), src, base, noise) == data
  {
    var edges := EdgeMap(data, width, height);
    forall p | 0 <= p < width * height ensures edges[p] == 0 {
      Coordinates(width, height, p);
      EdgeMapAt(data, width, height, p % width, p / width);
      FlatPixelHasNoEdge(data, width, height, p % width, p / width, c);
    }
    SelectiveKeepsNonEdges(data, edges, src, base, noise);
    var r := SelectiveNoised(data, edges, src, base, noise);
    forall i | 0 <= i < |data| ensures r[i] == data[i] {
      assert edges[i / 4] == 0;
    }
  }

  // ---------------------------------------------------------------- the selective loop

  /** The number of entries of `edges` above the edge threshold 128. */
  function EdgeCount(edges: seq<int>): (n: nat)
    ensures n <= |edges|
  {
    if edges == [] then 0
    else EdgeCount(edges[..|edges| - 1]) + (if edges[|edges| - 1] > 128 then 1 else 0)
  }

  lemma EdgeCountStep(edges: seq<int>, p: nat)
    requires p < |edges|
    ensures EdgeCount(edges[..p + 1]) == EdgeCount(edges[..p]) + (if edges[p] > 128 then 1 else 0)
  {
    assert edges[..p + 1][..p] == edges[..p];
  }

  /** Counting over a longer prefix never gives fewer edges. */
  lemma {:induction false} EdgeCountMonotone(edges: seq<int>, p: nat, q: nat)
    requires p <= q <= |edges|
    ensures EdgeCount(edges[..p]) <= EdgeCount(edges[..q])
    decreases q - p
  {
    if p < q {
      EdgeCountMonotone(edges, p, q - 1);
      EdgeCountStep(edges, q - 1);
    }
  }

  /** The selective loop gives every edge pixel its own draw, in pixel order: an edge pixel p
      uses draw `EdgeCount(edges[..p])`, which is below the draw of any later pixel and below
      the total number of draws. */
  lemma EdgeDrawsInOrder(edges: seq<int>, p: nat, q: nat)
    requires p < q <= |edges| && edges[p] > 128
    ensures EdgeCount(edges[..p]) < EdgeCount(edges[..q])
    ensures EdgeCount(edges[..p]) < EdgeCount(edges)
  {
    EdgeCountStep(edges, p);
    EdgeCountMonotone(edges, p + 1, q);
    EdgeCountMonotone(edges, p + 1, |edges|);
    assert edges[..|edges|] == edges;
  }

  /** The four bytes the selective loop leaves at pixel p: when its edge value exceeds 128,
      red, green and blue each get the pixel's shift (scale 255, from draw number
      `EdgeCount(edges[..p])`) added and are clamped; otherwise the pixel is kept. */
  function SelectedPixel(data: seq<int>, edges: seq<int>, src: nat -> Unit, base: nat, noise: real, p: nat): (b: seq<int>)
    requires |data| == 4 * |edges| && p < |edges|
    ensures |b| == 4 && b[3] == data[4 * p + 3]
    ensures edges[p] <= 128 ==> b[0] == data[4 * p] && b[1] == data[4 * p + 1] && b[2] == data[4 * p + 2]
  {
    if edges[p] > 128 then
      var d := Shift(src(Advance(base, EdgeCount(edges[..p]))), noise, 255.0);
      [Clamp(data[4 * p] as real + d), Clamp(data[4 * p + 1] as real + d), Clamp(data[4 * p + 2] as real + d), data[4 * p + 3]]
    else [data[4 * p], data[4 * p + 1], data[4 * p + 2], data[4 * p + 3]]
  }

  /** The selective loop of `applyCanvasNoise` over a buffer and its edge map, pixel by pixel
      in index order. */
  function SelectiveNoised(data: seq<int>, edges: seq<int>, src: nat -> Unit, base: nat, noise: real): (r: seq<int>)
    requires |data| == 4 * |edges|
    ensures |r| == |data|
    decreases |edges|
  {
    if edges == [] then []
    else
      var n := |edges| - 1;
      SelectiveNoised(data[..4 * n], edges[..n], src, base, noise) + SelectedPixel(data, edges, src, base, noise, n)
  }

  /** Byte c of pixel p of the selective loop's result is byte c of `SelectedPixel`. */
  lemma {:induction false} SelectiveAt(data: seq<int>, edges: seq<int>, src: nat -> Unit, base: nat, noise: real, p: nat, c: nat, i: nat)
    requires |data| == 4 * |edges| && p < |edges| && c < 4 && i == 4 * p + c
    ensures SelectiveNoised(data, edges, src, base, noise)[i] == SelectedPixel(data, edges, src, base, noise, p)[c]
    decreases |edges|
  {
    var n := |edges| - 1;
    var front := SelectiveNoised(data[..4 * n], edges[..n], src, base, noise);
    var last := SelectedPixel(data, edges, src, base, noise, n);
    assert SelectiveNoised(data, edges, src, base, noise) == front + last;
    if p < n {
      SelectiveAt(data[..4 * n], edges[..n], src, base, noise, p, c, i);
      SelectedPixelOfPrefix(data, edges, src, base, noise, n, p);
    }
  }

  /** A pixel's selected bytes depend only on the buffer and the edge map up to that pixel. */
  lemma SelectedPixelOfPrefix(data: seq<int>, edges: seq<int>, src: nat -> Unit, base: nat, noise: real, n: nat, p: nat)
    requires |data| == 4 * |edges| && p < n <= |edges|
    ensures SelectedPixel(data[..4 * n], edges[..n], src, base, noise, p) == SelectedPixel(data, edges, src, base, noise, p)
  {
    assert edges[..n][..p] == edges[..p];
  }

  /** The selective loop touches only the colour bytes of edge pixels, and writes bytes there. */
  lemma SelectiveKeepsNonEdges(data: seq<int>, edges: seq<int>, src: nat -> Unit, base: nat, noise: real)
    requires |data| == 4 * |edges|
    ensures forall i | 0 <= i < |data| && (i % 4 == 3 || edges[i / 4] <= 128) ::
      SelectiveNoised(data, edges, src, base, noise)[i] == data[i]
    ensures forall i | 0 <= i < |data| && i % 4 < 3 && edges[i / 4] > 128 ::
      IsByte(SelectiveNoised(data, edges, src, base, noise)[i])
  {
    forall i | 0 <= i < |data| {
      SelectiveByte(data, edges, src, base, noise, i);
    }
  }

  lemma SelectiveByte(data: seq<int>, edges: seq<int>, src: nat -> Unit, base: nat, noise: real, i: nat)
    requires |data| == 4 * |edges| && i < |data|
    ensures i % 4 == 3 || edges[i / 4] <= 128 ==> SelectiveNoised(data, edges, src, base, noise)[i] == data[i]
    ensures i % 4 < 3 && edges[i / 4] > 128 ==> IsByte(SelectiveNoised(data, edges, src, base, noise)[i])
  {
    var p, c := i / 4, i % 4;
    assert i == 4 * p + c;
    SelectiveAt(data, edges, src, base, noise, p, c, i);
    var b := SelectedPixel(data, edges, src, base, noise, p);
    if c == 0 {
      assert b[c] == b[0];
    } else if c == 1 {
      assert b[c] == b[1];
    } else if c == 2 {
      assert b[c] == b[2];
    } else {
      assert b[c] == b[3];
    }
  }

  /** The four bytes `SelectedPixel` gives an edge pixel: red, green and blue moved by d, alpha kept. */
  lemma EdgePixelShifted(data: seq<int>, edges: seq<int>, src: nat -> Unit, base: nat, noise: real, p: nat, d: real)
    requires |data| == 4 * |edges| && p < |edges| && edges[p] > 128
    requires d == Shift(src(Advance(base, EdgeCount(edges[..p]))), noise, 255.0)
    ensures SelectedPixel(data, edges, src, base, noise, p)[0] == Clamp(data[4 * p] as real + d)
    ensures SelectedPixel(data, edges, src, base, noise, p)[1] == Clamp(data[4 * p + 1] as real + d)
    ensures SelectedPixel(data, edges, src, base, noise, p)[2] == Clamp(data[4 * p + 2] as real + d)
  {
  }

  /** Red, green and blue of an edge pixel p all move by the same shift d before clamping: the
      one drawn for p, which is draw number (edge pixels before p) of the loop. Alpha is kept. */
  lemma SelectiveSameShift(data: seq<int>, edges: seq<int>, src: nat -> Unit, base: nat, noise: real, p: nat, d: real)
    requires |data| == 4 * |edges| && p < |edges| && edges[p] > 128
    requires d == Shift(src(Advance(base, EdgeCount(edges[..p]))), noise, 255.0)
    ensures SelectiveNoised(data, edges, src, base, noise)[4 * p] == Clamp(data[4 * p] as real + d)
    ensures SelectiveNoised(data, edges, src, base, noise)[4 * p + 1] == Clamp(data[4 * p + 1] as real + d)
    ensures SelectiveNoised(data, edges, src, base, noise)[4 * p + 2] == Clamp(data[4 * p + 2] as real + d)
    ensures SelectiveNoised(data, edges, src, base, noise)[4 * p + 3] == data[4 * p + 3]
  {
    EdgePixelShifted(data, edges, src, base, noise, p, d);
    SelectiveAt(data, edges, src, base, noise, p, 0, 4 * p);
    SelectiveAt(data, edges, src, base, noise, p, 1, 4 * p + 1);
    SelectiveAt(data, edges, src, base, noise, p, 2, 4 * p + 2);
    SelectiveAt(data, edges, src, base, noise, p, 3, 4 * p + 3);
  }

  /** A pixel that is not an edge is kept. */
  lemma SelectiveSkips(data: seq<int>, edges: seq<int>, src: nat -> Unit, base: nat, noise: real, p: nat)
    requires |data| == 4 * |edges| && p < |edges| && edges[p] <= 128
    ensures SelectiveNoised(data, edges, src, base, noise)[4 * p] == data[4 * p]
    ensures SelectiveNoised(data, edges, src, base, noise)[4 * p + 1] == data[4 * p + 1]
    ensures SelectiveNoised(data, edges, src, base, noise)[4 * p + 2] == data[4 * p + 2]
    ensures SelectiveNoised(data, edges, src, base, noise)[4 * p + 3] == data[4 * p + 3]
  {
    SelectiveAt(data, edges, src, base, noise, p, 0, 4 * p);
    SelectiveAt(data, edges, src, base, noise, p, 1, 4 * p + 1);
    SelectiveAt(data, edges, src, base, noise, p, 2, 4 * p + 2);
    SelectiveAt(data, edges, src, base, noise, p, 3, 4 * p + 3);
  }

  /** The colour bytes of pixel p of `s` moved by `d` and clamped; alpha and every other pixel
      kept. */
  function PixelShifted(s: seq<int>, p: nat, d: real): (r: seq<int>)
    requires 4 * p + 3 < |s|
    ensures |r| == |s|
    ensures forall i | 0 <= i < |s| && (i < 4 * p || i >= 4 * p + 3) :: r[i] == s[i]
    ensures r[4 * p] == Clamp(s[4 * p] as real + d) && r[4 * p + 1] == Clamp(s[4 * p + 1] as real + d)
    ensures r[4 * p + 2] == Clamp(s[4 * p + 2] as real + d)
  {
    s[4 * p := Clamp(s[4 * p] as real + d)][4 * p + 1 := Clamp(s[4 * p + 1] as real + d)]
     [4 * p + 2 := Clamp(s[4 * p + 2] as real + d)]
  }

  /** Part way through the selective loop: the first n pixels of `cur` hold their final values
      and the others still hold the buffer read. */
  predicate SelectedUpTo(cur: seq<int>, data: seq<int>, edges: seq<int>, src: nat -> Unit, base: nat, noise: real, n: nat)
    requires |data| == 4 * |edges|
  {
    && |cur| == |data| && n <= |edges|
    && (forall j | 0 <= j < 4 * n :: cur[j] == SelectiveNoised(data, edges, src, base, noise)[j])
    && (forall j | 4 * n <= j < |cur| :: cur[j] == data[j])
  }

  /** One turn of the selective loop: pixel n, shifted by its own draw when it is an edge pixel
      and kept otherwise, now holds its final value. */
  lemma SelectiveStep(cur: seq<int>, next: seq<int>, data: seq<int>, edges: seq<int>, src: nat -> Unit, base: nat, noise: real, n: nat)
    requires |data| == 4 * |edges| && n < |edges|
    requires SelectedUpTo(cur, data, edges, src, base, noise, n)
    requires edges[n] > 128 ==> next == PixelShifted(cur, n, Shift(src(Advance(base, EdgeCount(edges[..n]))), noise, 255.0))
    requires edges[n] <= 128 ==> next == cur
    ensures SelectedUpTo(next, data, edges, src, base, noise, n + 1)
  {
    var selected := SelectiveNoised(data, edges, src, base, noise);
    if edges[n] > 128 {
      SelectiveSameShift(data, edges, src, base, noise, n, Shift(src(Advance(base, EdgeCount(edges[..n]))), noise, 255.0));
    } else {
      SelectiveSkips(data, edges, src, base, noise, n);
    }
    forall j | 4 * n <= j < 4 * n + 4 ensures next[j] == selected[j] {
      assert j == 4 * n || j == 4 * n + 1 || j == 4 * n + 2 || j == 4 * n + 3;
    }
  }

  /** At the end of the selective loop the buffer is the selective loop's result. */
  lemma SelectedAll(cur: seq<int>, data: seq<int>, edges: seq<int>, src: nat -> Unit, base: nat, noise: real)
    requires |data| == 4 * |edges|
    requires SelectedUpTo(cur, data, edges, src, base, noise, |edges|)
    ensures cur == SelectiveNoised(data, edges, src, base, noise)
  {
  }

  // ---------------------------------------------------------------- watermark and text

  /** `Math.floor(rng() * 256)`: one colour component of the watermark. */
  function ColourByte(r: Unit): (c: int)
    ensures IsByte(c)
  {
    (r as real * 256.0).Floor
  }

  /** A `fillRect` issued to a context: position, colour and the `globalAlpha` in force. */
  datatype Fill = Fill(x: real, y: real, red: int, green: int, blue: int, alpha: real)

  /** The watermark: a 1x1 fill at (width - 1 + offsetX, height - 1 + offsetY), colour from
      three draws in red, green, blue order, at global alpha 0.01. */
  function Watermark(src: nat -> Unit, base: nat, width: nat, height: nat, profile: CanvasProfile): (f: Fill)
    ensures IsByte(f.red) && IsByte(f.green) && IsByte(f.blue)
    ensures f.red == ColourByte(src(base)) && f.green == ColourByte(src(base + 1))
    ensures f.blue == ColourByte(src(base + 2))
  {
    Fill(width as real - 1.0 + profile.offsetX, height as real - 1.0 + profile.offsetY,
         ColourByte(src(base)), ColourByte(src(base + 1)), ColourByte(src(base + 2)), 0.01)
  }

  /** `args[k] += d` on a numeric coordinate. */
  function ShiftCoordinate(v: Value, d: real): Value
  {
    if v.Num? then Num(v.n + d) else v
  }

  /** The arguments the patched `fillText` / `strokeText` forward: with at least three
      arguments, x and y move by a tenth of the profile offsets; nothing else changes. */
  function TextArgs(args: seq<Value>, profile: CanvasProfile): (r: seq<Value>)
    ensures |r| == |args|
    ensures forall i | 0 <= i < |args| && (i == 0 || i >= 3 || |args| < 3) :: r[i] == args[i]
    ensures |args| >= 3 && args[1].Num? ==> r[1] == Num(args[1].n + profile.offsetX * 0.1)
    ensures |args| >= 3 && args[2].Num? ==> r[2] == Num(args[2].n + profile.offsetY * 0.1)
  {
    if |args| >= 3 then
      args[1 := ShiftCoordinate(args[1], profile.offsetX * 0.1)]
          [2 := ShiftCoordinate(args[2], profile.offsetY * 0.1)]
    else args
  }

  // ---------------------------------------------------------------- applyCanvasNoise as a state step

  /** Which kind of context a canvas has handed out so far. */
  datatype ContextMode = NoContext | TwoD | OtherContext(id: string)

  /** What the interceptor sees of a canvas: its size, bitmap, context, whether reading it is
      forbidden (a cross-origin taint), whether its 2d context has the text offsets installed,
      and the fills issued to it. */
  datatype Surface = Surface(width: nat, height: nat, pixels: seq<int>, mode: ContextMode,
                             tainted: bool, textShifted: bool, fills: seq<Fill>)
  {
    /** The bitmap holds 4 bytes per pixel, and a context of kind '2d' is always `TwoD`. */
    predicate Valid() { |pixels| == 4 * (width * height) && mode != OtherContext("2d") }
  }

  /** A canvas after a step, whether the guard set now holds it, and the generator cursor. */
  datatype Step = Step(surface: Surface, marked: bool, cursor: nat)

  /** The kind of context an id asks for under the HTML `getContext` algorithm:
      `'experimental-webgl'` is another name for `'webgl'`, and an id naming no kind the
      browser supports asks for none. */
  function ContextKind(id: string): (k: Option<string>)
    ensures k.Some? ==> (k.value == "2d" <==> id == "2d")
    ensures id in {"2d", "webgl", "webgl2", "bitmaprenderer", "webgpu"} ==> k == Some(id)
    ensures id == "experimental-webgl" ==> k == Some("webgl")
  {
    if id == "experimental-webgl" then Some("webgl")
    else if id in {"2d", "webgl", "webgl2", "bitmaprenderer", "webgpu"} then Some(id)
    else None
  }

  /** The patched `getContext(id)`: the native lookup (null for an unsupported id, which
      leaves the canvas as it was; otherwise a canvas keeps the first kind of context it hands
      out); a 2d context whose canvas is not yet in the guard set gets the text offsets
      installed and the canvas is added to the set. */
  datatype ContextResult = ContextResult(surface: Surface, marked: bool, ok: bool)

  function GetContextStep(s: Surface, marked: bool, id: string): (g: ContextResult)
    ensures s.Valid() ==> g.surface.Valid()
    ensures g.surface.width == s.width && g.surface.height == s.height
    ensures g.surface.pixels == s.pixels && g.surface.fills == s.fills && g.surface.tainted == s.tainted
    ensures ContextKind(id).None? ==> !g.ok && g == ContextResult(s, marked, false)
    ensures s.mode == NoContext && ContextKind(id).Some? ==>
      g.ok && g.surface.mode == (if id == "2d" then TwoD else OtherContext(ContextKind(id).value))
    ensures s.mode != NoContext ==> g.surface.mode == s.mode
    ensures s.mode == TwoD ==> (g.ok <==> id == "2d")
    ensures s.mode.OtherContext? ==> (g.ok <==> ContextKind(id) == Some(s.mode.id))
    ensures g.marked <==> marked || (g.ok && id == "2d")
    ensures g.surface.textShifted == (s.textShifted || (g.ok && id == "2d" && !marked))
  {
    var kind := ContextKind(id);
    var (mode, ok) := match s.mode
      case NoContext => if kind.None? then (NoContext, false) else (if id == "2d" then TwoD else OtherContext(kind.value), true)
      case TwoD => (TwoD, id == "2d")
      case OtherContext(k) => (s.mode, kind == Some(k));
    if id == "2d" && ok && !marked then ContextResult(s.(mode := mode, textShifted := true), true, true)
    else ContextResult(s.(mode := mode), marked, ok)
  }

  /** A call with an unsupported id, such as `getContext('bogus')`, returns null and leaves
      the canvas free: a later `getContext('2d')` still hands out a 2d context. */
  lemma UnsupportedIdKeepsCanvasFree(s: Surface, marked: bool, id: string)
    requires s.mode == NoContext && ContextKind(id).None?
    ensures !GetContextStep(s, marked, id).ok && GetContextStep(s, marked, id).surface == s
    ensures GetContextStep(GetContextStep(s, marked, id).surface, GetContextStep(s, marked, id).marked, "2d").ok
  {
  }

  /** The result of the noising part of `applyCanvasNoise`: the bitmap written back, the
      watermark fill, and the index of the first of the watermark's three draws, which are
      the last draws of the step. */
  datatype Noised = Noised(pixels: seq<int>, mark: Fill, markDraw: nat)

  /** The noising part of `applyCanvasNoise` on a readable, non-empty canvas. Its
      `getImageData` goes through the patched getImageData, so the buffer it reads already
      carries image-data noise (one draw per pixel); the rest is `WriteBack`. */
  function FullNoise(pixels: seq<int>, width: nat, height: nat, src: nat -> Unit, cursor: nat, profile: CanvasProfile): (r: Noised)
    requires |pixels| == 4 * (width * height)
    ensures |r.pixels| == |pixels|
  {
    var read := ImageNoised(pixels, src, cursor, profile.noise);
    WriteBack(read, EdgeMap(read, width, height), width, height, src, Advance(cursor, width * height), profile)
  }

  /** The selective loop over the edge pixels of the buffer read (one draw per edge pixel),
      then the rest of the step from `Finish`. */
  function WriteBack(read: seq<int>, edges: seq<int>, width: nat, height: nat, src: nat -> Unit, at: nat,
                     profile: CanvasProfile): (r: Noised)
    requires |read| == 4 * |edges| && |edges| == width * height
    ensures |r.pixels| == |read|
  {
    Finish(SelectiveNoised(read, edges, src, at, profile.noise), width, height, src, Advance(at, EdgeCount(edges)), profile)
  }

  /** The `putImageData` of the noised buffer goes through the patched putImageData, which
      applies image-data noise once more (one draw per pixel); then the watermark takes three
      draws. */
  function Finish(selected: seq<int>, width: nat, height: nat, src: nat -> Unit, at: nat, profile: CanvasProfile): (r: Noised)
    ensures |r.pixels| == |selected|
  {
    Noised(ImageNoised(selected, src, at, profile.noise),
           Watermark(src, Advance(at, width * height), width, height, profile), Advance(at, width * height))
  }

  /** `FullNoise` is `WriteBack` on the buffer read, from the draw after one per pixel. */
  lemma FullNoiseStages(pixels: seq<int>, width: nat, height: nat, src: nat -> Unit, cursor: nat, profile: CanvasProfile,
                        read: seq<int>, at: nat)
    requires |pixels| == 4 * (width * height)
    requires read == ImageNoised(pixels, src, cursor, profile.noise) && at == Advance(cursor, width * height)
    ensures FullNoise(pixels, width, height, src, cursor, profile) == WriteBack(read, EdgeMap(read, width, height), width, height, src, at, profile)
  {
  }

  /** `WriteBack` through its stages: `selected`, the selective loop's result, gets image-data
      noise from draw `next`, just after one draw per edge pixel, and the watermark takes the
      three draws from `markDraw`, just after one more per pixel. */
  lemma WriteBackStages(read: seq<int>, edges: seq<int>, width: nat, height: nat, src: nat -> Unit, at: nat, profile: CanvasProfile,
                        selected: seq<int>, next: nat, markDraw: nat)
    requires |read| == 4 * |edges| && |edges| == width * height
    requires selected == SelectiveNoised(read, edges, src, at, profile.noise) && next == Advance(at, EdgeCount(edges))
    requires markDraw == Advance(next, width * height)
    ensures WriteBack(read, edges, width, height, src, at, profile)
         == Noised(ImageNoised(selected, src, next, profile.noise), Watermark(src, markDraw, width, height, profile), markDraw)
  {
  }

  /** `applyCanvasNoise` on a canvas, as written: the guard; its own `getContext('2d')`, which
      goes through the patched getContext and so marks the canvas; the size check; the pixel
      read, which fails on a tainted canvas (the exception is caught); the noising. */
  function NoiseStep(s: Surface, marked: bool, src: nat -> Unit, cursor: nat, profile: CanvasProfile): (t: Step)
    requires s.Valid()
    ensures t.surface.Valid()
    ensures t.surface.width == s.width && t.surface.height == s.height && t.surface.tainted == s.tainted
  {
    if marked then Step(s, marked, cursor)
    else
      var g := GetContextStep(s, marked, "2d");
      if !g.ok || s.width == 0 || s.height == 0 || s.tainted then Step(g.surface, g.marked, cursor)
      else
        var r := FullNoise(s.pixels, s.width, s.height, src, cursor, profile);
        Step(g.surface.(pixels := r.pixels, fills := g.surface.fills + [r.mark]), g.marked, r.markDraw + 3)
  }

  /** The guard: a canvas in the guard set is left alone, with no draws. So is a canvas whose
      `getContext('2d')` returns null (it has a context of another kind), which stays out of
      the set. */
  lemma NoiseGuard(s: Surface, marked: bool, src: nat -> Unit, cursor: nat, profile: CanvasProfile)
    requires s.Valid()
    requires marked || s.mode.OtherContext?
    ensures NoiseStep(s, marked, src, cursor, profile) == Step(s, marked, cursor)
  {
    if !marked {
      var g := GetContextStep(s, marked, "2d");
      assert !g.ok && g.surface == s;
    }
  }

  /** After the step a canvas is in the guard set exactly when it was already, or it has no
      context of a kind other than '2d'. */
  lemma NoiseMarks(s: Surface, marked: bool, src: nat -> Unit, cursor: nat, profile: CanvasProfile)
    requires s.Valid()
    ensures NoiseStep(s, marked, src, cursor, profile).marked <==> marked || !s.mode.OtherContext?
  {
  }

  /** A canvas that is empty (width or height 0) or tainted gets no draws and no pixel change,
      but ends in the guard set: the nested `getContext('2d')` already put it there. */
  lemma NoiseSkipsEmptyOrTainted(s: Surface, src: nat -> Unit, cursor: nat, profile: CanvasProfile)
    requires s.Valid() && !s.mode.OtherContext?
    requires s.width == 0 || s.height == 0 || s.tainted
    ensures NoiseStep(s, false, src, cursor, profile).cursor == cursor && NoiseStep(s, false, src, cursor, profile).marked
    ensures NoiseStep(s, false, src, cursor, profile).surface.pixels == s.pixels && NoiseStep(s, false, src, cursor, profile).surface.fills == s.fills
  {
  }

  /** After the read, the step takes one draw per edge pixel, width * height draws for the
      write and three for the watermark, whose colour comes from the last three. */
  lemma WriteBackDraws(read: seq<int>, edges: seq<int>, width: nat, height: nat, src: nat -> Unit, at: nat,
                       profile: CanvasProfile)
    requires |read| == 4 * |edges| && |edges| == width * height
    ensures WriteBack(read, edges, width, height, src, at, profile).markDraw == at + EdgeCount(edges) + width * height
    ensures WriteBack(read, edges, width, height, src, at, profile).mark
         == Watermark(src, WriteBack(read, edges, width, height, src, at, profile).markDraw, width, height, profile)
  {
  }

  /** On the full path the step consumes exactly 2 * width * height + (edge pixels) + 3 draws:
      a draw per pixel on the read, one per edge pixel, one per pixel on the write, and three
      for the watermark, whose colour comes from the last three. */
  lemma NoiseDrawCount(pixels: seq<int>, width: nat, height: nat, src: nat -> Unit, cursor: nat, profile: CanvasProfile)
    requires |pixels| == 4 * (width * height)
    ensures FullNoise(pixels, width, height, src, cursor, profile).markDraw + 3 == cursor + 2 * (width * height) + EdgeCount(EdgeMap(ImageNoised(pixels, src, cursor, profile.noise), width, height)) + 3
    ensures FullNoise(pixels, width, height, src, cursor, profile).mark == Watermark(src, FullNoise(pixels, width, height, src, cursor, profile).markDraw, width, height, profile)
  {
    var read := ImageNoised(pixels, src, cursor, profile.noise);
    var edges := EdgeMap(read, width, height);
    var at := cursor + width * height;
    WriteBackDraws(read, edges, width, height, src, at, profile);
  }

  /** A readable, non-empty canvas outside the guard set is noised and marked, and the
      watermark becomes its last fill. */
  lemma NoiseFullPath(s: Surface, src: nat -> Unit, cursor: nat, profile: CanvasProfile)
    requires s.Valid() && !s.mode.OtherContext?
    requires s.width > 0 && s.height > 0 && !s.tainted
    ensures NoiseStep(s, false, src, cursor, profile).marked && NoiseStep(s, false, src, cursor, profile).cursor == FullNoise(s.pixels, s.width, s.height, src, cursor, profile).markDraw + 3 && NoiseStep(s, false, src, cursor, profile).surface.pixels == FullNoise(s.pixels, s.width, s.height, src, cursor, profile).pixels
    ensures NoiseStep(s, false, src, cursor, profile).surface.fills == s.fills + [FullNoise(s.pixels, s.width, s.height, src, cursor, profile).mark]
  {
  }

  /** After any step, a second step on its result is a no-op: no draws, no changes. */
  lemma NoiseTwiceIsNoiseOnce(s: Surface, marked: bool, src: nat -> Unit, cursor: nat, profile: CanvasProfile)
    requires s.Valid()
    ensures NoiseStep(NoiseStep(s, marked, src, cursor, profile).surface, NoiseStep(s, marked, src, cursor, profile).marked, src, NoiseStep(s, marked, src, cursor, profile).cursor, profile) == NoiseStep(s, marked, src, cursor, profile)
  {
    var t := NoiseStep(s, marked, src, cursor, profile);
    if !marked {
      var g := GetContextStep(s, marked, "2d");
      if !g.ok {
        assert t == Step(s.(mode := s.mode), false, cursor);
      }
    }
  }

  /** The shared guard set: once the page's `getContext('2d')` has returned a context, the
      canvas noise step does nothing at all. */
  lemma ContextCallDisablesNoise(s: Surface, marked: bool, src: nat -> Unit, cursor: nat, profile: CanvasProfile)
    requires s.Valid()
    requires GetContextStep(s, marked, "2d").ok
    ensures GetContextStep(s, marked, "2d").surface.Valid() && NoiseStep(GetContextStep(s, marked, "2d").surface, GetContextStep(s, marked, "2d").marked, src, cursor, profile) == Step(GetContextStep(s, marked, "2d").surface, GetContextStep(s, marked, "2d").marked, cursor)
  {
  }

  /** The last stage keeps a byte buffer a byte buffer and never changes an alpha byte. */
  lemma FinishKeepsBytesAndAlpha(selected: seq<int>, width: nat, height: nat, src: nat -> Unit, at: nat, profile: CanvasProfile)
    requires Bytes(selected)
    ensures Bytes(Finish(selected, width, height, src, at, profile).pixels)
    ensures forall i | 0 <= i < |selected| && i % 4 == 3 :: Finish(selected, width, height, src, at, profile).pixels[i] == selected[i]
  {
    ImageNoiseKeepsAlpha(selected, src, at, profile.noise);
  }

  /** The selective loop and the last stage keep a byte buffer a byte buffer and never change
      an alpha byte. */
  lemma WriteBackKeepsBytesAndAlpha(read: seq<int>, edges: seq<int>, width: nat, height: nat, src: nat -> Unit, at: nat,
                                    profile: CanvasProfile)
    requires |read| == 4 * |edges| && |edges| == width * height && Bytes(read)
    ensures Bytes(WriteBack(read, edges, width, height, src, at, profile).pixels)
    ensures forall i | 0 <= i < |read| && i % 4 == 3 :: WriteBack(read, edges, width, height, src, at, profile).pixels[i] == read[i]
  {
    var selected := SelectiveNoised(read, edges, src, at, profile.noise);
    SelectiveKeepsNonEdges(read, edges, src, at, profile.noise);
    assert Bytes(selected);
    FinishKeepsBytesAndAlpha(selected, width, height, src, at + EdgeCount(edges), profile);
  }

  /** The noising keeps a byte bitmap a byte bitmap and never changes an alpha byte. */
  lemma NoiseKeepsBytesAndAlpha(pixels: seq<int>, width: nat, height: nat, src: nat -> Unit, cursor: nat, profile: CanvasProfile)
    requires |pixels| == 4 * (width * height) && Bytes(pixels)
    ensures Bytes(FullNoise(pixels, width, height, src, cursor, profile).pixels)
    ensures forall i | 0 <= i < |pixels| && i % 4 == 3 :: FullNoise(pixels, width, height, src, cursor, profile).pixels[i] == pixels[i]
  {
    var read := ImageNoised(pixels, src, cursor, profile.noise);
    ImageNoiseKeepsAlpha(pixels, src, cursor, profile.noise);
    assert Bytes(read);
    var edges := EdgeMap(read, width, height);
    var at := cursor + width * height;
    WriteBackKeepsBytesAndAlpha(read, edges, width, height, src, at, profile);
  }
}
