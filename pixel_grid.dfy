/** Row-major RGBA pixel buffers, and the native reads and writes of a canvas bitmap
    (`getImageData(sx, sy, sw, sh)`, `putImageData(image, dx, dy)`). */
module PixelGrid {

  predicate IsByte(v: int) { 0 <= v <= 255 }

  /** Every entry of `s` is a byte, as in a `Uint8ClampedArray` or `Uint8Array`. */
  predicate Bytes(s: seq<int>) { forall i | 0 <= i < |s| :: IsByte(s[i]) }

  /** The index of pixel (x, y) in a row-major grid `width` pixels wide. */
  function Idx(width: nat, x: nat, y: nat): nat { y * width + x }

  lemma MulLeft(a: nat, b: nat, c: nat)
    requires a <= b
    ensures a * c <= b * c
  {
  }

  lemma MulSucc(a: nat, b: nat)
    ensures (a + 1) * b == a * b + b
  {
  }

  /** A pixel of the grid has an index inside the grid. */
  lemma IdxInGrid(width: nat, height: nat, x: nat, y: nat)
    requires x < width && y < height
    ensures Idx(width, x, y) < width * height
  {
    MulLeft(y + 1, height, width);
  }

  /** Distinct pixels of a row have distinct indices. */
  lemma IdxInjective(width: nat, x: nat, y: nat, x': nat, y': nat)
    requires x < width && x' < width
    requires Idx(width, x, y) == Idx(width, x', y')
    ensures x == x' && y == y'
  {
    if y < y' {
      MulLeft(y + 1, y', width);
    } else if y' < y {
      MulLeft(y' + 1, y, width);
    }
  }

  /** Every index of the grid is the index of its own column `p % width` and row `p / width`. */
  lemma Coordinates(width: nat, height: nat, p: nat)
    requires p < width * height
    ensures width > 0
    ensures p % width < width && p / width < height
    ensures Idx(width, p % width, p / width) == p
  {
    if p / width >= height {
      MulLeft(height, p / width, width);
    }
  }

  /** The native `getImageData(sx, sy, sw, sh)` for sw, sh > 0: the sw x sh rectangle at
      (sx, sy), with pixels outside the bitmap read as transparent black. */
  function Crop(pixels: seq<int>, width: nat, height: nat, sx: int, sy: int, sw: nat, sh: nat): (r: seq<int>)
    requires |pixels| == 4 * (width * height)
    ensures |r| == 4 * (sw * sh)
  {
    seq(4 * (sw * sh), i requires 0 <= i < 4 * (sw * sh) =>
      var p := i / 4;
      Coordinates(sw, sh, p);
      var x, y := sx + p % sw, sy + p / sw;
      if 0 <= x < width && 0 <= y < height then
        IdxInGrid(width, height, x, y);
        pixels[4 * Idx(width, x, y) + i % 4]
      else 0)
  }

  /** The native `putImageData(image, dx, dy)`: the bitmap with the image's pixels written at
      (dx, dy) wherever they fall inside it, every other pixel kept. */
  function Blit(pixels: seq<int>, width: nat, height: nat, image: seq<int>, iw: nat, ih: nat, dx: int, dy: int): (r: seq<int>)
    requires |pixels| == 4 * (width * height)
    requires |image| == 4 * (iw * ih)
    ensures |r| == |pixels|
  {
    seq(|pixels|, i requires 0 <= i < |pixels| =>
      var p := i / 4;
      Coordinates(width, height, p);
      var x, y := p % width - dx, p / width - dy;
      if 0 <= x < iw && 0 <= y < ih then
        IdxInGrid(iw, ih, x, y);
        image[4 * Idx(iw, x, y) + i % 4]
      else pixels[i])
  }

  /** Reading the whole bitmap yields the bitmap. */
  lemma CropWhole(pixels: seq<int>, width: nat, height: nat)
    requires |pixels| == 4 * (width * height)
    ensures Crop(pixels, width, height, 0, 0, width, height) == pixels
  {
    var r := Crop(pixels, width, height, 0, 0, width, height);
    forall i | 0 <= i < |pixels| ensures r[i] == pixels[i] {
      WholeAt(width, height, i);
    }
  }

  /** Writing a whole-bitmap image at the origin replaces the bitmap by the image. */
  lemma BlitWhole(pixels: seq<int>, width: nat, height: nat, image: seq<int>)
    requires |pixels| == 4 * (width * height) && |image| == |pixels|
    ensures Blit(pixels, width, height, image, width, height, 0, 0) == image
  {
    var r := Blit(pixels, width, height, image, width, height, 0, 0);
    forall i | 0 <= i < |pixels| ensures r[i] == image[i] {
      WholeAt(width, height, i);
    }
  }

  /** Byte i of a whole grid belongs to the pixel at column (i / 4) % width, row (i / 4) / width,
      whose index is i / 4. */
  lemma WholeAt(width: nat, height: nat, i: nat)
    requires i < 4 * (width * height)
    ensures width > 0 && 0 <= (i / 4) % width < width && 0 <= (i / 4) / width < height
    ensures 4 * Idx(width, (i / 4) % width, (i / 4) / width) + i % 4 == i
  {
    Coordinates(width, height, i / 4);
  }
}
