/** The canvas interceptor of content/modules/interceptors/canvas.js as objects: canvases whose
    bitmap and context the page and the interceptor change in place, image-data buffers the
    interceptor noises in place, and the interceptor with its generator and guard set. Every
    method is proved equal to the pure transforms of `CanvasNoise`. */
module CanvasInterception {
  import opened SeededStream
  import opened PixelGrid
  import opened JsValues
  import opened CanvasNoise

  /** An `HTMLCanvasElement` with its bitmap and the state of its context. */
  class Canvas {
    var width: nat
    var height: nat
    var pixels: seq<int>
    var mode: ContextMode
    var tainted: bool
    var textShifted: bool
    var fills: seq<Fill>

    function State(): Surface
      reads this
    {
      Surface(width, height, pixels, mode, tainted, textShifted, fills)
    }

    predicate Valid()
      reads this
    {
      State().Valid()
    }

    /** A canvas the page has drawn `pixels` on, before any `getContext` call. */
    constructor (width: nat, height: nat, pixels: seq<int>, tainted: bool)
      requires |pixels| == 4 * (width * height)
      ensures Valid()
      ensures State() == Surface(width, height, pixels, NoContext, tainted, false, [])
    {
      this.width, this.height, this.pixels := width, height, pixels;
      mode, this.tainted, textShifted, fills := NoContext, tainted, false, [];
    }
  }

  /** An `ImageData`: a width x height RGBA buffer. */
  class ImageData {
    const width: nat
    const height: nat
    const data: array<int>

    predicate Valid()
      reads this
    {
      data.Length == 4 * (width * height)
    }

    constructor (width: nat, height: nat, pixels: seq<int>)
      requires |pixels| == 4 * (width * height)
      ensures Valid() && fresh(data)
      ensures this.width == width && this.height == height && data[..] == pixels
    {
      this.width, this.height := width, height;
      data := new int[|pixels|](i requires 0 <= i < |pixels| => pixels[i]);
    }
  }

  /** The left edge and the width of the rectangle `getImageData(sx, _, sw, _)` reads: a
      negative width extends to the left of sx. */
  function RectStart(s: int, len: int): int { if len < 0 then s + len else s }
  function RectSize(len: int): nat { if len < 0 then -len else len }

  /** The colour channels of pixel p moved by `shift` and clamped; alpha and every other pixel
      untouched. */
  method ShiftPixel(data: array<int>, p: nat, shift: real)
    requires 4 * p + 3 < data.Length
    modifies data
    ensures data[..] == PixelShifted(old(data[..]), p, shift)
  {
    var i := 4 * p;
    data[i] := Clamp(data[i] as real + shift);
    data[i + 1] := Clamp(data[i + 1] as real + shift);
    data[i + 2] := Clamp(data[i + 2] as real + shift);
  }

  lemma AddedOnly<T>(after: set<T>, before: set<T>, x: T)
    requires x in after && after - {x} == before - {x}
    ensures after == before + {x}
  {
    forall y | y in after ensures y in before + {x} {
      assert y == x || y in after - {x};
    }
    forall y | y in before + {x} ensures y in after {
      assert y == x || y in before - {x};
    }
  }

  lemma AlreadyIn<T>(a: set<T>, x: T)
    requires x in a
    ensures a + {x} == a
  {
  }

  class CanvasInterceptor {
    const profile: CanvasProfile
    const rng: Rng
    /** `appliedCanvases`: the canvases the interceptor will not noise again. */
    var applied: set<Canvas>

    /** `new CanvasInterceptor(profile, state)`: the generator seeded with `seed + '_canvas'`. */
    constructor (profile: CanvasProfile, generator: string -> (nat -> Unit), seed: string)
      ensures this.profile == profile && applied == {}
      ensures fresh(rng) && rng.source == generator(StreamSeed(seed, "canvas")) && rng.cursor == 0
    {
      this.profile := profile;
      rng := new Rng(generator, StreamSeed(seed, "canvas"));
      applied := {};
    }

    /** The patched `getContext(id)`; `ok` says whether a context (not null) is returned. */
    method GetContext(canvas: Canvas, id: string) returns (ok: bool)
      requires canvas.Valid()
      modifies canvas, this
      ensures canvas.Valid()
      ensures canvas.State() == GetContextStep(old(canvas.State()), old(canvas in applied), id).surface
      ensures ok == GetContextStep(old(canvas.State()), old(canvas in applied), id).ok
      ensures applied == old(applied) + (if ok && id == "2d" then {canvas} else {})
    {
      var g := GetContextStep(canvas.State(), canvas in applied, id);
      canvas.mode, canvas.textShifted := g.surface.mode, g.surface.textShifted;
      ok := g.ok;
      if ok && id == "2d" && canvas !in applied {
        applied := applied + {canvas};
      }
    }

    /** The patched `fillText` / `strokeText` of the canvas's 2d context: the arguments passed
        on to the native call, moved only once the context has the offsets installed. */
    method DrawText(canvas: Canvas, args: seq<Value>) returns (forwarded: seq<Value>)
      ensures !canvas.textShifted ==> forwarded == args
      ensures canvas.textShifted ==> forwarded == TextArgs(args, profile)
    {
      forwarded := if canvas.textShifted then TextArgs(args, profile) else args;
    }

    /** `applyImageDataNoise(imageData)`: one draw per pixel, in pixel order, added (scaled by
        50 * noise) to red, green and blue and clamped; alpha is never written. */
    method ApplyImageDataNoise(image: ImageData)
      requires image.Valid()
      modifies image.data, rng
      ensures image.data[..] == ImageNoised(old(image.data[..]), rng.source, old(rng.cursor), profile.noise)
      ensures rng.cursor == old(rng.cursor) + image.width * image.height
    {
      var data := image.data;
      ghost var before, base := data[..], rng.cursor;
      var i, p := 0, 0;
      while i < data.Length
        invariant i == 4 * p && i <= data.Length
        invariant rng.cursor == Advance(base, p)
        invariant ImageNoisedUpTo(data[..], before, rng.source, base, profile.noise, p)
      {
        ghost var cur := data[..];
        var r := rng.Next();
        ShiftPixel(data, p, Shift(r, profile.noise, 50.0));
        ImageNoiseStep(cur, data[..], before, rng.source, base, profile.noise, p);
        i, p := i + 4, p + 1;
      }
      ImageNoisedAll(data[..], before, rng.source, base, profile.noise, p);
    }

    /** `detectEdges(data, width, height)`: a fresh zeroed byte map, filled at every interior
        pixel, row by row, with the truncated and capped Sobel magnitude of its neighbourhood. */
    method DetectEdges(data: array<int>, width: nat, height: nat) returns (edges: array<int>)
      requires data.Length == 4 * (width * height)
      ensures fresh(edges)
      ensures edges[..] == EdgeMap(data[..], width, height)
    {
      edges := new int[width * height](_ => 0);
      ghost var target := EdgeMap(data[..], width, height);
      BorderRowsAreZero(data[..], width, height);
      var y := 1;
      ghost var row := width;
      while y < height - 1
        invariant 1 <= y <= (if height < 2 then 1 else height - 1) && row == y * width
        invariant forall p | 0 <= p < row && p < width * height :: edges[p] == target[p]
        invariant forall p | row <= p < width * height :: edges[p] == 0
      {
        EdgeMapRow(data[..], width, height, y, row);
        FillRow(data, edges, width, height, y, row, target);
        MulSucc(y, width);
        y, row := y + 1, row + width;
      }
      RowsDone(edges[..], target, width, height, y, row);
    }

    /** The inner loop of `detectEdges`: row y of the edge map, given the rows above it. */
    method FillRow(data: array<int>, edges: array<int>, width: nat, height: nat, y: nat, ghost row: nat, ghost target: seq<int>)
      requires data.Length == 4 * (width * height) && edges.Length == width * height && data != edges
      requires 1 <= y < height - 1 && row == y * width && |target| == width * height
      requires forall x | 0 <= x < width :: row + x < width * height && target[row + x] == EdgeAt(data[..], width, height, x, y)
      requires forall p | 0 <= p < row && p < width * height :: edges[p] == target[p]
      requires forall p | row <= p < width * height :: edges[p] == 0
      modifies edges
      ensures forall p | 0 <= p < row + width && p < width * height :: edges[p] == target[p]
      ensures forall p | row + width <= p < width * height :: edges[p] == 0
    {
      if width == 0 {
        return;
      }
      assert EdgeAt(data[..], width, height, 0, y) == 0;
      assert target[row + 0] == 0;
      var x := 1;
      while x < width - 1
        invariant 1 <= x <= if width < 2 then 1 else width - 1
        invariant forall p | 0 <= p < row + x && p < width * height :: edges[p] == target[p]
        invariant forall p | row + x <= p < width * height :: edges[p] == 0
      {
        var e := SobelAt(data, width, height, x, y);
        assert target[row + x] == e;
        edges[y * width + x] := e;
        x := x + 1;
      }
      if 2 <= width {
        var last := width - 1;
        assert EdgeAt(data[..], width, height, last, y) == 0;
        assert target[row + last] == 0 == edges[row + last];
        assert x == last;
      }
      assert forall p | 0 <= p < row + width && p < width * height :: edges[p] == target[p];
    }

    /** The body of `detectEdges`'s inner loop at interior pixel (x, y): the nine neighbour
        brightnesses, both Sobel sums, the magnitude capped at 255 and truncated. */
    method SobelAt(data: array<int>, width: nat, height: nat, x: nat, y: nat) returns (e: int)
      requires data.Length == 4 * (width * height)
      requires 1 <= x < width - 1 && 1 <= y < height - 1
      ensures e == EdgeAt(data[..], width, height, x, y)
    {
      var w := Window(data[..], width, height, x, y);
      var gx, gy := Apply(SobelX, w), Apply(SobelY, w);
      e := EdgeLevel(gx * gx + gy * gy);
    }

    /** The selective loop of `applyCanvasNoise`: for every pixel whose edge value exceeds 128,
        in pixel order, one draw (scaled by 255 * noise) added to red, green and blue and
        clamped. */
    method NoiseEdgePixels(data: array<int>, edges: array<int>)
      requires data.Length == 4 * edges.Length && data != edges
      modifies data, rng
      ensures data[..] == SelectiveNoised(old(data[..]), old(edges[..]), rng.source, old(rng.cursor), profile.noise)
      ensures rng.cursor == Advance(old(rng.cursor), EdgeCount(old(edges[..])))
    {
      ghost var before, base := data[..], rng.cursor;
      var i := 0;
      while i < edges.Length
        invariant i <= edges.Length
        invariant rng.cursor == Advance(base, EdgeCount(edges[..i]))
        invariant SelectedUpTo(data[..], before, edges[..], rng.source, base, profile.noise, i)
      {
        ghost var cur := data[..];
        EdgeCountStep(edges[..], i);
        if edges[i] > 128 {
          var r := rng.Next();
          ShiftPixel(data, i, Shift(r, profile.noise, 255.0));
        }
        SelectiveStep(cur, data[..], before, edges[..], rng.source, base, profile.noise, i);
        i := i + 1;
      }
      assert edges[..] == edges[..edges.Length];
      SelectedAll(data[..], before, edges[..], rng.source, base, profile.noise);
    }

    /** The patched `getImageData(sx, sy, sw, sh)` on the canvas's 2d context: canvas noise
        first, then the native read (which throws, giving null here, on an empty rectangle or
        a tainted canvas), then image-data noise on the buffer read, with fresh draws on every
        read. */
    method GetImageData(canvas: Canvas, sx: int, sy: int, sw: int, sh: int) returns (image: ImageData?)
      requires canvas.Valid() && canvas.mode == TwoD
      modifies canvas, this, rng
      decreases if canvas in applied then 1 else 4
      ensures canvas.Valid()
      ensures canvas.State() == NoiseStep(old(canvas.State()), old(canvas in applied), rng.source, old(rng.cursor), profile).surface
      ensures applied == old(applied) + {canvas}
      ensures sw == 0 || sh == 0 || canvas.tainted ==>
        image == null && rng.cursor == NoiseStep(old(canvas.State()), old(canvas in applied), rng.source, old(rng.cursor), profile).cursor
      ensures !(sw == 0 || sh == 0 || canvas.tainted) ==>
        image != null && fresh(image) && fresh(image.data) && image.Valid()
        && image.width == RectSize(sw) && image.height == RectSize(sh)
        && image.data[..] == ImageNoised(Crop(canvas.pixels, canvas.width, canvas.height, RectStart(sx, sw), RectStart(sy, sh), RectSize(sw), RectSize(sh)),
                                         rng.source, NoiseStep(old(canvas.State()), old(canvas in applied), rng.source, old(rng.cursor), profile).cursor, profile.noise)
        && rng.cursor == NoiseStep(old(canvas.State()), old(canvas in applied), rng.source, old(rng.cursor), profile).cursor + RectSize(sw) * RectSize(sh)
    {
      NoiseMarks(canvas.State(), canvas in applied, rng.source, rng.cursor, profile);
      ghost var before := applied;
      ApplyCanvasNoise(canvas);
      AddedOnly(applied, before, canvas);
      if sw == 0 || sh == 0 || canvas.tainted {
        return null;
      }
      var w, h := RectSize(sw), RectSize(sh);
      image := new ImageData(w, h, Crop(canvas.pixels, canvas.width, canvas.height, RectStart(sx, sw), RectStart(sy, sh), w, h));
      ApplyImageDataNoise(image);
    }

    /** The patched `putImageData(image, dx, dy)`: image-data noise on the caller's buffer, in
        place, then the native write of the noised buffer. With no image the native call throws,
        modelled as `ok == false` with nothing changed. */
    method PutImageData(canvas: Canvas, image: ImageData?, dx: int, dy: int) returns (ok: bool)
      requires canvas.Valid() && (image != null ==> image.Valid())
      modifies canvas, rng, if image != null then {image.data} else {}
      ensures canvas.Valid()
      ensures ok == (image != null)
      ensures image == null ==> canvas.State() == old(canvas.State()) && rng.cursor == old(rng.cursor)
      ensures image != null ==>
        image.data[..] == ImageNoised(old(image.data[..]), rng.source, old(rng.cursor), profile.noise)
        && rng.cursor == old(rng.cursor) + image.width * image.height
        && canvas.State() == old(canvas.State()).(pixels := Blit(old(canvas.pixels), old(canvas.width), old(canvas.height), image.data[..], image.width, image.height, dx, dy))
    {
      if image == null {
        return false;
      }
      ApplyImageDataNoise(image);
      canvas.pixels := Blit(canvas.pixels, canvas.width, canvas.height, image.data[..], image.width, image.height, dx, dy);
      ok := true;
    }

    /** `applyCanvasNoise(canvas)`, as written: exactly the step `NoiseStep` on the canvas,
        the guard set and the generator. */
    method ApplyCanvasNoise(canvas: Canvas?)
      requires canvas != null ==> canvas.Valid()
      modifies canvas, this, rng
      decreases if canvas != null && canvas !in applied then 3 else 0
      ensures canvas == null ==> applied == old(applied) && rng.cursor == old(rng.cursor)
      ensures canvas != null ==> (
        && canvas.Valid()
        && canvas.State() == NoiseStep(old(canvas.State()), old(canvas in applied), rng.source, old(rng.cursor), profile).surface
        && rng.cursor == NoiseStep(old(canvas.State()), old(canvas in applied), rng.source, old(rng.cursor), profile).cursor
        && (canvas in applied <==> NoiseStep(old(canvas.State()), old(canvas in applied), rng.source, old(rng.cursor), profile).marked)
        && applied - {canvas} == old(applied) - {canvas})
    {
      if canvas == null || canvas in applied {
        return;
      }
      ghost var s := canvas.State();
      var ctx := GetContext(canvas, "2d");
      if !ctx {
        return;
      }
      var width, height := canvas.width, canvas.height;
      if width == 0 || height == 0 {
        return;
      }
      NoiseBitmap(canvas);
    }

    /** The `try` block of `applyCanvasNoise`, on a non-empty canvas whose 2d context is in
        hand (so the canvas is already in the guard set): the read, which throws on a tainted
        canvas (the exception is caught and nothing else happens); the selective loop over the
        edge pixels of the buffer read; the write; the watermark. */
    method NoiseBitmap(canvas: Canvas)
      requires canvas.Valid() && canvas.mode == TwoD && canvas in applied
      requires canvas.width > 0 && canvas.height > 0
      modifies canvas, this, rng
      decreases 2
      ensures canvas.Valid() && applied == old(applied)
      ensures canvas.tainted ==> canvas.State() == old(canvas.State()) && rng.cursor == old(rng.cursor)
      ensures !canvas.tainted ==>
        && canvas.State() == old(canvas.State()).(pixels := FullNoise(old(canvas.pixels), old(canvas.width), old(canvas.height), rng.source, old(rng.cursor), profile).pixels,
                                                  fills := old(canvas.fills) + [FullNoise(old(canvas.pixels), old(canvas.width), old(canvas.height), rng.source, old(rng.cursor), profile).mark])
        && rng.cursor == FullNoise(old(canvas.pixels), old(canvas.width), old(canvas.height), rng.source, old(rng.cursor), profile).markDraw + 3
    {
      ghost var s, base := canvas.State(), rng.cursor;
      var width, height := canvas.width, canvas.height;
      NoiseGuard(s, true, rng.source, base, profile);
      AlreadyIn(applied, canvas);
      var image := GetImageData(canvas, 0, 0, width, height);
      if image == null {
        return;
      }
      CropWhole(s.pixels, width, height);
      assert image.width == width && image.height == height;
      ghost var read, at := image.data[..], rng.cursor;
      FullNoiseStages(s.pixels, width, height, rng.source, base, profile, read, at);
      NoiseAndWrite(canvas, image);
      applied := applied + {canvas};
    }

    /** The rest of the `try` block, on the buffer read: the edge map, then `WriteBackEdges`. */
    method NoiseAndWrite(canvas: Canvas, image: ImageData)
      requires canvas.Valid() && image.Valid() && image.width == canvas.width && image.height == canvas.height
      modifies canvas, rng, image.data
      ensures canvas.Valid()
      ensures canvas.State() == old(canvas.State()).(
        pixels := WriteBack(old(image.data[..]), EdgeMap(old(image.data[..]), image.width, image.height), image.width, image.height, rng.source, old(rng.cursor), profile).pixels,
        fills := old(canvas.fills) + [WriteBack(old(image.data[..]), EdgeMap(old(image.data[..]), image.width, image.height), image.width, image.height, rng.source, old(rng.cursor), profile).mark])
      ensures rng.cursor == WriteBack(old(image.data[..]), EdgeMap(old(image.data[..]), image.width, image.height), image.width, image.height, rng.source, old(rng.cursor), profile).markDraw + 3
    {
      var edges := DetectEdges(image.data, canvas.width, canvas.height);
      WriteBackEdges(canvas, image, edges);
    }

    /** The selective loop over the edge pixels, the write of the buffer through the patched
        putImageData, and the watermark. */
    method WriteBackEdges(canvas: Canvas, image: ImageData, edges: array<int>)
      requires canvas.Valid() && image.Valid() && image.width == canvas.width && image.height == canvas.height
      requires edges.Length == image.width * image.height && edges != image.data
      modifies canvas, rng, image.data
      ensures canvas.Valid()
      ensures canvas.State() == old(canvas.State()).(
        pixels := WriteBack(old(image.data[..]), old(edges[..]), image.width, image.height, rng.source, old(rng.cursor), profile).pixels,
        fills := old(canvas.fills) + [WriteBack(old(image.data[..]), old(edges[..]), image.width, image.height, rng.source, old(rng.cursor), profile).mark])
      ensures rng.cursor == WriteBack(old(image.data[..]), old(edges[..]), image.width, image.height, rng.source, old(rng.cursor), profile).markDraw + 3
    {
      ghost var s, read, at, E := canvas.State(), image.data[..], rng.cursor, edges[..];
      var width, height := canvas.width, canvas.height;
      NoiseEdgePixels(image.data, edges);
      ghost var selected, next, p := image.data[..], rng.cursor, canvas.pixels;
      var _ := PutImageData(canvas, image, 0, 0);
      BlitWhole(p, width, height, image.data[..]);
      ghost var markDraw := rng.cursor;
      WriteBackStages(read, E, width, height, rng.source, at, profile, selected, next, markDraw);
      DrawWatermark(canvas, width, height);
    }

    /** The watermark: under `save()` / `restore()`, a 1x1 fill at global alpha 0.01 at the
        canvas's bottom-right pixel moved by the profile offsets, coloured by three draws. */
    method DrawWatermark(canvas: Canvas, width: nat, height: nat)
      modifies canvas, rng
      ensures canvas.State() == old(canvas.State()).(fills := old(canvas.fills) + [Watermark(rng.source, old(rng.cursor), width, height, profile)])
      ensures rng.cursor == old(rng.cursor) + 3
    {
      var r1 := rng.Next();
      var r2 := rng.Next();
      var r3 := rng.Next();
      canvas.fills := canvas.fills + [Fill(width as real - 1.0 + profile.offsetX, height as real - 1.0 + profile.offsetY,
                                           ColourByte(r1), ColourByte(r2), ColourByte(r3), 0.01)];
    }

    /** The patched `toDataURL()` / `toBlob()`: canvas noise, then the native export, modelled
        as the bitmap it encodes. */
    method Export(canvas: Canvas) returns (bitmap: seq<int>)
      requires canvas.Valid()
      modifies canvas, this, rng
      ensures canvas.Valid() && bitmap == canvas.pixels
      ensures canvas.State() == NoiseStep(old(canvas.State()), old(canvas in applied), rng.source, old(rng.cursor), profile).surface
      ensures rng.cursor == NoiseStep(old(canvas.State()), old(canvas in applied), rng.source, old(rng.cursor), profile).cursor
    {
      ApplyCanvasNoise(canvas);
      bitmap := canvas.pixels;
    }
  }
}
