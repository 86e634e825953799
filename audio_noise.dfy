/** The arithmetic of the audio interceptor (content/modules/interceptors/audio.js): the noise
    each `AnalyserNode` handler adds to one sample, the whole buffer each handler leaves, and
    the jitter of the construction-time rewrites. Samples and parameters are `real`s. */
module AudioNoise {
  import opened SeededStream
  import opened PixelGrid
  import opened JsValues

  /** The audio part of the session profile. */
  datatype AudioProfile = AudioProfile(noise: real, sampleRate: real)

  /** |a * b| stays under |a| * m when |b| does under m. */
  lemma AbsMulBound(a: real, b: real, m: real)
    requires Abs(b) <= m
    ensures Abs(a * b) <= Abs(a) * m
  {
    if a < 0.0 {
      assert Abs(a * b) == -a * Abs(b);
    } else {
      assert Abs(a * b) == a * Abs(b);
    }
  }

  /** A draw moved to be centred on zero: `rng() - 0.5`, in [-0.5, 0.5). */
  function Centred(r: Unit): (c: real)
    ensures -0.5 <= c < 0.5 && Abs(c) <= 0.5
  {
    r - 0.5
  }

  // ---------------------------------------------------------------- byte handlers

  /** `Math.floor((rng() - 0.5) * 2)`: one less for a draw below one half, nothing otherwise. */
  function ByteJitter(r: Unit): (j: int)
    ensures j == (if r < 0.5 then -1 else 0)
  {
    (Centred(r) * 2.0).Floor
  }

  /** `Math.max(0, Math.min(255, v + jitter))`: a byte sample after one draw. */
  function JitterByte(v: int, r: Unit): (b: int)
    ensures IsByte(b)
  {
    var x := v + ByteJitter(r);
    if x < 0 then 0 else if x > 255 then 255 else x
  }

  /** On a byte, the jitter takes one off exactly when the draw is below one half and the byte
      is not already 0; it never adds. */
  lemma JitterByteLowers(v: int, r: Unit)
    requires IsByte(v)
    ensures JitterByte(v, r) == v - 1 <==> (v > 0 && r < 0.5)
    ensures JitterByte(v, r) == v <==> (v == 0 || r >= 0.5)
    ensures v - 1 <= JitterByte(v, r) <= v
  {
  }

  /** The buffer a byte handler (`getByteFrequencyData`, `getByteTimeDomainData`) leaves: sample
      i jittered by draw `base + i`. */
  function BytesJittered(s: seq<int>, src: nat -> Unit, base: nat): (r: seq<int>)
    ensures |r| == |s|
  {
    seq(|s|, i requires 0 <= i < |s| => JitterByte(s[i], src(Advance(base, i))))
  }

  /** The buffer holds bytes whatever it held, and a byte buffer never gains: every sample
      stays or loses one, and loses one exactly where its draw is below one half and it is
      not 0. */
  lemma BytesJitteredLower(s: seq<int>, src: nat -> Unit, base: nat)
    ensures Bytes(BytesJittered(s, src, base))
    ensures Bytes(s) ==> forall i | 0 <= i < |s| :: s[i] - 1 <= BytesJittered(s, src, base)[i] <= s[i]
    ensures Bytes(s) ==> forall i | 0 <= i < |s| ::
      BytesJittered(s, src, base)[i] == s[i] - 1 <==> (s[i] > 0 && src(Advance(base, i)) < 0.5)
  {
    var r := BytesJittered(s, src, base);
    forall i | 0 <= i < |s|
      ensures IsByte(r[i])
      ensures IsByte(s[i]) ==> s[i] - 1 <= r[i] <= s[i]
      ensures IsByte(s[i]) ==> (r[i] == s[i] - 1 <==> (s[i] > 0 && src(Advance(base, i)) < 0.5))
    {
      assert r[i] == JitterByte(s[i], src(Advance(base, i)));
      if IsByte(s[i]) {
        JitterByteLowers(s[i], src(Advance(base, i)));
      }
    }
  }

  // ---------------------------------------------------------------- float time-domain handler

  /** `(rng() - 0.5) * noise * 0.1`: at most a twentieth of the noise level either way. */
  function TimeShift(r: Unit, noise: real): (d: real)
    ensures Abs(d) <= 0.05 * Abs(noise)
  {
    AbsMulBound(noise, Centred(r), 0.5);
    Centred(r) * noise * 0.1
  }

  /** `Math.max(-1, Math.min(1, v))`. */
  function ClampUnit(v: real): (c: real)
    ensures -1.0 <= c <= 1.0
  {
    if v > 1.0 then 1.0 else if v < -1.0 then -1.0 else v
  }

  /** Clamping to [-1, 1] keeps a value already there, and otherwise moves it to the nearest
      end: it never moves a value away from any point of [-1, 1]. */
  lemma ClampUnitNearest(v: real, a: real)
    requires -1.0 <= a <= 1.0
    ensures -1.0 <= v <= 1.0 ==> ClampUnit(v) == v
    ensures Abs(ClampUnit(v) - a) <= Abs(v - a)
  {
  }

  /** The buffer `getFloatTimeDomainData` leaves: sample i shifted by draw `base + i` and
      clamped to [-1, 1]. */
  function TimeNoised(s: seq<real>, src: nat -> Unit, base: nat, noise: real): (r: seq<real>)
    ensures |r| == |s|
  {
    seq(|s|, i requires 0 <= i < |s| => ClampUnit(s[i] + TimeShift(src(Advance(base, i)), noise)))
  }

  /** Every sample ends in [-1, 1], and one that was already there moves by at most a
      twentieth of the noise level. */
  lemma TimeNoisedNear(s: seq<real>, src: nat -> Unit, base: nat, noise: real)
    ensures forall i | 0 <= i < |s| :: -1.0 <= TimeNoised(s, src, base, noise)[i] <= 1.0
    ensures forall i | 0 <= i < |s| && -1.0 <= s[i] <= 1.0 ::
      Abs(TimeNoised(s, src, base, noise)[i] - s[i]) <= 0.05 * Abs(noise)
  {
    forall i | 0 <= i < |s|
      ensures -1.0 <= TimeNoised(s, src, base, noise)[i] <= 1.0
      ensures -1.0 <= s[i] <= 1.0 ==> Abs(TimeNoised(s, src, base, noise)[i] - s[i]) <= 0.05 * Abs(noise)
    {
      var d := TimeShift(src(Advance(base, i)), noise);
      assert TimeNoised(s, src, base, noise)[i] == ClampUnit(s[i] + d);
      if -1.0 <= s[i] <= 1.0 {
        ClampUnitNearest(s[i] + d, s[i]);
      }
    }
  }

  // ---------------------------------------------------------------- float frequency handler

  /** The weight `1 - (i / length) * 0.5` of bin i: 1 at the lowest bin, above 0.5 everywhere. */
  function BinWeight(i: nat, length: nat): (w: real)
    requires i < length
    ensures 0.5 < w <= 1.0
  {
    1.0 - (i as real / length as real) * 0.5
  }

  /** Higher bins weigh no more than lower ones. */
  lemma BinWeightFalls(i: nat, j: nat, length: nat)
    requires i <= j < length
    ensures BinWeight(j, length) <= BinWeight(i, length)
  {
    var l := length as real;
    assert i as real / l <= j as real / l by {
      assert i as real / l * l == i as real && j as real / l * l == j as real;
    }
  }

  /** `(rng() - 0.5) * (noise * (1 - (i / length) * 0.5))`: at most half the weighted noise
      level either way. */
  function FrequencyShift(r: Unit, noise: real, i: nat, length: nat): (d: real)
    requires i < length
    ensures Abs(d) <= 0.5 * Abs(noise) * BinWeight(i, length)
  {
    var amount := noise * BinWeight(i, length);
    AbsMulBound(amount, Centred(r), 0.5);
    AbsMulBound(noise, BinWeight(i, length), BinWeight(i, length));
    Centred(r) * amount
  }

  /** The buffer `getFloatFrequencyData` leaves: bin i shifted by draw `base + i`, with no
      clamp. */
  function FrequencyNoised(s: seq<real>, src: nat -> Unit, base: nat, noise: real): (r: seq<real>)
    ensures |r| == |s|
  {
    seq(|s|, i requires 0 <= i < |s| => s[i] + FrequencyShift(src(Advance(base, i)), noise, i, |s|))
  }

  /** Every bin moves by at most half the noise level, and the bound shrinks, never grows,
      towards the higher bins. */
  lemma FrequencyNoisedNear(s: seq<real>, src: nat -> Unit, base: nat, noise: real)
    ensures forall i | 0 <= i < |s| ::
      Abs(FrequencyNoised(s, src, base, noise)[i] - s[i]) <= 0.5 * Abs(noise) * BinWeight(i, |s|)
    ensures forall i | 0 <= i < |s| :: 0.5 * Abs(noise) * BinWeight(i, |s|) <= 0.5 * Abs(noise)
    ensures forall i, j | 0 <= i <= j < |s| ::
      0.5 * Abs(noise) * BinWeight(j, |s|) <= 0.5 * Abs(noise) * BinWeight(i, |s|)
  {
    forall i | 0 <= i < |s|
      ensures Abs(FrequencyNoised(s, src, base, noise)[i] - s[i]) <= 0.5 * Abs(noise) * BinWeight(i, |s|)
    {
      var d := FrequencyShift(src(Advance(base, i)), noise, i, |s|);
      assert FrequencyNoised(s, src, base, noise)[i] - s[i] == d;
    }
    forall i, j | 0 <= i <= j < |s|
      ensures 0.5 * Abs(noise) * BinWeight(j, |s|) <= 0.5 * Abs(noise) * BinWeight(i, |s|)
    {
      BinWeightFalls(i, j, |s|);
    }
  }

  // ---------------------------------------------------------------- construction-time jitter

  /** `value + (rng() - 0.5) * width`: within half the width of the value. */
  function Jittered(value: real, r: Unit, width: real): (v: real)
    requires width > 0.0
    ensures value - width / 2.0 <= v < value + width / 2.0
  {
    value + Centred(r) * width
  }

  /** The five parameters `createDynamicsCompressor` assigns. */
  datatype CompressorSettings =
    CompressorSettings(threshold: real, knee: real, ratio: real, attack: real, release: real)

  /** The compressor parameters after five draws from `base`, taken in the order threshold,
      knee, ratio, attack, release; each lies within half its jitter width of its default. */
  function CompressorJitter(src: nat -> Unit, base: nat): (c: CompressorSettings)
    ensures -24.05 <= c.threshold < -23.95 && 29.95 <= c.knee < 30.05
    ensures 11.95 <= c.ratio < 12.05
    ensures 0.00295 <= c.attack < 0.00305 && 0.2495 <= c.release < 0.2505
  {
    CompressorSettings(
      Jittered(-24.0, src(base), 0.1),
      Jittered(30.0, src(Advance(base, 1)), 0.1),
      Jittered(12.0, src(Advance(base, 2)), 0.1),
      Jittered(0.003, src(Advance(base, 3)), 0.0001),
      Jittered(0.25, src(Advance(base, 4)), 0.001))
  }

  /** `value * (1 + (rng() - 0.5) * 0.0001)`: the frequency an oscillator's patched setter
      schedules, off by at most 0.00005 of the value. */
  function Detuned(value: real, r: Unit): (f: real)
    ensures Abs(f - value) <= 0.00005 * Abs(value)
  {
    var delta := Centred(r) * 0.0001;
    AbsMulBound(value, delta, 0.00005);
    value * (1.0 + delta)
  }

  /** `(rng() - 0.5) * 0.0001`: the shift of an oscillator's start time. */
  function StartShift(r: Unit): (d: real)
    ensures -0.00005 <= d < 0.00005
  {
    Centred(r) * 0.0001
  }

  /** The arguments the patched `start` passes on, given the draw it would take: a number as
      first argument is moved by at most 0.00005; anything else passes unchanged. */
  function StartArgs(args: seq<Value>, r: Unit): (a: seq<Value>)
    ensures |a| == |args| && (args != [] ==> a[1..] == args[1..])
    ensures args != [] && args[0].Num? ==> a[0].Num? && Abs(a[0].n - args[0].n) <= 0.00005
    ensures args == [] || !args[0].Num? ==> a == args
  {
    if |args| > 0 && args[0].Num? then args[0 := Num(args[0].n + StartShift(r))] else args
  }

  /** `new OfflineAudioContext(...args)`: the arguments passed on, the third replaced by the
      profile's sample rate when there are at least three. */
  function OfflineArgs(args: seq<Value>, sampleRate: real): (r: seq<Value>)
    ensures |r| == |args|
    ensures |args| >= 3 ==> r[2] == Num(sampleRate)
    ensures forall i | 0 <= i < |args| && (i != 2 || |args| < 3) :: r[i] == args[i]
  {
    if |args| >= 3 then args[2 := Num(sampleRate)] else args
  }

  /** Rewriting the arguments once more changes nothing. */
  lemma OfflineArgsIdempotent(args: seq<Value>, sampleRate: real)
    ensures OfflineArgs(OfflineArgs(args, sampleRate), sampleRate) == OfflineArgs(args, sampleRate)
  {
  }
}
