/** The audio interceptor of content/modules/interceptors/audio.js as objects: audio contexts,
    the oscillators and compressors they create, the analyser buffers the handlers noise in
    place, and the interceptor with its generator. Every handler is proved equal to the pure
    transforms of `AudioNoise`. */
module AudioInterception {
  import opened SeededStream
  import opened JsValues
  import opened AudioNoise

  /** An `AudioContext` (`offline` false) or `OfflineAudioContext` (`offline` true). */
  class AudioContext {
    const offline: bool
    const nativeSampleRate: real
    /** The `sampleRate` getter defined on the instance by the patched constructor. */
    var sampleRateGetter: Option<real>
    var currentTime: real

    /** What reading `context.sampleRate` gives. */
    function SampleRate(): real
      reads this
    {
      if sampleRateGetter.Some? then sampleRateGetter.value else nativeSampleRate
    }

    /** The native constructor. */
    constructor (offline: bool, nativeSampleRate: real)
      ensures this.offline == offline && this.nativeSampleRate == nativeSampleRate
      ensures sampleRateGetter == None && currentTime == 0.0
    {
      this.offline, this.nativeSampleRate := offline, nativeSampleRate;
      sampleRateGetter, currentTime := None, 0.0;
    }
  }

  /** `frequency.setValueAtTime(value, time)`: one event of an audio parameter's timeline. */
  datatype Automation = Automation(value: real, time: real)

  /** An `OscillatorNode` and its `frequency` parameter. */
  class Oscillator {
    /** The context whose `createOscillator` made it (the patched setter reads its clock). */
    const context: AudioContext
    /** Whether `frequency.value` was redefined at creation by the patched `createOscillator`. */
    const patched: bool
    /** `originalFrequency`: the value of `frequency.value` when it was created. */
    const captured: real
    /** The native `frequency.value`. */
    var frequency: real
    var timeline: seq<Automation>

    constructor (context: AudioContext, patched: bool, frequency: real)
      ensures this.context == context && this.patched == patched
      ensures captured == frequency && this.frequency == frequency && timeline == []
    {
      this.context, this.patched := context, patched;
      captured, this.frequency, timeline := frequency, frequency, [];
    }

    /** What reading `frequency.value` gives: on a patched oscillator, always the value at
        creation. */
    function Value(): real
      reads this
    {
      if patched then captured else frequency
    }
  }

  /** A `DynamicsCompressorNode`'s five parameters. */
  class DynamicsCompressor {
    var threshold: real
    var knee: real
    var ratio: real
    var attack: real
    var release: real

    function Settings(): CompressorSettings
      reads this
    {
      CompressorSettings(threshold, knee, ratio, attack, release)
    }

    /** The native node, with the Web Audio defaults. */
    constructor ()
      ensures Settings() == CompressorSettings(-24.0, 30.0, 12.0, 0.003, 0.25)
    {
      threshold, knee, ratio, attack, release := -24.0, 30.0, 12.0, 0.003, 0.25;
    }
  }

  class AudioInterceptor {
    const profile: AudioProfile
    const rng: Rng

    /** `new AudioInterceptor(profile, state)`: the generator seeded with `seed + '_audio'`. */
    constructor (profile: AudioProfile, generator: string -> (nat -> Unit), seed: string)
      ensures this.profile == profile
      ensures fresh(rng) && rng.source == generator(StreamSeed(seed, "audio")) && rng.cursor == 0
    {
      this.profile := profile;
      rng := new Rng(generator, StreamSeed(seed, "audio"));
    }

    /** The patched `new AudioContext(...)`: the native context, whose `sampleRate` then reads
        as the profile's. No draw is taken. */
    method NewAudioContext(nativeSampleRate: real) returns (context: AudioContext)
      ensures fresh(context) && !context.offline && context.currentTime == 0.0
      ensures context.SampleRate() == profile.sampleRate
    {
      context := new AudioContext(false, nativeSampleRate);
      context.sampleRateGetter := Some(profile.sampleRate);
    }

    /** The patched `new OfflineAudioContext(...args)`: the native constructor called with
        `OfflineArgs(args)`, whose third argument, when there is one, is the profile's rate. */
    method NewOfflineAudioContext(args: seq<Value>) returns (forwarded: seq<Value>)
      ensures forwarded == OfflineArgs(args, profile.sampleRate)
    {
      forwarded := args;
      if |args| >= 3 {
        forwarded := forwarded[2 := Num(profile.sampleRate)];
      }
    }

    /** `context.createOscillator()`. The patch sits on `AudioContext.prototype`, so only an
        oscillator of a non-offline context gets the redefined `frequency.value`. */
    method CreateOscillator(context: AudioContext, nativeFrequency: real) returns (osc: Oscillator)
      ensures fresh(osc) && osc.context == context && osc.patched == !context.offline
      ensures osc.Value() == nativeFrequency && osc.timeline == []
    {
      osc := new Oscillator(context, !context.offline, nativeFrequency);
    }

    /** `osc.frequency.value = value`. On a patched oscillator: one draw, one event scheduled at
        the context's current time with the value detuned by at most 0.00005 of itself, and
        the value read back unchanged. Otherwise the native assignment, with no draw. */
    method SetFrequency(osc: Oscillator, value: real)
      modifies osc, rng
      ensures osc.Value() == (if osc.patched then old(osc.Value()) else value)
      ensures osc.patched ==> rng.cursor == old(rng.cursor) + 1 && osc.frequency == old(osc.frequency)
      ensures osc.patched ==> (osc.timeline ==
        old(osc.timeline) + [Automation(Detuned(value, rng.source(old(rng.cursor))), osc.context.currentTime)])
      ensures !osc.patched ==> rng.cursor == old(rng.cursor) && osc.timeline == old(osc.timeline)
    {
      if osc.patched {
        var r := rng.Next();
        osc.timeline := osc.timeline + [Automation(Detuned(value, r), osc.context.currentTime)];
      } else {
        osc.frequency := value;
      }
    }

    /** `context.createDynamicsCompressor()`. On a non-offline context, five draws set
        threshold, knee, ratio, attack and release, in that order, near their defaults. */
    method CreateDynamicsCompressor(context: AudioContext) returns (c: DynamicsCompressor)
      modifies rng
      ensures fresh(c)
      ensures !context.offline ==> c.Settings() == CompressorJitter(rng.source, old(rng.cursor))
      ensures !context.offline ==> rng.cursor == Advance(old(rng.cursor), 5)
      ensures context.offline ==> c.Settings() == CompressorSettings(-24.0, 30.0, 12.0, 0.003, 0.25)
      ensures context.offline ==> rng.cursor == old(rng.cursor)
    {
      c := new DynamicsCompressor();
      if !context.offline {
        var s := DrawCompressorSettings();
        c.threshold, c.knee, c.ratio, c.attack, c.release := s.threshold, s.knee, s.ratio, s.attack, s.release;
      }
    }

    /** The five draws of the patched `createDynamicsCompressor`, in the order the parameters
        are assigned. */
    method DrawCompressorSettings() returns (s: CompressorSettings)
      modifies rng
      ensures s == CompressorJitter(rng.source, old(rng.cursor))
      ensures rng.cursor == Advance(old(rng.cursor), 5)
    {
      ghost var base := rng.cursor;
      var t := rng.Next();
      var k := rng.Next();
      assert k == rng.source(Advance(base, 1));
      var q := rng.Next();
      assert q == rng.source(Advance(base, 2));
      var a := rng.Next();
      assert a == rng.source(Advance(base, 3));
      var l := rng.Next();
      assert l == rng.source(Advance(base, 4));
      s := CompressorSettings(Jittered(-24.0, t, 0.1), Jittered(30.0, k, 0.1), Jittered(12.0, q, 0.1),
        Jittered(0.003, a, 0.0001), Jittered(0.25, l, 0.001));
    }

    /** The patched `OscillatorNode.prototype.start(...args)`: a number as first argument is
        shifted by one draw; any other call passes its arguments on with no draw. */
    method Start(args: seq<Value>) returns (forwarded: seq<Value>)
      modifies rng
      ensures forwarded == StartArgs(args, rng.source(old(rng.cursor)))
      ensures rng.cursor == old(rng.cursor) + (if args != [] && args[0].Num? then 1 else 0)
    {
      forwarded := args;
      if |args| > 0 && args[0].Num? {
        var r := rng.Next();
        forwarded := forwarded[0 := Num(args[0].n + StartShift(r))];
      }
    }

    /** The patched `getFloatFrequencyData(buffer)`, from the point the native call has filled
        `buffer`: nothing for a falsy argument (`null`), otherwise one draw per bin, in bin
        order, each added with its frequency weight. */
    method GetFloatFrequencyData(buffer: array?<real>)
      modifies buffer, rng
      ensures buffer == null ==> rng.cursor == old(rng.cursor)
      ensures buffer != null ==>
        buffer[..] == FrequencyNoised(old(buffer[..]), rng.source, old(rng.cursor), profile.noise)
      ensures buffer != null ==> rng.cursor == Advance(old(rng.cursor), buffer.Length)
    {
      if buffer == null {
        return;
      }
      ghost var before, base := buffer[..], rng.cursor;
      var i := 0;
      while i < buffer.Length
        invariant i <= buffer.Length
        invariant rng.cursor == Advance(base, i)
        invariant forall j | 0 <= j < i ::
          buffer[j] == before[j] + FrequencyShift(rng.source(Advance(base, j)), profile.noise, j, buffer.Length)
        invariant forall j | i <= j < buffer.Length :: buffer[j] == before[j]
      {
        var r := rng.Next();
        buffer[i] := buffer[i] + FrequencyShift(r, profile.noise, i, buffer.Length);
        i := i + 1;
      }
    }

    /** The shared loop of the two byte handlers: one draw per sample, in order, each sample
        lowered by its jitter and kept a byte. */
    method JitterBytes(buffer: array<int>)
      modifies buffer, rng
      ensures buffer[..] == BytesJittered(old(buffer[..]), rng.source, old(rng.cursor))
      ensures rng.cursor == Advance(old(rng.cursor), buffer.Length)
    {
      ghost var before, base := buffer[..], rng.cursor;
      var i := 0;
      while i < buffer.Length
        invariant i <= buffer.Length
        invariant rng.cursor == Advance(base, i)
        invariant forall j | 0 <= j < i :: buffer[j] == JitterByte(before[j], rng.source(Advance(base, j)))
        invariant forall j | i <= j < buffer.Length :: buffer[j] == before[j]
      {
        var r := rng.Next();
        var x := buffer[i] + ByteJitter(r);
        buffer[i] := if x < 0 then 0 else if x > 255 then 255 else x;
        i := i + 1;
      }
    }

    /** The patched `getByteFrequencyData(buffer)`, from the point the native call has filled
        `buffer`: nothing for a falsy argument, otherwise `JitterBytes`. */
    method GetByteFrequencyData(buffer: array?<int>)
      modifies buffer, rng
      ensures buffer == null ==> rng.cursor == old(rng.cursor)
      ensures buffer != null ==> buffer[..] == BytesJittered(old(buffer[..]), rng.source, old(rng.cursor))
      ensures buffer != null ==> rng.cursor == Advance(old(rng.cursor), buffer.Length)
    {
      if buffer != null {
        JitterBytes(buffer);
      }
    }

    /** The patched `getByteTimeDomainData(buffer)`: the same loop as the byte frequency
        handler. */
    method GetByteTimeDomainData(buffer: array?<int>)
      modifies buffer, rng
      ensures buffer == null ==> rng.cursor == old(rng.cursor)
      ensures buffer != null ==> buffer[..] == BytesJittered(old(buffer[..]), rng.source, old(rng.cursor))
      ensures buffer != null ==> rng.cursor == Advance(old(rng.cursor), buffer.Length)
    {
      if buffer != null {
        JitterBytes(buffer);
      }
    }

    /** The patched `getFloatTimeDomainData(buffer)`, from the point the native call has filled
        `buffer`: nothing for a falsy argument, otherwise one draw per sample, in order, each
        sample shifted and clamped to [-1, 1]. */
    method GetFloatTimeDomainData(buffer: array?<real>)
      modifies buffer, rng
      ensures buffer == null ==> rng.cursor == old(rng.cursor)
      ensures buffer != null ==>
        buffer[..] == TimeNoised(old(buffer[..]), rng.source, old(rng.cursor), profile.noise)
      ensures buffer != null ==> rng.cursor == Advance(old(rng.cursor), buffer.Length)
    {
      if buffer == null {
        return;
      }
      ghost var before, base := buffer[..], rng.cursor;
      var i := 0;
      while i < buffer.Length
        invariant i <= buffer.Length
        invariant rng.cursor == Advance(base, i)
        invariant forall j | 0 <= j < i ::
          buffer[j] == ClampUnit(before[j] + TimeShift(rng.source(Advance(base, j)), profile.noise))
        invariant forall j | i <= j < buffer.Length :: buffer[j] == before[j]
      {
        var r := rng.Next();
        var v := buffer[i] + TimeShift(r, profile.noise);
        buffer[i] := if v > 1.0 then 1.0 else if v < -1.0 then -1.0 else v;
        i := i + 1;
      }
    }
  }
}
