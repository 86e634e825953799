/** The seeded pseudo-random stream each noise interceptor owns.
    The generator library itself is foreign: it is modelled as a function from a seed
    string to an infinite stream of reals in [0, 1), read through a cursor. */
module SeededStream {

  /** One draw of the generator: a real in [0, 1). */
  type Unit = r: real | 0.0 <= r < 1.0

  /** The seed handed to the generator for one surface: `seed + '_canvas'`, `seed + '_audio'`. */
  function StreamSeed(seed: string, surface: string): (s: string)
    ensures |s| == |seed| + 1 + |surface|
    ensures s[..|seed|] == seed && s[|seed|] == '_' && s[|seed| + 1..] == surface
  {
    seed + "_" + surface
  }

  /** Whatever the session seeds are, the canvas stream and the audio stream are seeded
      with different strings: the two seeds end in different characters. */
  lemma CanvasAndAudioSeedsDiffer(s: string, t: string)
    ensures StreamSeed(s, "canvas") != StreamSeed(t, "audio")
  {
    var c, a := StreamSeed(s, "canvas"), StreamSeed(t, "audio");
    assert c[|c| - 1] == 's' by { assert c[|s| + 1..][5] == 's'; }
    assert a[|a| - 1] == 'o' by { assert a[|t| + 1..][4] == 'o'; }
  }

  /** The cursor of a stream after `n` more draws. */
  function Advance(cursor: nat, n: nat): nat { cursor + n }

  /** A generator instance: the stream chosen by its seed, and how much of it was consumed. */
  class Rng {
    const source: nat -> Unit
    var cursor: nat

    /** `new Math.seedrandom(seed)`, with the library given as `generator`. */
    constructor (generator: string -> (nat -> Unit), seed: string)
      ensures source == generator(seed) && cursor == 0
    {
      source := generator(seed);
      cursor := 0;
    }

    /** `rng()`: the next value of the stream. */
    method Next() returns (r: Unit)
      modifies this
      ensures r == source(old(cursor)) && cursor == old(cursor) + 1
    {
      r := source(cursor);
      cursor := cursor + 1;
    }
  }
}
