/**
 * The random source both scripts read through Python's `random` module,
 * injected as a value: an endless stream of raw words and the position of
 * the next unread one. Each draw reads one word and returns the advanced
 * source, so a fixed stream reproduces a run exactly. Only the ranges the
 * `random` module documents are promised, not its distributions.
 */
module Randomness {

  /** `random.random()` returns a multiple of 2^-53. */
  const Scale: nat := 0x20_0000_0000_0000

  datatype Rng = Rng(words: nat -> nat, pos: nat) {

    function Next(): (g: Rng)
      ensures g.pos == pos + 1
    {
      Rng(words, pos + 1)
    }

    /** `random.randint(a, b)`; every call site passes constants with a <= b. */
    function RandInt(a: int, b: int): (r: (int, Rng))
      requires a <= b
      ensures a <= r.0 <= b
      ensures r.1.pos == pos + 1
    {
      (a + words(pos) % (b - a + 1), Next())
    }

    /** `random.random()`: a value in [0, 1). */
    function Random(): (r: (real, Rng))
      ensures 0.0 <= r.0 < 1.0
      ensures r.1.pos == pos + 1
    {
      ((words(pos) % Scale) as real / Scale as real, Next())
    }

    /** `random.uniform(a, b)`, computed as `a + (b - a) * random()`. */
    function Uniform(a: real, b: real): (r: (real, Rng))
      requires a <= b
      ensures a <= r.0 <= b
      ensures r.1.pos == pos + 1
    {
      var u := Random();
      var d := b - a;
      var s := d * u.0;
      ScaleBelow(d, u.0);
      (a + s, u.1)
    }

    /** A fraction in [0, 1) of a non-negative span stays within the span. */
    static lemma ScaleBelow(d: real, u: real)
      requires 0.0 <= d && 0.0 <= u < 1.0
      ensures 0.0 <= d * u <= d
    {
    }

    /** `random.choice(xs)`: one of the elements of a non-empty sequence. */
    function Choice<T>(xs: seq<T>): (r: (T, Rng))
      requires |xs| > 0
      ensures r.0 in xs
      ensures r.1.pos == pos + 1
    {
      (xs[words(pos) % |xs|], Next())
    }
  }
}
