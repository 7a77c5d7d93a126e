/** The pseudo-random source a Generator owns (Go's *rand.Rand).
    The generator algorithm itself is not modelled: a source is described by
    `draw`, which gives the answer of an `Intn(n)` call as a function of the
    bounds of all earlier calls since the source was seeded. Every deterministic
    generator is such a function. An answer outside [0, n) is read as 0, so
    that the contract of `Intn` holds for every `draw`; for a source that
    meets the contract this changes nothing. */
module RandSource {

  /** The behaviour of a seeded source: (history of bounds, bound) -> raw answer. */
  type Draw = (seq<nat>, nat) -> nat

  /** The answer of the next `Intn(n)` after the calls recorded in `hist`
      (0 for the bound 0, on which Go panics instead of answering). */
  function Pick(draw: Draw, hist: seq<nat>, n: nat): (x: nat)
    ensures n > 0 ==> x < n
    ensures n == 0 ==> x == 0
  {
    if draw(hist, n) < n then draw(hist, n) else 0
  }

  /** A draw that answers `k` to every request whose bound exceeds `k`:
      used to show that a given choice can be made. */
  function Constant(k: nat): (d: Draw)
    ensures forall h: seq<nat>, n: nat {:trigger Pick(d, h, n)} :: k < n ==> Pick(d, h, n) == k
  {
    (h: seq<nat>, n: nat) => k
  }

  class Source {
    const draw: Draw
    /** Bounds of the `Intn` calls made so far, oldest first. */
    var hist: seq<nat>

    /** rand.New(rand.NewSource(seed)) for a seed whose source behaves as `draw`. */
    constructor (draw: Draw)
      ensures this.draw == draw && hist == []
    {
      this.draw := draw;
      hist := [];
    }

    /** rand.Intn: requires a positive bound (Go panics otherwise). */
    method Intn(n: nat) returns (x: nat)
      requires n > 0
      modifies this
      ensures x < n
      ensures x == Pick(draw, old(hist), n)
      ensures hist == old(hist) + [n]
    {
      x := Pick(draw, hist, n);
      hist := hist + [n];
    }
  }
}
