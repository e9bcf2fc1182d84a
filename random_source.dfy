/** The seeded pseudo-random source a floor generator owns. */
module Randomness {

  /** What a seeded System.Random answers: stream(k, n) is the offset below n that it yields
      when its k-th call asks for a value of a range of n integers. How the library computes
      it is not modelled; all that is kept is that the offset lies in the range. */
  type Stream = f: (nat, nat) -> nat | forall k, n :: 0 < n ==> f(k, n) < n
    witness (k: nat, n: nat) => 0

  /** The value a call Next(lo, hi) returns when it is call number k on `stream`:
      lo itself for an empty range, otherwise a value of the half-open range [lo, hi). */
  function Pick(stream: Stream, k: nat, lo: int, hi: int): (r: int)
    requires lo <= hi
    ensures lo == hi ==> r == lo
    ensures lo < hi ==> lo <= r < hi
  {
    if lo == hi then lo else lo + stream(k, hi - lo)
  }

  /** A stand-in for System.Random. How the library turns a seed into its answers is not
      modelled: it is the parameter `algorithm` of the constructor, and the source holds
      the resulting stream together with how many calls it has answered. */
  class RandomSource {
    const Seed: int
    /** The answers this source gives, call by call. */
    const Samples: Stream
    /** How many calls it has answered so far. */
    var Position: nat

    constructor (seed: int, algorithm: int -> Stream)
      ensures Seed == seed && Samples == algorithm(seed) && Position == 0
    {
      Seed := seed;
      Samples := algorithm(seed);
      Position := 0;
    }

    /** Random.Next(minValue, maxValue): answers one more call with a value of [lo, hi),
        or lo when the range is empty. */
    method Next(lo: int, hi: int) returns (r: int)
      requires lo <= hi
      modifies this
      ensures lo < hi ==> lo <= r < hi
      ensures lo == hi ==> r == lo
      ensures r == Pick(Samples, old(Position), lo, hi)
      ensures Position == old(Position) + 1
    {
      r := Pick(Samples, Position, lo, hi);
      Position := Position + 1;
    }
  }
}
