/**
 * The random source of the simulator. Every call of `Math.random()` is one
 * draw from an injected stream: the i-th call returns `src(i)`, a real number
 * in [0, 1). Code that consumes draws threads a cursor, the index of the next
 * unused draw, so that a run is a deterministic function of the stream.
 */
module Draws {
  /** The values `Math.random()` can return. */
  type Uniform = r: real | 0.0 <= r < 1.0

  /** An injected stream of draws, indexed by call number. */
  type Source = nat -> Uniform

  /** `Math.floor(u * n)`: a uniformly chosen index below `n`. */
  function Pick(u: Uniform, n: nat): (k: nat)
    requires n > 0
    ensures k < n
    ensures k as real <= u * n as real < k as real + 1.0
  {
    assert 0.0 <= u * n as real < n as real;
    (u * n as real).Floor
  }

  /** The Bernoulli test `Math.random() < p`. */
  predicate Succeeds(u: Uniform, p: real) {
    u < p
  }
}
