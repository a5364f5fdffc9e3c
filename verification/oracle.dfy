/**
 * The parts of the environment that the core reaches through package-level
 * state or through the numeric library, made explicit.
 *
 * A random source is an infinite stream of raw variates read from a position
 * onwards; an operation that draws returns the position after its last draw.
 * The floating-point routines of the numeric library (the normal density, its
 * logarithm, the normal variate transform and the natural logarithm) are not
 * modelled: they are passed in as function values about which nothing is
 * assumed.
 */
module Oracle {

  /** A random source: the raw variate found at each position of its stream. */
  type Source = nat -> real

  /** A value produced while reading a random stream, and the position reached after it. */
  datatype Drawn<+T> = Drawn(value: T, next: nat)

  /** The library routines the core calls, one per operation it uses. */
  datatype Numerics = Numerics(
    // Normal{mu, sd}.Rand(): the normal variate obtained from one raw variate
    rand: (real, real, real) -> real,
    // Normal{mu, sd}.Prob(x): the density at x
    prob: (real, real, real) -> real,
    // Normal{mu, sd}.LogProb(x): the log-density at x, computed in closed form
    logProb: (real, real, real) -> real,
    // math.Log
    log: real -> real)
}
