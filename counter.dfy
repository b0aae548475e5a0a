/**
 * The sequence counter shared by the beacon worker and the listener.
 *
 * How the counter advances lives in a helper that is not part of this model,
 * so the step is a parameter of the counter: nothing here assumes that it
 * wraps at 4096, or wraps at all. Each draw happens under the counter's lock;
 * the model is sequential, so a draw is a single method call.
 */
module Counter {

  /** The counter's value after `k` draws from `v`, each applying the step once. */
  function Iterate(advance: int -> int, v: int, k: nat): int
  {
    if k == 0 then v else advance(Iterate(advance, v, k - 1))
  }

  class SequenceCounter {
    /** The value currently stored in the shared counter. */
    var value: int
    /** How many values have been drawn so far. */
    ghost var draws: nat
    /** The step of the helper that advances the counter. */
    const advance: int -> int

    constructor (initial: int, advance: int -> int)
      ensures value == initial && draws == 0 && this.advance == advance
    {
      value := initial;
      draws := 0;
      this.advance := advance;
    }

    /** Advances the counter once and returns its new value. */
    method Next() returns (n: int)
      modifies this
      ensures value == advance(old(value)) && n == value
      ensures draws == old(draws) + 1
    {
      value := advance(value);
      draws := draws + 1;
      n := value;
    }
  }
}
