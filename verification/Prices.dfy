/**
 * A model's per-token rates (internal/modelinfo/modelinfo.go), the one-hour write rate resolved.
 */
module Prices {
  datatype Price = Price(input: real, cacheRead: real, cacheWrite: real, cacheWrite1h: real)

  predicate NonNegative(p: Price) {
    p.input >= 0.0 && p.cacheRead >= 0.0 && p.cacheWrite >= 0.0 && p.cacheWrite1h >= 0.0
  }

  function Cost(tokens: int, rate: real): real {
    tokens as real * rate
  }

  lemma {:induction false} CostGrows(a: int, b: int, rate: real)
    requires a <= b && rate >= 0.0
    ensures Cost(a, rate) <= Cost(b, rate)
  {
    var d := (b - a) as real;
    assert b as real == a as real + d;
    assert d * rate >= 0.0;
    assert b as real * rate == a as real * rate + d * rate;
  }

  lemma {:induction false} NothingCostsNothing(rate: real)
    ensures Cost(0, rate) == 0.0
  {
  }
}
