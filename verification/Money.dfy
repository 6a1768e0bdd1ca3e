/** Rounding to cents, halves away from zero. An amount in cents is an integer. */
module Money {
  function Round(x: real): int {
    if x >= 0.0 then (x * 100.0 + 0.5).Floor else -((-x * 100.0 + 0.5).Floor)
  }

  function Amount(cents: int): real {
    cents as real / 100.0
  }

  /** Rounding moves an amount by at most half a cent, and by a half only away from zero. */
  lemma WithinHalfACent(x: real)
    ensures x >= 0.0 ==> 0 <= Round(x) && x * 100.0 - 0.5 < Round(x) as real <= x * 100.0 + 0.5
    ensures x <= 0.0 ==> Round(x) <= 0 && x * 100.0 - 0.5 <= Round(x) as real < x * 100.0 + 0.5
  {
  }

  lemma RoundIsMonotone(x: real, y: real)
    requires x <= y
    ensures Round(x) <= Round(y)
  {
    WithinHalfACent(x);
    WithinHalfACent(y);
  }

  lemma RoundIsIdempotent(cents: int)
    ensures Round(Amount(cents)) == cents
  {
    WithinHalfACent(Amount(cents));
    assert Amount(cents) * 100.0 == cents as real;
  }

  /** A difference rounds to a negative amount exactly when it is at least half a cent below zero. */
  lemma NegativeIff(x: real)
    ensures Round(x) < 0 <==> x <= -0.005
  {
    WithinHalfACent(x);
    if x < 0.0 {
      assert (-x * 100.0 + 0.5).Floor >= 1 <==> -x * 100.0 + 0.5 >= 1.0;
    }
  }

  /** Rounding reaches a bound that is not positive exactly when the amount is less than half a cent below it. */
  lemma RoundAtLeast(x: real, bound: int)
    requires bound <= 0
    ensures Round(x) >= bound <==> x * 100.0 > bound as real - 0.5
  {
    WithinHalfACent(x);
    if x < 0.0 {
      var n := (-x * 100.0 + 0.5).Floor;
      assert n <= -bound <==> -x * 100.0 + 0.5 < (-bound + 1) as real;
    }
  }
}
