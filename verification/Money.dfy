/**
  Amounts of money: whole cents, and the half-up rounding of `money` in
  `app/modules/administracion/purchase_workflow.py`, which is also how a
  two-decimal column stores a value.
 */
module Money {
  type Cents = int

  /** `Decimal.quantize(Decimal("0.01"), ROUND_HALF_UP)`, in cents; ties move away from zero. */
  function Round(amount: real): Cents {
    if amount >= 0.0 then (amount * 100.0 + 0.5).Floor else -((-amount * 100.0 + 0.5).Floor)
  }

  function FromCents(c: Cents): real { c as real / 100.0 }

  /** The result is the nearest cent, and a tie goes to the cent further from zero. */
  lemma RoundIsNearest(amount: real, c: Cents)
    ensures c == Round(amount) <==>
      if amount >= 0.0 then -0.5 <= amount * 100.0 - c as real < 0.5
      else -0.5 < amount * 100.0 - c as real <= 0.5
  {
    var scaled := if amount >= 0.0 then amount * 100.0 + 0.5 else -amount * 100.0 + 0.5;
    var f := scaled.Floor;
    assert f as real <= scaled < f as real + 1.0;
  }

  /** Rounding a whole number of cents changes nothing. */
  lemma RoundExact(c: Cents)
    ensures Round(FromCents(c)) == c
  {
    RoundIsNearest(FromCents(c), c);
  }

  /** `c` cents are the cents nearest to an amount that is not negative, ties going up. */
  predicate Nearest(amount: real, c: Cents) { -0.5 <= amount * 100.0 - c as real < 0.5 }

  lemma NearestIsRound(amount: real, c: Cents)
    requires amount >= 0.0
    ensures Nearest(amount, c) <==> c == Round(amount)
  {
    RoundIsNearest(amount, c);
  }
}
