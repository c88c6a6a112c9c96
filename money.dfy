/**
 * Money on recharge orders: the shop's commission and the discount drawn
 * when an order is entered. Amounts are exact reals (rupees).
 */
module Money {

  /** The commission rate: five per cent of the recharge amount. */
  const CommissionRate: real := 0.05

  /** Discount fraction bounds written into the legacy page and into the order edit form. */
  const FixedDiscountMin: real := 0.0025
  const FixedDiscountMax: real := 0.0175

  /** Five per cent of the amount less the discount, never below zero. */
  function Commission(amount: real, discount: real): (c: real)
    ensures c >= 0.0
    ensures c >= amount * CommissionRate - discount
    ensures c == 0.0 || c == amount * CommissionRate - discount
  {
    var raw := amount * CommissionRate - discount;
    if raw >= 0.0 then raw else 0.0
  }

  /** The two worked examples: (500, 5) earns 20 and (100, 10) is clipped to 0. */
  lemma CommissionExamples()
    ensures Commission(500.0, 5.0) == 20.0
    ensures Commission(100.0, 10.0) == 0.0
  {
  }

  /** With a non-negative discount the commission never exceeds five per cent of the amount. */
  lemma CommissionAtMostRate(amount: real, discount: real)
    requires amount >= 0.0 && discount >= 0.0
    ensures Commission(amount, discount) <= amount * CommissionRate
  {
  }

  /** Rounding to two decimals (whole paise), ties going up. */
  function RoundToPaise(x: real): (d: real)
    ensures x - 0.005 < d <= x + 0.005
    ensures (d * 100.0).Floor as real == d * 100.0
    ensures x >= 0.0 ==> d >= 0.0
  {
    ((x * 100.0 + 0.5).Floor as real) / 100.0
  }

  /**
   * The discount of a new order: nothing on a zero amount, otherwise the
   * amount times the drawn fraction `r`, rounded to paise.
   */
  function OrderDiscount(amount: real, r: real): (d: real)
    ensures amount == 0.0 ==> d == 0.0
    ensures amount * r - 0.005 < d <= amount * r + 0.005
    ensures (d * 100.0).Floor as real == d * 100.0
    ensures amount >= 0.0 && r >= 0.0 ==> d >= 0.0
  {
    if amount == 0.0 then 0.0 else RoundToPaise(amount * r)
  }

  /** The discount recomputed by the order edit form, which has no zero-amount branch. */
  function EditDiscount(amount: real, r: real): (d: real)
    ensures amount * r - 0.005 < d <= amount * r + 0.005
    ensures (d * 100.0).Floor as real == d * 100.0
  {
    RoundToPaise(amount * r)
  }

  /** The edit form's discount agrees with the entry form's on every amount, zero included. */
  lemma EditDiscountAgrees(amount: real, r: real)
    ensures EditDiscount(amount, r) == OrderDiscount(amount, r)
  {
    if amount == 0.0 {
      assert amount * r == 0.0;
      assert (0.0 * 100.0 + 0.5).Floor == 0;
    }
  }

  lemma MulMonotone(a: real, x: real, y: real)
    requires a >= 0.0 && x <= y
    ensures a * x <= a * y
  {
    assert a * y - a * x == a * (y - x);
  }

  /** A fraction drawn from [lo, hi] gives a discount within the rounded bounds of that range. */
  lemma DiscountWithinRange(amount: real, r: real, lo: real, hi: real)
    requires amount >= 0.0 && lo <= r <= hi
    ensures amount * lo - 0.005 < OrderDiscount(amount, r) <= amount * hi + 0.005
  {
    MulMonotone(amount, lo, r);
    MulMonotone(amount, r, hi);
  }

  /**
   * With the fixed fraction bounds the clip at zero never takes effect on an
   * amount of at least one rupee: the commission is the unclipped difference
   * and is positive.
   */
  lemma FixedBoundsCommissionUnclipped(amount: real, r: real)
    requires amount >= 1.0 && FixedDiscountMin <= r <= FixedDiscountMax
    ensures Commission(amount, OrderDiscount(amount, r)) == amount * CommissionRate - OrderDiscount(amount, r)
    ensures Commission(amount, OrderDiscount(amount, r)) > 0.0
  {
    DiscountWithinRange(amount, r, FixedDiscountMin, FixedDiscountMax);
    MulMonotone(amount, 0.0, 1.0);
  }
}
