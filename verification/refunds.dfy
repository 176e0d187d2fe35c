/** Refund arithmetic of `create`: the explicit-amount ceiling, flooring, and
    the shipping total (price plus rounded tax) subtracted from a computed
    refund. JavaScript numbers are modelled as exact reals. */
module Refunds {
  import opened Results
  import opened Entities

  /** Math.round: the nearest integer, halves rounded towards +infinity. */
  function JsRound(x: real): (r: int)
    ensures x - 0.5 < r as real <= x + 0.5
  {
    (x + 0.5).Floor
  }

  /** The tax a single tax line adds to a shipping price: rate is a percentage. */
  function TaxShare(price: int, rate: real): int {
    JsRound(price as real * (rate / 100.0))
  }

  /** The sum of the rounded tax shares of all tax lines (the reduce over taxLines). */
  function TaxSum(price: int, rates: seq<real>): int
    decreases |rates|
  {
    if |rates| == 0 then 0 else TaxShare(price, rates[0]) + TaxSum(price, rates[1..])
  }

  /** The unrounded tax: price times the summed rates, divided by one hundred. */
  function ExactTax(price: int, rates: seq<real>): real
    decreases |rates|
  {
    if |rates| == 0 then 0.0 else price as real * (rates[0] / 100.0) + ExactTax(price, rates[1..])
  }

  /** The shipping total of a return's shipping method: price plus rounded tax. */
  function ShippingTotal(price: int, rates: seq<real>): int {
    price + TaxSum(price, rates)
  }

  /** Rounding each tax line separately drifts from the exact tax by at most
      half a unit per tax line. */
  lemma {:induction false} TaxSumNearExact(price: int, rates: seq<real>)
    ensures ExactTax(price, rates) - (|rates| as real) * 0.5 <= TaxSum(price, rates) as real
    ensures TaxSum(price, rates) as real <= ExactTax(price, rates) + (|rates| as real) * 0.5
    decreases |rates|
  {
    if |rates| > 0 {
      TaxSumNearExact(price, rates[1..]);
    }
  }

  /** With a non-negative price and non-negative rates the shipping total is
      at least the price. */
  lemma {:induction false} ShippingTotalAtLeastPrice(price: int, rates: seq<real>)
    requires price >= 0
    requires forall k :: 0 <= k < |rates| ==> rates[k] >= 0.0
    ensures ShippingTotal(price, rates) >= price
    decreases |rates|
  {
    if |rates| > 0 {
      ShippingTotalAtLeastPrice(price, rates[1..]);
      assert TaxShare(price, rates[0]) >= 0;
    }
  }

  /** The number a defined `refund_amount` stands for: JavaScript coerces
      null to 0 both in `>` and in Math.floor. */
  function ExplicitValue(input: RefundInput): real
    requires !input.Unset?
  {
    match input
    case Amount(v) => v
    case Null => 0.0
  }

  /** Whether `create` rejects the requested refund: a defined amount (null
      included, as isDefined only tests for undefined) above the refundable
      amount. */
  predicate RefundRejected(input: RefundInput, refundable: int) {
    !input.Unset? && ExplicitValue(input) > refundable as real
  }

  /** The refund `create` starts from: a defined amount must not exceed the
      order's refundable amount; an undefined one takes the computed refund
      total unchecked. */
  function InitialRefund(input: RefundInput, refundable: int, computed: real): (r: Result<real>)
    ensures r.Err? <==> RefundRejected(input, refundable)
    ensures r.Err? ==> r.error == InvalidData
    ensures input.Unset? ==> r == Ok(computed)
    ensures input.Amount? && r.Ok? ==> r.value == input.value && r.value <= refundable as real
    ensures input.Null? ==> (r.Ok? <==> refundable >= 0) && (r.Ok? ==> r.value == 0.0)
  {
    if input.Unset? then Ok(computed)
    else
      var v := ExplicitValue(input);
      if v > refundable as real then Err(InvalidData) else Ok(v)
  }

  /** The refund `create` stores: the floored starting refund, replaced by
      the unfloored starting refund minus the shipping total when a shipping
      method was attached and `refund_amount` was undefined. */
  function FinalRefund(input: RefundInput, toRefund: real, shipping: Option<int>): (r: real)
    ensures shipping.None? || !input.Unset? ==> r == toRefund.Floor as real
    ensures shipping.Some? && input.Unset? ==> r + shipping.value as real == toRefund
  {
    if shipping.Some? && input.Unset? then toRefund - shipping.value as real
    else toRefund.Floor as real
  }

  /** An explicit null behaves exactly as an explicit 0: the same ceiling
      check, the same stored refund, and no shipping subtraction. */
  lemma NullRefundActsAsZero(refundable: int, computed: real, toRefund: real, shipping: Option<int>)
    ensures InitialRefund(Null, refundable, computed) == InitialRefund(Amount(0.0), refundable, computed)
    ensures FinalRefund(Null, toRefund, shipping) == FinalRefund(Amount(0.0), toRefund, shipping)
  {
  }

  /** An accepted defined amount yields a stored refund at most the
      refundable amount, with or without shipping. */
  lemma ExplicitRefundWithinCeiling(input: RefundInput, refundable: int, computed: real, shipping: Option<int>)
    requires !input.Unset?
    requires InitialRefund(input, refundable, computed).Ok?
    ensures FinalRefund(input, InitialRefund(input, refundable, computed).value, shipping) <= refundable as real
  {
  }

  /** A computed refund is never checked against the ceiling. */
  lemma ComputedRefundUnchecked()
    ensures InitialRefund(Unset, 100, 1000.0) == Ok(1000.0)
    ensures FinalRefund(Unset, 1000.0, None) > 100 as real
  {
  }

  /** Subtracting shipping can make the stored refund negative. */
  lemma RefundCanGoNegative()
    ensures FinalRefund(Unset, 10.0, Some(ShippingTotal(50, [10.0]))) == -45.0
  {
    assert TaxShare(50, 10.0) == 5;
  }

  /** A computed value of 300 with shipping priced 50 at 10% tax: the
      shipping total is 55 and the stored refund 245; with `refund_amount:
      null` the stored refund is 0 and shipping is not subtracted. */
  lemma ShippingScenario()
    ensures ShippingTotal(50, [10.0]) == 55
    ensures FinalRefund(Unset, 300.0, Some(ShippingTotal(50, [10.0]))) == 245.0
    ensures InitialRefund(Null, 1000, 300.0) == Ok(0.0)
    ensures FinalRefund(Null, 0.0, Some(ShippingTotal(50, [10.0]))) == 0.0
  {
    assert TaxShare(50, 10.0) == 5;
  }
}
