/** The order summary figures shared by the cart page and the checkout page:
    shipping, 5% tax rounded to the rupee, the final total, and the
    free-shipping hint. */
module OrderPricing {

  import opened Optional

  /** Orders strictly above this subtotal ship free. */
  const FreeShippingAbove: int := 2000
  /** Shipping charged otherwise. */
  const ShippingFee: nat := 99

  function Shipping(total: int): (r: nat)
    ensures r == 0 <==> total > FreeShippingAbove
    ensures r == 0 || r == ShippingFee
  {
    if total > FreeShippingAbove then 0 else ShippingFee
  }

  /** `Math.round(total * 0.05)` on exact rationals: the nearest whole number
      to total/20, halves rounded up. */
  function Tax(total: nat): (r: nat)
    ensures 20 * r <= total + 10 < 20 * r + 20
  {
    (total + 10) / 20
  }

  /** The tax is the unique whole number the rounding rule admits. */
  lemma TaxIsUnique(total: nat, t: int)
    requires 20 * t <= total + 10 < 20 * t + 20
    ensures t == Tax(total)
  {
  }

  /** `totalPrice + shipping + tax`. */
  function FinalTotal(total: nat): (r: nat)
    ensures r - total - Tax(total) == Shipping(total)
    ensures r == total + Tax(total) <==> total > FreeShippingAbove
    ensures total + Tax(total) <= r <= total + Tax(total) + ShippingFee
  {
    total + Shipping(total) + Tax(total)
  }

  /** Two order summaries: a free-shipping order and a charged one. */
  lemma WorkedExamples()
    ensures Shipping(8999) == 0 && Tax(8999) == 450 && FinalTotal(8999) == 9449
    ensures Shipping(1500) == 99 && Tax(1500) == 75 && FinalTotal(1500) == 1674
  {
  }

  /** The final total is not monotone in the subtotal: crossing the free
      shipping line lowers it. */
  lemma FinalTotalDropsAtThreshold()
    ensures FinalTotal(2001) < FinalTotal(2000)
  {
  }

  /** "Add N more to get free shipping", shown only below the threshold.
      An empty cart shows the empty-cart screen instead of the summary, so
      it never shows the hint. */
  function FreeShippingHint(lines: nat, total: int): (r: Option<int>)
    ensures r.Some? <==> lines > 0 && total < FreeShippingAbove
    ensures lines == 0 ==> r.None?
    ensures r.Some? ==> r.value > 0 && total + r.value == FreeShippingAbove
  {
    if lines == 0 then None
    else if total < FreeShippingAbove then Some(FreeShippingAbove - total)
    else None
  }

  /** On a cart with lines, the hint and the shipping charge agree
      everywhere except at exactly the threshold, where shipping is charged
      and no hint is shown. */
  lemma HintMatchesShipping(lines: nat, total: int)
    ensures FreeShippingHint(lines, total).Some? ==> Shipping(total) == ShippingFee
    ensures Shipping(total) == 0 ==> FreeShippingHint(lines, total).None?
    ensures lines > 0 ==>
      (FreeShippingHint(lines, total).None? && Shipping(total) == ShippingFee <==> total == FreeShippingAbove)
  {
  }
}
