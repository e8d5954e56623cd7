/** The product page's purchase controls (ProductDetailPage.tsx): the
    quantity stepper, the size choice, the stock gate and the savings line. */
module ProductDetail {

  import opened Optional
  import opened Types
  import Cart

  /** The stepper's starting value. */
  const InitialQuantity: int := 1

  /** The size choices; the first one stands in when none is selected. */
  const Sizes: seq<string> := ["Free Size", "Blouse: S", "Blouse: M", "Blouse: L", "Blouse: XL"]

  /** The "-" button: one less, but never below one. */
  function Decrement(q: int): (r: int)
    ensures r >= 1
    ensures q > 1 ==> r == q - 1
    ensures q <= 1 ==> r == 1
  {
    if q - 1 >= 1 then q - 1 else 1
  }

  /** The "+" button: one more, without an upper limit. */
  function Increment(q: int): (r: int)
    ensures r > q && r - q == 1
  {
    q + 1
  }

  datatype Press = Minus | Plus

  function Step(q: int, p: Press): int {
    match p
    case Minus => Decrement(q)
    case Plus => Increment(q)
  }

  function CountPlus(ps: seq<Press>): nat {
    if ps == [] then 0 else (if ps[0] == Plus then 1 else 0) + CountPlus(ps[1..])
  }

  /** The stepper after a run of presses. */
  function StepAll(q: int, ps: seq<Press>): int
    decreases |ps|
  {
    if ps == [] then q else StepAll(Step(q, ps[0]), ps[1..])
  }

  /** From a positive start no run of presses leaves the stepper below one,
      and it never climbs by more than the number of "+" presses. */
  lemma {:induction false} StepperBounds(q: int, ps: seq<Press>)
    requires q >= 1
    ensures 1 <= StepAll(q, ps) <= q + CountPlus(ps)
    decreases |ps|
  {
    if ps != [] {
      StepperBounds(Step(q, ps[0]), ps[1..]);
    }
  }

  /** The quantity shown is always at least one. */
  lemma QuantityAlwaysPositive(ps: seq<Press>)
    ensures StepAll(InitialQuantity, ps) >= 1
  {
    StepperBounds(InitialQuantity, ps);
  }

  /** `selectedSize || sizes[0]`. */
  function ChosenSize(selected: string): (r: string)
    ensures r != ""
    ensures selected != "" ==> r == selected
    ensures selected == "" ==> r == "Free Size"
  {
    if selected != "" then selected else Sizes[0]
  }

  datatype AddRequest = AddRequest(saree: Saree, quantity: int, size: string)

  /** The "Add to Cart" button: disabled when out of stock, otherwise it
      passes the product, the stepper value and the chosen size. */
  function AddToCartRequest(s: Saree, quantity: int, selected: string): (r: Option<AddRequest>)
    ensures r.None? <==> !s.inStock
    ensures r.Some? ==> r.value.saree == s && r.value.quantity == quantity && r.value.size == ChosenSize(selected)
  {
    if s.inStock then Some(AddRequest(s, quantity, ChosenSize(selected))) else None
  }

  /** Whatever the shopper pressed, a request from this page meets the
      cart's precondition and keeps a valid cart valid. */
  lemma RequestKeepsCartValid(cart: seq<CartItem>, s: Saree, ps: seq<Press>, selected: string)
    requires Cart.Valid(cart)
    ensures var r := AddToCartRequest(s, StepAll(InitialQuantity, ps), selected);
      r.Some? ==>
        r.value.quantity >= 1 &&
        Cart.Valid(Cart.AddToCart(cart, r.value.saree, r.value.quantity, Some(r.value.size)))
  {
    QuantityAlwaysPositive(ps);
    var q := StepAll(InitialQuantity, ps);
    if s.inStock {
      Cart.AddPreservesValid(cart, s, q, Some(ChosenSize(selected)));
    }
  }

  /** "You save ...": shown only when a (non-zero) original price exists. */
  function Savings(s: Saree): (r: Option<int>)
    ensures r.Some? <==> s.originalPrice.Some? && s.originalPrice.value != 0
    ensures r.Some? ==> s.price + r.value == s.originalPrice.value
  {
    if s.originalPrice.Some? && s.originalPrice.value != 0 then Some(s.originalPrice.value - s.price) else None
  }

  /** A real markdown shows a positive saving. */
  lemma MarkdownSavesMoney(s: Saree)
    requires s.originalPrice.Some? && s.originalPrice.value > s.price
    ensures Savings(s).Some? && Savings(s).value > 0
  {
  }
}
