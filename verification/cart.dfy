/** The cart ledger (App.tsx): an ordered sequence of lines keyed by
    `(saree.id, size)`, with add, set-quantity, remove and clear, and the
    derived price and item totals. */
module Cart {

  import opened Optional
  import opened Seqs
  import opened Types

  /** A line's identity. */
  type LineKey = (string, Option<string>)

  function KeyOf(line: CartItem): LineKey {
    (line.saree.id, line.size)
  }

  predicate HasLine(cart: seq<CartItem>, key: LineKey) {
    exists i :: 0 <= i < |cart| && KeyOf(cart[i]) == key
  }

  /** At most one line per identity key. */
  predicate UniqueKeys(cart: seq<CartItem>) {
    forall i, j :: 0 <= i < j < |cart| ==> KeyOf(cart[i]) != KeyOf(cart[j])
  }

  /** No line is kept at a quantity below one. */
  predicate AllPositive(cart: seq<CartItem>) {
    forall i :: 0 <= i < |cart| ==> cart[i].quantity >= 1
  }

  /** The ledger invariant. */
  predicate Valid(cart: seq<CartItem>) {
    UniqueKeys(cart) && AllPositive(cart)
  }

  /** Adds `delta` to the quantity of every line with the key (the `.map` of the
      merge branch); the line keeps its own saree record. */
  function Bump(cart: seq<CartItem>, key: LineKey, delta: int): (r: seq<CartItem>)
    ensures |r| == |cart|
    ensures forall i :: 0 <= i < |cart| && KeyOf(cart[i]) != key ==> r[i] == cart[i]
    ensures forall i :: 0 <= i < |cart| && KeyOf(cart[i]) == key ==> r[i] == cart[i].(quantity := cart[i].quantity + delta)
  {
    if cart == [] then []
    else
      var head := if KeyOf(cart[0]) == key then cart[0].(quantity := cart[0].quantity + delta) else cart[0];
      [head] + Bump(cart[1..], key, delta)
  }

  /** Sets the quantity of every line with the key (the `.map` of the update). */
  function Reset(cart: seq<CartItem>, key: LineKey, quantity: int): (r: seq<CartItem>)
    ensures |r| == |cart|
    ensures forall i :: 0 <= i < |cart| && KeyOf(cart[i]) != key ==> r[i] == cart[i]
    ensures forall i :: 0 <= i < |cart| && KeyOf(cart[i]) == key ==> r[i] == cart[i].(quantity := quantity)
  {
    if cart == [] then []
    else
      var head := if KeyOf(cart[0]) == key then cart[0].(quantity := quantity) else cart[0];
      [head] + Reset(cart[1..], key, quantity)
  }

  /** `addToCart`: merge into the line with the same key, or append a new
      line. The source has no guard on `quantity`; callers pass at least 1. */
  function AddToCart(cart: seq<CartItem>, saree: Saree, quantity: int, size: Option<string>): (r: seq<CartItem>)
    requires quantity >= 1
    ensures HasLine(cart, (saree.id, size)) ==> |r| == |cart|
    ensures !HasLine(cart, (saree.id, size)) ==> r == cart + [CartItem(saree, quantity, size)]
    ensures forall i :: 0 <= i < |cart| ==> KeyOf(r[i]) == KeyOf(cart[i]) && r[i].saree == cart[i].saree
    ensures forall i :: 0 <= i < |cart| && KeyOf(cart[i]) != (saree.id, size) ==> r[i] == cart[i]
    ensures forall i :: 0 <= i < |cart| && KeyOf(cart[i]) == (saree.id, size) ==> r[i].quantity == cart[i].quantity + quantity
  {
    if HasLine(cart, (saree.id, size)) then Bump(cart, (saree.id, size), quantity)
    else cart + [CartItem(saree, quantity, size)]
  }

  /** The lines `removeFromCart` keeps: those with another key. */
  function OtherLine(id: string, size: Option<string>): CartItem -> bool {
    (x: CartItem) => KeyOf(x) != (id, size)
  }

  /** `removeFromCart`: drop every line with the key, keep the rest in order. */
  function RemoveFromCart(cart: seq<CartItem>, id: string, size: Option<string>): (r: seq<CartItem>)
    ensures forall x :: x in r <==> x in cart && KeyOf(x) != (id, size)
    ensures !HasLine(r, (id, size))
    ensures !HasLine(cart, (id, size)) ==> r == cart
    ensures |r| <= |cart|
  {
    if cart == [] then []
    else
      assert cart == [cart[0]] + cart[1..];
      (if KeyOf(cart[0]) != (id, size) then [cart[0]] else []) + RemoveFromCart(cart[1..], id, size)
  }

  /** Removal is the order-preserving filter that keeps every line with
      another key. */
  lemma {:induction false} RemoveKeepsOrder(cart: seq<CartItem>, id: string, size: Option<string>)
    ensures RemoveFromCart(cart, id, size) == Keep(cart, OtherLine(id, size))
    decreases |cart|
  {
    if cart != [] {
      RemoveKeepsOrder(cart[1..], id, size);
    }
  }

  /** `updateCartItemQuantity`: a quantity of zero or less removes the line;
      otherwise the matching line is set to exactly that quantity. */
  function UpdateQuantity(cart: seq<CartItem>, id: string, quantity: int, size: Option<string>): (r: seq<CartItem>)
    ensures quantity <= 0 ==> r == RemoveFromCart(cart, id, size)
    ensures quantity > 0 ==> |r| == |cart|
    ensures quantity > 0 ==> forall i :: 0 <= i < |cart| && KeyOf(cart[i]) != (id, size) ==> r[i] == cart[i]
    ensures quantity > 0 ==> forall i :: 0 <= i < |cart| && KeyOf(cart[i]) == (id, size) ==> r[i] == cart[i].(quantity := quantity)
    ensures !HasLine(cart, (id, size)) ==> r == cart
  {
    if quantity <= 0 then RemoveFromCart(cart, id, size)
    else Reset(cart, (id, size), quantity)
  }

  /** `clearCart`. */
  function ClearCart(): (r: seq<CartItem>)
    ensures |r| == 0
  {
    []
  }

  /** `getSubtotal` of the cart page: a line's price times its quantity. */
  function LineSubtotal(line: CartItem): int {
    line.saree.price * line.quantity
  }

  function QuantityOf(line: CartItem): int {
    line.quantity
  }

  /** `getTotalPrice`: the sum of the line subtotals. */
  function TotalPrice(cart: seq<CartItem>): int {
    SumOf(cart, LineSubtotal)
  }

  /** `getTotalItems` (App.tsx and the cart page alike): the sum of quantities. */
  function TotalItems(cart: seq<CartItem>): int {
    SumOf(cart, QuantityOf)
  }

  // ---------------------------------------------------------------------
  // The ledger invariant is preserved.

  lemma AddPreservesValid(cart: seq<CartItem>, saree: Saree, quantity: int, size: Option<string>)
    requires Valid(cart) && quantity >= 1
    ensures Valid(AddToCart(cart, saree, quantity, size))
  {
    var r := AddToCart(cart, saree, quantity, size);
    if !HasLine(cart, (saree.id, size)) {
      forall i, j | 0 <= i < j < |r| ensures KeyOf(r[i]) != KeyOf(r[j]) {
        if j == |cart| {
          assert KeyOf(cart[i]) != (saree.id, size);
        }
      }
    }
  }

  lemma UpdatePreservesValid(cart: seq<CartItem>, id: string, quantity: int, size: Option<string>)
    requires Valid(cart)
    ensures Valid(UpdateQuantity(cart, id, quantity, size))
  {
    if quantity <= 0 {
      RemovePreservesValid(cart, id, size);
    }
  }

  lemma {:induction false} RemovePreservesValid(cart: seq<CartItem>, id: string, size: Option<string>)
    requires Valid(cart)
    ensures Valid(RemoveFromCart(cart, id, size))
    decreases |cart|
  {
    if cart != [] {
      UniqueTail(cart);
      var head, tail := cart[0], cart[1..];
      RemovePreservesValid(tail, id, size);
      var rest := RemoveFromCart(tail, id, size);
      if KeyOf(head) != (id, size) {
        forall j | 0 <= j < |rest| ensures KeyOf(head) != KeyOf(rest[j]) {
          assert rest[j] in tail;
        }
        ValidCons(head, rest);
        assert RemoveFromCart(cart, id, size) == [head] + rest;
      } else {
        assert RemoveFromCart(cart, id, size) == rest;
      }
    }
  }

  /** Putting a positive line in front of a valid ledger that lacks its key
      gives a valid ledger. */
  lemma ValidCons(x: CartItem, rest: seq<CartItem>)
    requires Valid(rest) && x.quantity >= 1
    requires forall j :: 0 <= j < |rest| ==> KeyOf(x) != KeyOf(rest[j])
    ensures Valid([x] + rest)
  {
    var r := [x] + rest;
    forall a, b | 0 <= a < b < |r| ensures KeyOf(r[a]) != KeyOf(r[b]) {
      assert r[b] == rest[b - 1];
      if a > 0 {
        assert r[a] == rest[a - 1];
      }
    }
  }

  // ---------------------------------------------------------------------
  // Add: merging and appending.

  /** Adding the same saree and size twice to a cart without that line
      yields one new line, at the end, holding the summed quantity; every
      earlier line is unchanged and in place. */
  lemma AddTwiceMerges(cart: seq<CartItem>, saree: Saree, q1: int, q2: int, size: Option<string>)
    requires q1 >= 1 && q2 >= 1
    requires !HasLine(cart, (saree.id, size))
    ensures AddToCart(AddToCart(cart, saree, q1, size), saree, q2, size) == cart + [CartItem(saree, q1 + q2, size)]
  {
    var once := AddToCart(cart, saree, q1, size);
    assert KeyOf(once[|cart|]) == (saree.id, size);
    var twice := AddToCart(once, saree, q2, size);
    assert |twice| == |once|;
    assert twice == cart + [CartItem(saree, q1 + q2, size)];
  }

  /** The same saree in another size becomes a separate line appended after
      the first; the first line is untouched. */
  lemma OtherSizeIsSeparateLine(cart: seq<CartItem>, saree: Saree, q1: int, q2: int, s1: Option<string>, s2: Option<string>)
    requires q1 >= 1 && q2 >= 1 && s1 != s2
    requires !HasLine(cart, (saree.id, s1)) && !HasLine(cart, (saree.id, s2))
    ensures AddToCart(AddToCart(cart, saree, q1, s1), saree, q2, s2)
         == cart + [CartItem(saree, q1, s1), CartItem(saree, q2, s2)]
  {
    var once := AddToCart(cart, saree, q1, s1);
    assert !HasLine(once, (saree.id, s2)) by {
      forall i | 0 <= i < |once| ensures KeyOf(once[i]) != (saree.id, s2) {
        if i < |cart| {
          assert KeyOf(once[i]) == KeyOf(cart[i]);
        }
      }
    }
  }

  // ---------------------------------------------------------------------
  // Remove and update.

  /** Removing the same key twice is removing it once. */
  lemma RemoveIdempotent(cart: seq<CartItem>, id: string, size: Option<string>)
    ensures RemoveFromCart(RemoveFromCart(cart, id, size), id, size) == RemoveFromCart(cart, id, size)
  {
  }

  /** The tail of a uniquely keyed ledger is uniquely keyed and does not
      repeat the head's key. */
  lemma UniqueTail(cart: seq<CartItem>)
    requires UniqueKeys(cart) && |cart| > 0
    ensures UniqueKeys(cart[1..])
    ensures !HasLine(cart[1..], KeyOf(cart[0]))
  {
    var tail := cart[1..];
    forall a, b | 0 <= a < b < |tail| ensures KeyOf(tail[a]) != KeyOf(tail[b]) {
      assert tail[a] == cart[a + 1] && tail[b] == cart[b + 1];
    }
    forall j | 0 <= j < |tail| ensures KeyOf(tail[j]) != KeyOf(cart[0]) {
      assert tail[j] == cart[j + 1];
    }
  }

  /** In a valid ledger, removing a present key deletes exactly that one
      line and leaves the others in their order. */
  lemma {:induction false} RemoveDeletesOneLine(cart: seq<CartItem>, i: int)
    requires UniqueKeys(cart) && 0 <= i < |cart|
    ensures RemoveFromCart(cart, cart[i].saree.id, cart[i].size) == cart[..i] + cart[i + 1..]
    decreases i
  {
    if i == 0 {
      RemoveHead(cart);
    } else {
      UniqueTail(cart);
      assert cart[1..][i - 1] == cart[i];
      RemoveDeletesOneLine(cart[1..], i - 1);
      assert KeyOf(cart[0]) != KeyOf(cart[i]);
      RemoveBehindHead(cart, i, cart[i].saree.id, cart[i].size);
    }
  }

  /** If removal deletes position `i - 1` of the tail and spares the head,
      it deletes position `i` of the whole ledger. */
  lemma RemoveBehindHead(cart: seq<CartItem>, i: int, id: string, size: Option<string>)
    requires 0 < i < |cart| && KeyOf(cart[0]) != (id, size)
    requires RemoveFromCart(cart[1..], id, size) == cart[1..][..i - 1] + cart[1..][i..]
    ensures RemoveFromCart(cart, id, size) == cart[..i] + cart[i + 1..]
  {
    RemoveKeepsHead(cart, id, size);
    SpliceBehindHead(cart, i);
  }

  /** Deleting position `i - 1` of the tail and putting the head back is
      deleting position `i`. */
  lemma SpliceBehindHead<T>(s: seq<T>, i: int)
    requires 0 < i < |s|
    ensures [s[0]] + (s[1..][..i - 1] + s[1..][i..]) == s[..i] + s[i + 1..]
  {
    var head, a, b := s[0], s[1..][..i - 1], s[1..][i..];
    assert s[..i] == [head] + a;
    assert s[i + 1..] == b;
  }

  /** Removing the head's key from a uniquely keyed ledger leaves its tail. */
  lemma RemoveHead(cart: seq<CartItem>)
    requires UniqueKeys(cart) && |cart| > 0
    ensures RemoveFromCart(cart, cart[0].saree.id, cart[0].size) == cart[1..]
  {
    UniqueTail(cart);
  }

  /** Removing another key keeps the head in front. */
  lemma RemoveKeepsHead(cart: seq<CartItem>, id: string, size: Option<string>)
    requires |cart| > 0 && KeyOf(cart[0]) != (id, size)
    ensures RemoveFromCart(cart, id, size) == [cart[0]] + RemoveFromCart(cart[1..], id, size)
  {
  }


  /** A non-positive quantity update is exactly a removal, so a second
      removal afterwards changes nothing. */
  lemma UpdateToZeroThenRemove(cart: seq<CartItem>, id: string, size: Option<string>)
    ensures var r := UpdateQuantity(cart, id, 0, size);
      !HasLine(r, (id, size)) && RemoveFromCart(r, id, size) == r
  {
  }

  // ---------------------------------------------------------------------
  // Totals.

  lemma {:induction false} TotalsNonNegative(cart: seq<CartItem>)
    requires AllPositive(cart)
    ensures TotalItems(cart) >= |cart|
    ensures TotalPrice(cart) >= 0
    decreases |cart|
  {
    if cart != [] {
      TotalsNonNegative(cart[1..]);
      assert LineSubtotal(cart[0]) >= 0 by {
        assert cart[0].saree.price >= 0 && cart[0].quantity >= 1;
      }
    }
  }

  lemma TotalsAppend(cart: seq<CartItem>, line: CartItem)
    ensures TotalPrice(cart + [line]) == TotalPrice(cart) + line.saree.price * line.quantity
    ensures TotalItems(cart + [line]) == TotalItems(cart) + line.quantity
  {
    SumAppend(cart, [line], LineSubtotal);
    SumAppend(cart, [line], QuantityOf);
  }

  /** Bumping the one line with a key raises the totals by that line's
      price times the increment, and the item count by the increment. */
  lemma {:induction false} BumpTotals(cart: seq<CartItem>, i: int, delta: int)
    requires UniqueKeys(cart) && 0 <= i < |cart|
    ensures TotalPrice(Bump(cart, KeyOf(cart[i]), delta)) == TotalPrice(cart) + cart[i].saree.price * delta
    ensures TotalItems(Bump(cart, KeyOf(cart[i]), delta)) == TotalItems(cart) + delta
    decreases i
  {
    var key := KeyOf(cart[i]);
    var r := Bump(cart, key, delta);
    assert r[1..] == Bump(cart[1..], key, delta);
    if i == 0 {
      UniqueTail(cart);
      assert Bump(cart[1..], key, delta) == cart[1..];
      assert LineSubtotal(r[0]) == LineSubtotal(cart[0]) + cart[0].saree.price * delta by {
        assert r[0].quantity == cart[0].quantity + delta;
        assert r[0].saree == cart[0].saree;
      }
    } else {
      UniqueTail(cart);
      assert cart[1..][i - 1] == cart[i];
      BumpTotals(cart[1..], i - 1, delta);
      assert r[0] == cart[0];
    }
  }

  /** Adding a line that is new appends it: the totals grow by its price
      times its quantity, and by its quantity. */
  lemma AddNewLineTotals(cart: seq<CartItem>, saree: Saree, quantity: int, size: Option<string>)
    requires quantity >= 1 && !HasLine(cart, (saree.id, size))
    ensures TotalPrice(AddToCart(cart, saree, quantity, size)) == TotalPrice(cart) + saree.price * quantity
    ensures TotalItems(AddToCart(cart, saree, quantity, size)) == TotalItems(cart) + quantity
  {
    TotalsAppend(cart, CartItem(saree, quantity, size));
  }

  /** Adding to an existing line grows the totals at that line's own price
      (the merged line keeps the saree record it was created with). */
  lemma AddExistingLineTotals(cart: seq<CartItem>, i: int, saree: Saree, quantity: int)
    requires UniqueKeys(cart) && 0 <= i < |cart| && quantity >= 1
    requires cart[i].saree.id == saree.id
    ensures TotalPrice(AddToCart(cart, saree, quantity, cart[i].size)) == TotalPrice(cart) + cart[i].saree.price * quantity
    ensures TotalItems(AddToCart(cart, saree, quantity, cart[i].size)) == TotalItems(cart) + quantity
  {
    assert KeyOf(cart[i]) == (saree.id, cart[i].size);
    BumpTotals(cart, i, quantity);
  }

  /** Clearing the cart leaves zero items at zero price. */
  lemma ClearZeroesTotals()
    ensures TotalPrice(ClearCart()) == 0 && TotalItems(ClearCart()) == 0
  {
  }

  /** Two units of one saree and one of another cost twice the first price
      plus the second. */
  lemma TwoSareesTotal(a: Saree, b: Saree)
    requires a.id != b.id
    ensures var cart := AddToCart(AddToCart(ClearCart(), a, 2, None), b, 1, None);
      TotalPrice(cart) == 2 * a.price + b.price && TotalItems(cart) == 3
  {
    var one := AddToCart([], a, 2, None);
    AddNewLineTotals([], a, 2, None);
    assert !HasLine(one, (b.id, None)) by {
      assert one == [CartItem(a, 2, None)];
    }
    AddNewLineTotals(one, b, 1, None);
  }
}
