/** The shopping cart page's quantity controls: the minus, plus and remove
    buttons of each line and the calls they make on the ledger. */
module CartPage {

  import opened Optional
  import opened Types
  import opened Cart

  /** The arguments of one `onUpdateQuantity(id, quantity, size)` call. */
  datatype QuantityRequest = QuantityRequest(id: string, quantity: int, size: Option<string>)

  /** The minus button: disabled at quantity one or below, otherwise it
      asks for one less, for the line's own key. */
  function MinusRequest(line: CartItem): (r: Option<QuantityRequest>)
    ensures r.None? <==> line.quantity <= 1
    ensures r.Some? ==> r.value.quantity >= 1 && r.value.quantity == line.quantity - 1
    ensures r.Some? ==> (r.value.id, r.value.size) == KeyOf(line)
  {
    if line.quantity <= 1 then None
    else Some(QuantityRequest(line.saree.id, line.quantity - 1, line.size))
  }

  /** The plus button: always enabled, asks for one more. */
  function PlusRequest(line: CartItem): (r: QuantityRequest)
    ensures r.quantity == line.quantity + 1
    ensures (r.id, r.size) == KeyOf(line)
  {
    QuantityRequest(line.saree.id, line.quantity + 1, line.size)
  }

  function Apply(cart: seq<CartItem>, req: QuantityRequest): seq<CartItem> {
    UpdateQuantity(cart, req.id, req.quantity, req.size)
  }

  /** In a valid ledger, a minus press changes only its own line, lowers it
      by one, never removes it, and keeps the ledger valid; the item count
      drops by one. */
  lemma MinusChangesOnlyItsLine(cart: seq<CartItem>, i: int)
    requires Valid(cart) && 0 <= i < |cart| && MinusRequest(cart[i]).Some?
    ensures var r := Apply(cart, MinusRequest(cart[i]).value);
      && r == cart[i := cart[i].(quantity := cart[i].quantity - 1)]
      && Valid(r)
      && TotalItems(r) == TotalItems(cart) - 1
  {
    var req := MinusRequest(cart[i]).value;
    StepChangesOnlyItsLine(cart, i, req.quantity);
  }

  /** A plus press raises its own line by one and nothing else. */
  lemma PlusChangesOnlyItsLine(cart: seq<CartItem>, i: int)
    requires Valid(cart) && 0 <= i < |cart|
    ensures var r := Apply(cart, PlusRequest(cart[i]));
      && r == cart[i := cart[i].(quantity := cart[i].quantity + 1)]
      && Valid(r)
      && TotalItems(r) == TotalItems(cart) + 1
  {
    StepChangesOnlyItsLine(cart, i, cart[i].quantity + 1);
  }

  lemma StepChangesOnlyItsLine(cart: seq<CartItem>, i: int, q: int)
    requires Valid(cart) && 0 <= i < |cart| && q >= 1
    ensures var r := UpdateQuantity(cart, cart[i].saree.id, q, cart[i].size);
      && r == cart[i := cart[i].(quantity := q)]
      && Valid(r)
      && TotalItems(r) == TotalItems(cart) + (q - cart[i].quantity)
  {
    var r := UpdateQuantity(cart, cart[i].saree.id, q, cart[i].size);
    var e := cart[i := cart[i].(quantity := q)];
    assert r == e by {
      ResetOneLine(cart, i, q);
    }
    assert Valid(r) by {
      UpdatePreservesValid(cart, cart[i].saree.id, q, cart[i].size);
    }
    var d := q - cart[i].quantity;
    assert TotalItems(e) == TotalItems(cart) + d by {
      BumpOneLine(cart, i, d);
      assert cart[i].(quantity := cart[i].quantity + d) == cart[i].(quantity := q);
      BumpTotals(cart, i, d);
    }
  }

  /** In a uniquely keyed ledger, setting a line's quantity touches that line only. */
  lemma ResetOneLine(cart: seq<CartItem>, i: int, q: int)
    requires UniqueKeys(cart) && 0 <= i < |cart| && q >= 1
    ensures UpdateQuantity(cart, cart[i].saree.id, q, cart[i].size) == cart[i := cart[i].(quantity := q)]
  {
    var r := UpdateQuantity(cart, cart[i].saree.id, q, cart[i].size);
    var expected := cart[i := cart[i].(quantity := q)];
    forall j | 0 <= j < |cart| ensures r[j] == expected[j] {
      if j != i {
        assert KeyOf(cart[j]) != KeyOf(cart[i]);
      }
    }
  }

  /** In a uniquely keyed ledger, bumping a line's key touches that line only. */
  lemma BumpOneLine(cart: seq<CartItem>, i: int, d: int)
    requires UniqueKeys(cart) && 0 <= i < |cart|
    ensures Bump(cart, KeyOf(cart[i]), d) == cart[i := cart[i].(quantity := cart[i].quantity + d)]
  {
    var b := Bump(cart, KeyOf(cart[i]), d);
    var expected := cart[i := cart[i].(quantity := cart[i].quantity + d)];
    forall j | 0 <= j < |cart| ensures b[j] == expected[j] {
      if j != i {
        assert KeyOf(cart[j]) != KeyOf(cart[i]);
      }
    }
  }
}
