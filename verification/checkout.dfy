/** The checkout page: its initial form state, the field-update handlers,
    the required-field validation of `handlePlaceOrder`, and the cart
    clearing that follows a placed order. */
module Checkout {

  import opened Optional
  import opened Types
  import opened Cart
  import Auth

  datatype CustomerInfo = CustomerInfo(name: string, email: string, phone: string)

  /** The shipping address of a user, or a blank one defaulting to India. */
  function InitialAddress(user: Option<User>): (a: Address)
    ensures user.Some? && user.value.address.Some? ==> a == user.value.address.value
    ensures user.None? || user.value.address.None? ==> a == Address("", "", "", "", "India")
  {
    if user.Some? && user.value.address.Some? then user.value.address.value
    else Address("", "", "", "", "India")
  }

  /** The contact fields of a user, or blanks. */
  function InitialCustomerInfo(user: Option<User>): (c: CustomerInfo)
    ensures user.None? ==> c == CustomerInfo("", "", "")
    ensures user.Some? ==> c.name == user.value.name && c.email == user.value.email
    ensures user.Some? ==> c.phone == user.value.phone.GetOr("")
  {
    match user
    case None => CustomerInfo("", "", "")
    case Some(u) => CustomerInfo(u.name, u.email, u.phone.GetOr(""))
  }

  /** The "same as account" box starts ticked exactly when someone is signed in. */
  function InitialSameAsUser(user: Option<User>): (b: bool)
    ensures b <==> user.Some?
  {
    user.Some?
  }

  datatype AddressField = Street | City | State | Pincode | Country

  function AddressGet(a: Address, f: AddressField): string {
    match f
    case Street => a.street
    case City => a.city
    case State => a.state
    case Pincode => a.pincode
    case Country => a.country
  }

  /** `handleAddressChange`: the named field takes the value, the others stay. */
  function AddressChange(a: Address, f: AddressField, v: string): (r: Address)
    ensures AddressGet(r, f) == v
    ensures forall g :: g != f ==> AddressGet(r, g) == AddressGet(a, g)
  {
    match f
    case Street => a.(street := v)
    case City => a.(city := v)
    case State => a.(state := v)
    case Pincode => a.(pincode := v)
    case Country => a.(country := v)
  }

  datatype CustomerField = Name | Email | Phone

  function CustomerGet(c: CustomerInfo, f: CustomerField): string {
    match f
    case Name => c.name
    case Email => c.email
    case Phone => c.phone
  }

  /** `handleCustomerInfoChange`: the named field takes the value, the others stay. */
  function CustomerInfoChange(c: CustomerInfo, f: CustomerField, v: string): (r: CustomerInfo)
    ensures CustomerGet(r, f) == v
    ensures forall g :: g != f ==> CustomerGet(r, g) == CustomerGet(c, g)
  {
    match f
    case Name => c.(name := v)
    case Email => c.(email := v)
    case Phone => c.(phone := v)
  }

  /** The outcome of pressing "Place order". */
  datatype OrderCheck = Accepted | MissingCustomerInfo | MissingAddress

  /** Customer fields are checked before the address; the country is never
      checked. */
  function ValidateOrder(c: CustomerInfo, a: Address): (r: OrderCheck)
    ensures r == MissingCustomerInfo <==> exists f :: CustomerGet(c, f) == ""
    ensures r == MissingAddress <==>
      (forall f :: CustomerGet(c, f) != "") && exists f :: f != Country && AddressGet(a, f) == ""
    ensures r == Accepted <==>
      (forall f :: CustomerGet(c, f) != "") && forall f :: f != Country ==> AddressGet(a, f) != ""
  {
    if c.name == "" || c.email == "" || c.phone == "" then
      assert CustomerGet(c, Name) == "" || CustomerGet(c, Email) == "" || CustomerGet(c, Phone) == "";
      MissingCustomerInfo
    else if a.street == "" || a.city == "" || a.state == "" || a.pincode == "" then
      assert AddressGet(a, Street) == "" || AddressGet(a, City) == "" || AddressGet(a, State) == "" || AddressGet(a, Pincode) == "";
      MissingAddress
    else
      Accepted
  }

  /** The country field never affects validation. */
  lemma CountryIgnored(c: CustomerInfo, a: Address, country: string)
    ensures ValidateOrder(c, a.(country := country)) == ValidateOrder(c, a)
  {
  }

  /** With nobody signed in, the blank form is never accepted as it stands. */
  lemma BlankFormRejected(a: Address)
    ensures ValidateOrder(InitialCustomerInfo(None), a) == MissingCustomerInfo
  {
    assert CustomerGet(InitialCustomerInfo(None), Name) == "";
  }

  /** After the mock login the prefilled form is accepted as soon as the
      entered email is non-empty. */
  lemma LoggedInFormAccepted(email: string, password: string)
    ensures var u := Some(Auth.Login(email, password));
      ValidateOrder(InitialCustomerInfo(u), InitialAddress(u)) == Accepted <==> email != ""
  {
    var u := Some(Auth.Login(email, password));
    if email == "" {
      assert CustomerGet(InitialCustomerInfo(u), Email) == "";
    }
  }

  /** Placing an order: a rejected form leaves the cart as it was, an
      accepted one ends with the cart cleared. */
  function PlaceOrder(cart: seq<CartItem>, c: CustomerInfo, a: Address): (r: (OrderCheck, seq<CartItem>))
    ensures r.0 == ValidateOrder(c, a)
    ensures r.0 != Accepted ==> r.1 == cart
    ensures r.0 == Accepted ==> r.1 == []
    ensures r.0 == Accepted ==> TotalItems(r.1) == 0 && TotalPrice(r.1) == 0
  {
    var check := ValidateOrder(c, a);
    if check == Accepted then (check, ClearCart()) else (check, cart)
  }
}
