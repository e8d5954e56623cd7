# YourChoice saree store: a Dafny model of the store's bookkeeping

YourChoice is a React storefront for sarees with a small admin panel. The
logic underneath it can be written as pure functions over in-memory
records, and that is what this project models and proves properties of:

- the **catalog view** that the product listing shows. A search box, a
  structured `Filter` record and an optional sort are applied to the
  catalog (`App.tsx`);
- the **cart ledger**: add, update, remove and clear, plus the two totals.
  Its invariant is at most one line per `(saree id, size)` and every
  quantity at least one (`App.tsx`);
- the **listing page's filter controls**: category, colour, fabric, sort,
  price range and "Clear All" (`ProductListingPage.tsx`);
- the **order summary** shared by the cart and checkout pages: shipping,
  tax, final total and the free-shipping hint. Also the cart page's +/−
  buttons (`ShoppingCartPage.tsx`);
- **checkout**: the initial form state, the field handlers, and the
  submit handler's required-field checks with the order it reports them in
  (`CheckoutPage.tsx`);
- the **sign-in dialog**, the **home page** rows, the **product page**
  purchase controls, and the **chatbot** keyword classifier;
- the three **admin lists** (orders, customers, products): search and
  segment filters, stable sorts on a copy, counters, and the stock badge.

Modules follow the program's structure:

| module | models |
|---|---|
| `Optional` | `undefined`-able values and success/error results |
| `Text` | `toLowerCase`, `includes`, `trim` and `parseInt` on strings, and string order |
| `Seqs` | `filter` and `reduce(+)` |
| `Sorting` | the stable `Array.prototype.sort` with a one-field comparator |
| `Types` | `types.ts` |
| `CatalogView`, `Cart`, `Session` | App.tsx |
| `FilterEdits` | ProductListingPage.tsx |
| `OrderPricing`, `CartPage` | ShoppingCartPage.tsx |
| `Checkout` | CheckoutPage.tsx |
| `Auth` | AuthModal.tsx |
| `Home` | HomePage.tsx |
| `ProductDetail` | ProductDetailPage.tsx |
| `Chatbot` | Chatbot.tsx |
| `AdminOrders`, `AdminCustomers`, `AdminProducts` | the admin components |

Modelling choices:

- Prices are whole rupees (`nat`).
- Ratings are whole tenths of a star, so 4.5 is 45.
- Cart quantities are `int`, so that the "≤ 0 removes the line" branch of
  the update operation can be stated.
- Every React state update is a function from the old value to the new
  one.

The admin lists sort a copy of their input (`[...filteredCustomers].sort`
at `components/admin/CustomerInsights.tsx:142`, `[...filteredProducts].sort`
at `components/admin/ProductManagement.tsx:35`). The storefront's filter
effect sorts `filtered` in place, and `filtered` is `sampleSarees` itself
when no filter step ran (`App.tsx:73`, `App.tsx:115-125`), so that sort
reorders the shared catalog. The model follows the code for this behaviour
(`CatalogView.FilterEffectAsWritten`) and reports it under Findings. The
view itself uses the corrected, non-mutating definition.

## Model

| member | source | states |
|---|---|---|
| CatalogView.ComputeView | yourchoice-saree-store/src/App.tsx:72-131 | The listing view is a permutation of exactly the catalog items every active constraint admits, with nothing admitted left out. With no sort it is those items in catalog order. `price-low` is non-decreasing in price; `price-high`, `rating` and `newest` are non-increasing in price, rating and `parseInt(id)`. Under `newest` it requires only that every admitted id reads as a number rather than `NaN`. |
| CatalogView.AdmittedMembers | yourchoice-saree-store/src/App.tsx:76-109 | An item is in the filtered list iff it is in the catalog and passes each active step: the search, exact category, inclusive price range, and any-of colour and fabric. |
| CatalogView.ApplyFiltersIsAdmitted | yourchoice-saree-store/src/App.tsx:73-109 | Running the five guarded filter passes one after another is the same as keeping, in catalog order, the items that satisfy the conjunction of all active constraints. |
| CatalogView.ApplyFiltersAppend | yourchoice-saree-store/src/App.tsx:76-109 | Filtering preserves order: the filtered list of a concatenation is the concatenation of the filtered parts. |
| CatalogView.ViewIsStable | yourchoice-saree-store/src/App.tsx:112-128 | Sorting is stable: for every key value, the items sharing it keep their relative order from the filtered list. |
| CatalogView.EmptySearchShowsCatalog | yourchoice-saree-store/src/App.tsx:73-131 | An empty search with the empty filter record `{}` shows the whole catalog in its original order. |
| CatalogView.InvertedRangeIsEmpty | yourchoice-saree-store/src/App.tsx:91-95 | A price range whose minimum exceeds its maximum yields an empty view. |
| CatalogView.EmptyListsImposeNothing | yourchoice-saree-store/src/App.tsx:98-109 | An empty colour or fabric list gives the same view as an absent one. |
| CatalogView.FilterEffectAsWritten | yourchoice-saree-store/src/App.tsx:73-128 | As written, the effect's sort mutates its input. The catalog afterwards is always a permutation of the old one. It is unchanged when a filter step ran or no sort was chosen. Otherwise it is replaced by the sorted view. |
| CatalogView.AliasedSortCorruptsCatalog | yourchoice-saree-store/src/App.tsx:73-128 | Concrete case: a `price-low` sort of catalog [A, B] with no filter leaves the shared catalog as [B, A]. A later empty-filter view is then not the original catalog. |
| Cart.AddToCart | yourchoice-saree-store/src/App.tsx:133-153 | Adding to an existing `(id, size)` line raises only that line's quantity; all other lines are unchanged and in place. Adding a new key appends exactly one line at the end. |
| Cart.AddPreservesValid | yourchoice-saree-store/src/App.tsx:133-153 | Given a quantity ≥ 1, adding keeps the ledger invariant: unique keys and all quantities ≥ 1. |
| Cart.AddTwiceMerges | yourchoice-saree-store/src/App.tsx:139-153 | Adding `(P, q1, s)` and then `(P, q2, s)` to a ledger without that key yields exactly one new line, holding `q1+q2`. |
| Cart.OtherSizeIsSeparateLine | yourchoice-saree-store/src/App.tsx:139-153 | The same saree in another size becomes a second line appended after the first. |
| Cart.UpdateQuantity | yourchoice-saree-store/src/App.tsx:156-168 | A quantity ≤ 0 is exactly a removal. A positive quantity sets the matching line to exactly that value and leaves the others untouched. Without a matching line the update is a no-op. |
| Cart.UpdatePreservesValid | yourchoice-saree-store/src/App.tsx:156-168 | Updating keeps the ledger invariant. |
| Cart.UpdateToZeroThenRemove | yourchoice-saree-store/src/App.tsx:157-160 | After an update to 0 the key is gone, and a further removal changes nothing. |
| Cart.RemoveFromCart | yourchoice-saree-store/src/App.tsx:171-184 | The survivors are exactly the lines with another key, so the removed key no longer occurs. Removing an absent key changes nothing. |
| Cart.RemoveKeepsOrder | yourchoice-saree-store/src/App.tsx:171-184 | Removal equals the order-preserving filter that keeps every line with another key. |
| Cart.RemovePreservesValid | yourchoice-saree-store/src/App.tsx:181-183 | Removing keeps the ledger invariant. |
| Cart.RemoveDeletesOneLine | yourchoice-saree-store/src/App.tsx:181-183 | In a valid ledger, removing the key of line i deletes exactly that line; the rest keep their order. |
| Cart.RemoveIdempotent | yourchoice-saree-store/src/App.tsx:181-183 | Removing the same key twice equals removing it once. |
| Cart.ClearZeroesTotals | yourchoice-saree-store/src/App.tsx:186-196 | After clearing, the total price and the item count are both 0. |
| Cart.TotalsNonNegative | yourchoice-saree-store/src/App.tsx:190-196 | In a valid ledger the item count is at least the number of lines, and the total price is non-negative. |
| Cart.BumpTotals | yourchoice-saree-store/src/App.tsx:145-149 | Raising the one line with a key by d raises the total price by that line's price times d, and the item count by d. |
| Cart.AddNewLineTotals | yourchoice-saree-store/src/App.tsx:151 | Appending a new line grows the total price by price × quantity and the item count by the quantity. |
| Cart.AddExistingLineTotals | yourchoice-saree-store/src/App.tsx:145-149 | Adding to an existing line grows the totals at that line's own stored price. |
| Cart.TwoSareesTotal | yourchoice-saree-store/src/App.tsx:190-196 | Two of one saree plus one of another cost twice the first price plus the second; the item count is 3. |
| Session.NavigateToProducts | yourchoice-saree-store/src/App.tsx:217-222 | A non-empty category replaces the whole filter record with `{category}`. Otherwise the filters stay as they were. |
| Session.ShortcutShowsCategory | yourchoice-saree-store/src/App.tsx:217-222 | After a category shortcut and an empty search, the listing holds exactly the catalog items of that category. |
| Session.AdminLogin | yourchoice-saree-store/src/App.tsx:224-238 | Succeeds iff the credentials are exactly admin/admin123. Success yields a Super Admin holding the four permissions; failure yields the fixed error text. |
| FilterEdits.SetCategory | yourchoice-saree-store/src/components/ProductListingPage.tsx:51-56 | Ticking sets the category and unticking clears it; every other field is preserved. |
| FilterEdits.ToggleIn | yourchoice-saree-store/src/components/ProductListingPage.tsx:58-80 | Ticking appends the item. Unticking drops every occurrence and keeps the rest. An empty result becomes absent, never an empty list. |
| FilterEdits.ToggleColor | yourchoice-saree-store/src/components/ProductListingPage.tsx:58-68 | Only the colour list changes, as the list toggle prescribes. |
| FilterEdits.ToggleFabric | yourchoice-saree-store/src/components/ProductListingPage.tsx:70-80 | Only the fabric list changes, as the list toggle prescribes. |
| FilterEdits.ToggleOnThenOff | yourchoice-saree-store/src/components/ProductListingPage.tsx:58-68 | Ticking and then unticking a box on an absent list gives the absent list back. |
| FilterEdits.EditsKeepListsNonEmpty | yourchoice-saree-store/src/components/ProductListingPage.tsx:51-153 | No control ever stores an empty colour or fabric list. |
| FilterEdits.SetSort | yourchoice-saree-store/src/components/ProductListingPage.tsx:82-87 | Only `sortBy` changes. |
| FilterEdits.ClearShowsCatalog | yourchoice-saree-store/src/components/ProductListingPage.tsx:89-91 | After "Clear All" with an empty search, the listing is the whole catalog in order. |
| FilterEdits.RangeFrom | yourchoice-saree-store/src/components/ProductListingPage.tsx:134-153 | The range is absent iff both bounds are absent. Otherwise it is `[min or 0, max or 100000]`, where 0 counts as absent. |
| FilterEdits.EditMinPrice | yourchoice-saree-store/src/components/ProductListingPage.tsx:134-141 | Only the price range changes. It becomes absent only when the box is emptied and no range was set. The new lower bound is the entered value, or 0. The upper bound is kept when it was set and non-zero, and is 100000 otherwise. |
| FilterEdits.EditMaxPrice | yourchoice-saree-store/src/components/ProductListingPage.tsx:146-153 | Only the price range changes. It becomes absent only when the box is emptied and no range was set. A non-zero entry becomes the upper bound, and an empty box or 0 gives 100000. The lower bound is kept when a range was set, and is 0 otherwise. |
| FilterEdits.ZeroMaxMeansDefault | yourchoice-saree-store/src/components/ProductListingPage.tsx:151-152 | Entering a maximum of 0 gives an upper bound of 100000. |
| FilterEdits.PriceRangeStaysSet | yourchoice-saree-store/src/components/ProductListingPage.tsx:136-152 | Once a range is set, no sequence of edits to either box makes it absent again, and those edits touch no other field. |
| OrderPricing.Shipping | yourchoice-saree-store/src/components/ShoppingCartPage.tsx:50 | Shipping is 0 exactly when the subtotal exceeds 2000, and 99 otherwise. |
| OrderPricing.Tax | yourchoice-saree-store/src/components/ShoppingCartPage.tsx:51 | The tax is the whole number nearest to 5% of the subtotal, with halves rounded up. |
| OrderPricing.TaxIsUnique | yourchoice-saree-store/src/components/ShoppingCartPage.tsx:51 | Exactly one whole number satisfies that rounding rule. |
| OrderPricing.FinalTotal | yourchoice-saree-store/src/components/CheckoutPage.tsx:70-72 | The final total is the subtotal plus shipping plus tax. It equals subtotal plus tax exactly when the subtotal exceeds 2000, and it never exceeds subtotal plus tax plus 99. The cart page and the checkout page use this one definition, so they agree. |
| OrderPricing.WorkedExamples | yourchoice-saree-store/src/components/ShoppingCartPage.tsx:50-52 | 8999 gives shipping 0, tax 450 and total 9449. 1500 gives 99, 75 and 1674. |
| OrderPricing.FinalTotalDropsAtThreshold | yourchoice-saree-store/src/components/ShoppingCartPage.tsx:50-52 | The final total for 2001 is below the final total for 2000. |
| OrderPricing.FreeShippingHint | yourchoice-saree-store/src/components/ShoppingCartPage.tsx:54-243 | The hint is shown iff the cart has a line and the subtotal is below 2000, and it names the positive amount that reaches 2000. An empty cart returns the empty-cart screen first and shows no hint. |
| OrderPricing.HintMatchesShipping | yourchoice-saree-store/src/components/ShoppingCartPage.tsx:50 | A shown hint means shipping is charged, and free shipping means no hint. On a cart with lines, they disagree only at exactly 2000, where shipping is charged and no hint is shown. |
| CartPage.MinusRequest | yourchoice-saree-store/src/components/ShoppingCartPage.tsx:158-166 | The minus button is disabled iff the quantity is ≤ 1. Otherwise it requests quantity−1 (≥ 1) for the line's own key. |
| CartPage.PlusRequest | yourchoice-saree-store/src/components/ShoppingCartPage.tsx:170-177 | The plus button requests quantity+1 for the line's own key. |
| CartPage.MinusChangesOnlyItsLine | yourchoice-saree-store/src/components/ShoppingCartPage.tsx:158-166 | A minus press on a valid ledger lowers only its own line by one and never removes it. The ledger stays valid and the item count drops by one. |
| CartPage.PlusChangesOnlyItsLine | yourchoice-saree-store/src/components/ShoppingCartPage.tsx:170-177 | A plus press raises only its own line by one. The ledger stays valid and the item count grows by one. |
| Checkout.InitialAddress | yourchoice-saree-store/src/components/CheckoutPage.tsx:42-50 | The form starts with the user's saved address. Without one it starts with empty fields and the country `India`. |
| Checkout.InitialCustomerInfo | yourchoice-saree-store/src/components/CheckoutPage.tsx:51-55 | The contact fields start as the user's name, email and phone (blank when missing), and as blanks with nobody signed in. |
| Checkout.InitialSameAsUser | yourchoice-saree-store/src/components/CheckoutPage.tsx:56 | "Same as account" starts ticked exactly when a user is present. |
| Checkout.AddressChange | yourchoice-saree-store/src/components/CheckoutPage.tsx:107-112 | The named address field takes the value; every other field is unchanged. |
| Checkout.CustomerInfoChange | yourchoice-saree-store/src/components/CheckoutPage.tsx:114-119 | The named contact field takes the value; every other field is unchanged. |
| Checkout.ValidateOrder | yourchoice-saree-store/src/components/CheckoutPage.tsx:82-91 | The submit handler rejects the order for customer information iff a contact field is empty. It is rejected for the address iff the contact fields are complete and street, city, state or pincode is empty. It is accepted otherwise. |
| Checkout.CountryIgnored | yourchoice-saree-store/src/components/CheckoutPage.tsx:88-91 | The country never affects validation. |
| Checkout.BlankFormRejected | yourchoice-saree-store/src/components/CheckoutPage.tsx:51-55 | With nobody signed in, the initial form is rejected for missing customer information, whatever the address. |
| Checkout.LoggedInFormAccepted | yourchoice-saree-store/src/components/CheckoutPage.tsx:42-91 | After a mock login, the prefilled form is accepted iff the entered email is non-empty. |
| Checkout.PlaceOrder | yourchoice-saree-store/src/components/CheckoutPage.tsx:79-105 | A rejected form leaves the cart as it was. An accepted one ends with the empty cart, so zero items and zero price. |
| Auth.Login | yourchoice-saree-store/src/components/AuthModal.tsx:40-54 | The submit handler accepts any email and password. It returns user `1` with the entered email, the demo name, phone and address. |
| Auth.LoginIgnoresPassword | yourchoice-saree-store/src/components/AuthModal.tsx:40-54 | The password never influences the resulting user, which is never the guest. |
| Auth.Signup | yourchoice-saree-store/src/components/AuthModal.tsx:59-87 | A confirmation mismatch is rejected. A matching password under 6 characters is rejected as too short. Otherwise the result is user `2` with exactly the form's name, email and phone. |
| Auth.MismatchReportedFirst | yourchoice-saree-store/src/components/AuthModal.tsx:62-70 | When both of the submit handler's checks fail, the mismatch is the error it reports. |
| Auth.GuestLogin | yourchoice-saree-store/src/components/AuthModal.tsx:89-96 | The guest user is always id `guest` with the fixed name and email. |
| Home.NewArrivals | yourchoice-saree-store/src/components/HomePage.tsx:16 | New arrivals are a prefix of the catalog of length min(4, catalog size). |
| Home.SmallCatalogAllNew | yourchoice-saree-store/src/components/HomePage.tsx:16 | A catalog of at most four products is shown whole as new arrivals. |
| Home.BestSellers | yourchoice-saree-store/src/components/HomePage.tsx:17 | There are at most 4 best sellers, each rated at least 4.5 and drawn from the catalog. |
| Home.BestSellersInCatalogOrder | yourchoice-saree-store/src/components/HomePage.tsx:17 | The best sellers are the first up-to-4 qualifying products in catalog order, as one walk of the catalog selects them. |
| Home.BestSellersSkipOnlyWhenFull | yourchoice-saree-store/src/components/HomePage.tsx:17 | A qualifying product is missing from the row only if the row already holds 4. |
| Home.BestSellersFull | yourchoice-saree-store/src/components/HomePage.tsx:17 | With at least 4 qualifying products, exactly 4 are shown. |
| ProductDetail.Decrement | yourchoice-saree-store/src/components/ProductDetailPage.tsx:224-225 | Minus gives one less, but never less than 1. |
| ProductDetail.Increment | yourchoice-saree-store/src/components/ProductDetailPage.tsx:233 | Plus raises the quantity by exactly one. |
| ProductDetail.StepperBounds | yourchoice-saree-store/src/components/ProductDetailPage.tsx:224-233 | From a positive start, any run of presses stays ≥ 1 and never climbs by more than the number of plus presses. |
| ProductDetail.QuantityAlwaysPositive | yourchoice-saree-store/src/components/ProductDetailPage.tsx:29 | Starting from 1, the shown quantity is always ≥ 1. |
| ProductDetail.ChosenSize | yourchoice-saree-store/src/components/ProductDetailPage.tsx:40-44 | The size passed is the selected one, or `Free Size` when none is selected. |
| ProductDetail.AddToCartRequest | yourchoice-saree-store/src/components/ProductDetailPage.tsx:42-44 | There is no request iff the product is out of stock. A request carries the product, the stepper value and the chosen size. |
| ProductDetail.RequestKeepsCartValid | yourchoice-saree-store/src/components/ProductDetailPage.tsx:42-44 | Whatever was pressed, a request from this page meets the cart's quantity ≥ 1 precondition and keeps a valid cart valid. |
| ProductDetail.Savings | yourchoice-saree-store/src/components/ProductDetailPage.tsx:153-157 | A saving is shown iff an original price is present and non-zero. Price plus saving is that original price. |
| ProductDetail.MarkdownSavesMoney | yourchoice-saree-store/src/components/ProductDetailPage.tsx:153-157 | A real markdown shows a positive saving. |
| Chatbot.Classify | yourchoice-saree-store/src/components/Chatbot.tsx:89-131 | The reply is silk iff the lower-cased message mentions `silk`. Each later topic (sale/discount, size, delivery/shipping, return/refund) is chosen iff every earlier one is absent and its own keyword is present. The default is chosen iff nothing matches. |
| Chatbot.Suggestions | yourchoice-saree-store/src/components/Chatbot.tsx:92-130 | The quick replies are offered as suggestions iff the reply is the default one. |
| Chatbot.ClassifyIgnoresCase | yourchoice-saree-store/src/components/Chatbot.tsx:90 | Lower-casing a message first changes nothing. |
| Chatbot.MentionedAnywhere | yourchoice-saree-store/src/components/Chatbot.tsx:90-125 | A keyword written anywhere in a message, in any letter case, counts as mentioned. |
| Chatbot.SilkDominates | yourchoice-saree-store/src/components/Chatbot.tsx:92-97 | A message containing `silk` in any case is classified as silk, whatever else it contains. |
| Chatbot.QuickReplyReachesTopic | yourchoice-saree-store/src/components/Chatbot.tsx:31-37 | The five quick replies are classified as silk, sale, size, delivery and returns, in order. |
| Chatbot.QuickRepliesDistinctTopics | yourchoice-saree-store/src/components/Chatbot.tsx:31-37 | Two different quick replies never get the same topic, and none gets the default. |
| Chatbot.SendMessage | yourchoice-saree-store/src/components/Chatbot.tsx:133-144 | Input that trims to nothing leaves the transcript unchanged. Otherwise the shopper's text and the classified reply are appended. |
| Chatbot.BlankInputIgnored | yourchoice-saree-store/src/components/Chatbot.tsx:134 | Sending changes nothing iff the input consists only of white space. |
| Chatbot.QuickReplyIsTypedReply | yourchoice-saree-store/src/components/Chatbot.tsx:146-154 | Pressing a quick reply has the same effect as typing its text. |
| AdminOrders.FilteredOrders | yourchoice-saree-store/src/components/admin/OrderManagement.tsx:149-156 | An order is listed iff the lower-cased term occurs in its lower-cased id, name or email, and the filter is `all` or its status. |
| AdminOrders.FilterKeepsOrder | yourchoice-saree-store/src/components/admin/OrderManagement.tsx:149-156 | Filtering keeps the input order. |
| AdminOrders.EmptySearchListsAll | yourchoice-saree-store/src/components/admin/OrderManagement.tsx:149-156 | An empty search with `all` lists every order, in order. |
| AdminOrders.SortSelectionIgnored | yourchoice-saree-store/src/components/admin/OrderManagement.tsx:149-156 | The sort selection is never applied: any two selections show the same list. |
| AdminOrders.Stats | yourchoice-saree-store/src/components/admin/OrderManagement.tsx:158-165 | Each counter counts the orders with its status. The four counters plus the uncounted cancelled orders make up the total, so the counters sum to at most the total. Revenue is the sum of all order totals. |
| AdminOrders.CountStatus | yourchoice-saree-store/src/components/admin/OrderManagement.tsx:160-163 | The count is the number of positions whose order has that status. It is 0 iff no order has that status, and it never exceeds the number of orders. |
| AdminOrders.RevenueIncludesCancelled | yourchoice-saree-store/src/components/admin/OrderManagement.tsx:164 | Revenue equals the takings of cancelled orders plus those of the others: cancelled orders are not subtracted. |
| AdminOrders.NextAction | yourchoice-saree-store/src/components/admin/OrderManagement.tsx:345-364 | Pending offers Confirm, confirmed offers Ship, shipped offers Deliver. Delivered and cancelled offer nothing. |
| AdminOrders.NextActionInjective | yourchoice-saree-store/src/components/admin/OrderManagement.tsx:345-364 | No two statuses offer the same action. |
| AdminCustomers.FilteredCustomers | yourchoice-saree-store/src/components/admin/CustomerInsights.tsx:134-140 | A customer is listed iff the term occurs, ignoring case, in the name or email, and the segment is `all` or the customer's status. |
| AdminCustomers.EmptySearchListsAll | yourchoice-saree-store/src/components/admin/CustomerInsights.tsx:134-140 | An empty search over all segments lists every customer, in order. |
| AdminCustomers.SortCustomers | yourchoice-saree-store/src/components/admin/CustomerInsights.tsx:142-155 | The result is a permutation of its input. `name` ascends; `totalSpent` and `totalOrders` are non-increasing; `joinDate` puts later dates first. Any other value keeps the input order. |
| AdminCustomers.SpendSortIsStable | yourchoice-saree-store/src/components/admin/CustomerInsights.tsx:146-147 | Customers with equal spend keep their list order. |
| AdminCustomers.Stats | yourchoice-saree-store/src/components/admin/CustomerInsights.tsx:157-162 | Each segment counter counts its segment, and `vip + active + inactive = total`. `newThisMonth` counts the customers who joined after 2024-01-01 and is at most the total. |
| AdminCustomers.NewMeansStrictlyLater | yourchoice-saree-store/src/components/admin/CustomerInsights.tsx:162 | Every customer counted as new joined strictly after the cut-off; the cut-off day itself is excluded. |
| AdminProducts.FilteredProducts | yourchoice-saree-store/src/components/admin/ProductManagement.tsx:29-33 | A product is listed iff the term occurs, ignoring case, in its name (only), and the category is `all` or its own. |
| AdminProducts.EmptySearchListsAll | yourchoice-saree-store/src/components/admin/ProductManagement.tsx:29-33 | An empty search over all categories lists the whole catalog, in order. |
| AdminProducts.BridalMatchesNothing | yourchoice-saree-store/src/components/admin/ProductManagement.tsx:27 | The `bridal` option matches no product, since no catalog category has that name. |
| AdminProducts.SortProducts | yourchoice-saree-store/src/components/admin/ProductManagement.tsx:35-46 | The result is a permutation. `name` ascends, `price` is non-decreasing, `rating` is non-increasing. Any other value keeps the input order. |
| AdminProducts.PriceSortMatchesStorefront | yourchoice-saree-store/src/components/admin/ProductManagement.tsx:40-41 | The admin price order is the storefront's `price-low` order. |
| AdminProducts.GetStockStatus | yourchoice-saree-store/src/components/admin/ProductManagement.tsx:48-52 | The badge is "Out of Stock" iff stock = 0, "Low Stock" iff stock ≠ 0 and stock < 10, and "In Stock" iff stock ≥ 10. |
| AdminProducts.DrawnStockNeverOut | yourchoice-saree-store/src/components/admin/ProductManagement.tsx:163-164 | The stock figures drawn for display (5 to 29) never produce "Out of Stock". |
| Sorting.SortBySorted | yourchoice-saree-store/src/App.tsx:112-128 | Under a total order, the sort's result is ordered by the key. |
| Sorting.SortByStable | yourchoice-saree-store/src/App.tsx:112-128 | The sort is stable, as ECMAScript's `Array.prototype.sort` is: ties keep their input order. |
| Sorting.LexOrdersAreTotal | yourchoice-saree-store/src/components/admin/CustomerInsights.tsx:144-151 | String order, ascending and descending, is a total order. |
| Text.ContainsIffOccurs | yourchoice-saree-store/src/App.tsx:77-82 | The scanning `includes` holds iff the substring occurs at some position. |
| Text.ToLowerIdempotent | yourchoice-saree-store/src/App.tsx:77-82 | Lower-casing twice equals lower-casing once. |
| Text.TrimEmptyIffBlank | yourchoice-saree-store/src/components/Chatbot.tsx:134 | A string trims to nothing iff every character is white space. |
| Text.EmptyTermMatches | yourchoice-saree-store/src/components/admin/OrderManagement.tsx:151-153 | An empty search term matches every field. |
| Text.ParseIntRoundTrip | yourchoice-saree-store/src/App.tsx:125 | `parseInt` inverts decimal formatting: `parseInt(String(n))` is `n` for every integer `n`. |
| Text.ParseIntSkipsSpace | yourchoice-saree-store/src/App.tsx:125 | Leading white space never changes what `parseInt` reads. |
| Text.NoDigitIsNaN | yourchoice-saree-store/src/App.tsx:125 | Text that starts with neither white space, a sign nor a digit reads as `NaN`. |
| Text.NegativeNeedsMinus | yourchoice-saree-store/src/App.tsx:125 | A negative result always comes from a `-` sign. |
| Text.HexExample | yourchoice-saree-store/src/App.tsx:125 | With no radix argument, a `0x` prefix selects radix 16: `parseInt("0x10")` is 16. |
| Text.SpaceExample | yourchoice-saree-store/src/App.tsx:125 | `parseInt(" 7")` is 7. |
| Text.PlusExample | yourchoice-saree-store/src/App.tsx:125 | `parseInt("+7")` is 7. |
| Text.MinusExample | yourchoice-saree-store/src/App.tsx:125 | `parseInt("-7")` is -7. |
| Text.TailExample | yourchoice-saree-store/src/App.tsx:125 | Reading stops at the first character that is not a digit: `parseInt("12ab")` is 12. |
| Text.LetterExample | yourchoice-saree-store/src/App.tsx:125 | `parseInt("ab")` is `NaN`. |
| Seqs.KeepAppend | yourchoice-saree-store/src/App.tsx:77-109 | `filter` distributes over concatenation. |
| Seqs.SumSplit | yourchoice-saree-store/src/components/admin/OrderManagement.tsx:164 | A `reduce(+)` sum splits into the part a predicate selects and the part its complement selects. |
| Types.CategoryNameInjective | yourchoice-saree-store/src/types.ts:8 | Distinct categories have distinct string names. |

## Left out

- Browser storage is not modelled. Cart and user persistence through `localStorage`, including its JSON parsing (App.tsx:39-52, 66-69), is I/O.
- Analytics are not modelled. `analytics.ts` and every `track*` call are fire-and-forget side effects.
- Timers and randomness are not modelled: `setTimeout` delays, the `Date.now()`/`Math.random()` order ids, and message ids and timestamps. The chatbot's reply is appended immediately after the shopper's message. The admin page's random stock numbers only set the range in `AdminProducts.DrawnStockNeverOut`.
- Decorative figures are not modelled: the `productStats` figures, which are derived from `parseInt(id)` as decoration, and the `averageSpent` division.
- Floating-point and locale formatting are not modelled: discount-percentage badges, `toFixed`, `Intl.NumberFormat` currency strings and star rendering.
- Presentational components are not modelled: PerformanceMetrics, SalesAnalytics, OverviewAnalytics, AdminDashboard, AdminLayout, Header and Footer. They hold hardcoded sample numbers and no derived logic.
- The admin panel's `AdminLogin.tsx` is not modelled separately. It repeats the credential check of App.tsx:226 behind a delay.
- The admin panel's `types.ts` has no behaviour and is not modelled.
- Page navigation is not modelled. `currentPage`, modal visibility and the selected product are UI state.
- The input types of event handlers are only partly modelled. React events, `alert` and form submission are left out. A number input's `parseInt` result is taken as a whole number or absent; a `NaN` from malformed text is not modelled.
- The order-status, customer-segment and product-category selectors are not restricted to the options their drop-downs offer. Any string is accepted, and unknown values fall through exactly as in the code.
- Text.ToLower: lower-cases ASCII letters only, because JavaScript's full Unicode case mapping is out of scope.
- Text.LexLe: orders strings by Unicode code point. It stands in for `localeCompare`, which is locale-dependent, in AdminCustomers.SortCustomers and AdminProducts.SortProducts. It also stands in for `Date` comparison of ISO `YYYY-MM-DD` strings in AdminCustomers.SortCustomers and AdminCustomers.Stats; the two orders agree on well-formed dates, and invalid dates are not modelled.
- Strings are sequences of Unicode characters, standing in for UTF-16 code units; the two differ only for characters above U+FFFF, which count once here and twice in JavaScript. `password.length` is counted in characters.
- OrderPricing.Tax: evaluates `Math.round(total * 0.05)` exactly over the rationals, for whole-rupee subtotals. Floating-point error in `total * 0.05` is not modelled.
- CatalogView.ComputeView: under the `newest` sort, requires every admitted id to read as a number. An id that `parseInt` reads as `NaN` makes the comparator return `NaN`. Section 23.1.3.30 of ECMA-262 calls a comparator consistent only if each result "is a Number, and v is not NaN", and it leaves the sort order implementation-defined otherwise. This applies even when every id is `NaN`. Ids that read as numbers are modelled in full by `Text.ParseInt`, including leading white space, a sign and a `0x` prefix.
- Text.ParseInt: returns an exact integer. JavaScript rounds the value to a double, so ids beyond 2^53 may compare equal there and are not modelled. The decimal approximation ECMA-262 allows past 20 significant digits is not modelled either.
- Auth.Login, Auth.MismatchReportedFirst, Checkout.ValidateOrder: these describe the submit handlers. The browser's HTML constraint validation runs before them and is not modelled. The login fields carry `required` and `type="email"` (AuthModal.tsx:122-143). The sign-up password carries `required minLength={6}` (AuthModal.tsx:228-229). Every field the checkout handler tests carries `required` (CheckoutPage.tsx:182-279). So in the running page, an empty or malformed login email never reaches the handler. A sign-up password under 6 characters is reported by the browser before the mismatch check. The handler's "fill in all required fields" branch is not reachable from the form.
- Cart.AddToCart: requires a quantity ≥ 1. The code does not guard this; every caller in the store passes at least 1 (`ProductDetail.RequestKeepsCartValid`).
- Filter record: a sort value that does not occur in the drop-down is not modelled; `sortBy` is a typed value, following `types.ts`. The category is any string, as `category?: string` in `types.ts`.

## Findings

| source | as written | input that shows it | evidently intended | confidence | as-written member | corrected member |
|---|---|---|---|---|---|---|
| yourchoice-saree-store/src/App.tsx:73-128 | `filtered` starts as the shared `sampleSarees` array. When no search or filter step runs, `filtered.sort(...)` sorts the shared catalog in place. The same array feeds the home page (`sarees={sampleSarees}`, App.tsx:251) and the admin product list (ProductManagement.tsx:29), so both see the new order. | Catalog [A (id "1", price 2), B (id "2", price 1)], empty search, filters `{sortBy: 'price-low'}`. The shared catalog becomes [B, A], so choosing "Clear All" afterwards shows [B, A] instead of the catalog order. | Sort a copy (`[...filtered].sort`, as the admin lists do), leaving the catalog untouched so that an empty filter shows the catalog in its original order. | not executed | CatalogView.FilterEffectAsWritten, CatalogView.AliasedSortCorruptsCatalog | CatalogView.ComputeView, CatalogView.EmptySearchShowsCatalog |
