# Shopping cart of the product shop API, in Dafny

This project models the per-user shopping cart of a Django shop backend and the
slug rule its catalog records apply when they are saved.

- **Cart endpoint.** Three handlers act on a cart. `GET` returns the cart's
  totals and creates the cart if it is missing. `POST` with `product_id` and
  `quantity` sets one line item's quantity, or removes the item when the
  quantity is 0. `DELETE` empties the cart.
- **Cart aggregation.** A cart reports its total quantity and its total price.
  A line's total is its product's price times its quantity. Prices are decimals
  with 10 digits, 2 after the point. They are kept exactly, as integer cents.
- **Slug backfill.** When a `Category`, `SubCategory` or `Product` is saved
  with an empty slug, the slug becomes `slugify(name)`. A non-empty slug is
  never touched.

The model has two levels.

- `CartSpec` is the net effect: a pure transition
  `(carts, request) -> (carts, outcome)`. `carts` maps each user to a cart, and
  a cart maps each product to a quantity. A user with no entry has no cart, so
  each user has at most one cart. A map holds one entry per product, so a cart
  has at most one item per product. `CartLaws` proves what this machine
  promises, both for one request and for a sequence of requests.
- `CartModels` and `CartView` follow what the view code actually does to the
  tables. The store is the set of users who own a cart row plus the sequence of
  `CartItem` rows. The tables have no uniqueness constraint on (cart, product).
  `POST` runs its steps in this order:
  1. validate the request;
  2. `get_or_create` the cart;
  3. `get_or_create` the item, which is created with quantity 1;
  4. save the quantity, or delete the item if the quantity is 0.

  `CartView.HandleRefinesStep` proves that every handler has exactly the effect
  and the answer of the `CartSpec` step on the carts read back from the rows.
  `CartView.RunStore` proves that the rows stay unique per (cart, product)
  after any sequence of requests.

Files: `sums.dfy` sums over maps, `catalog.dfy` catalog records and slugs,
`cart_spec.dfy` the state machine, `cart_laws.dfy` its properties,
`cart_models.dfy` rows, ORM calls and totals, `cart_view.dfy` handlers and
refinement, `cart_scenarios.dfy` concrete runs taken from the endpoint's tests.

Three behaviours of the code that are easy to misread:

- A slug is not guaranteed to be non-empty. A blank slug becomes
  `slugify(name)`, and that can be the empty string. Django's `slugify` drops
  non-ASCII letters unless told otherwise, so a name written only in Cyrillic
  gives an empty slug. `Catalog.BackfillSlug` only promises that an empty
  result comes from an empty `slugify(name)`.
- A `POST` with quantity 0 on a product that is not in the cart is not a pure
  no-op. It creates the user's cart if the cart was missing. It also creates
  the item and then deletes it again. The net effect is "cart exists, item
  absent".
- Validation checks more than the product and the quantity. The missing
  `product_id` check comes first. Then the code calls `int()` on the quantity,
  and only after that checks for a negative value. So a value that is not an
  integer is reported as such, even if it looks negative.

## Model

| member | source | states |
|---|---|---|
| Catalog.BackfillSlug | apps/shop/models.py:24-27 | a non-empty slug is kept verbatim; an empty slug becomes slugify(name); the stored slug is empty only when slugify(name) is |
| Catalog.SaveCategory | apps/shop/models.py:24-27 | saving a category keeps its name and stores the backfilled slug |
| Catalog.SaveSubCategory | apps/shop/models.py:55-58 | saving a subcategory keeps its name and parent and stores the backfilled slug |
| Catalog.SaveProduct | apps/shop/models.py:108-111 | saving a product keeps name, subcategory and price and stores the backfilled slug |
| Catalog.SaveIdempotent | apps/shop/models.py:24-27 | saving any of the three records twice gives the same record as saving once |
| Catalog.RenameKeepsSlug | apps/shop/models.py:108-111 | once a product has a non-empty slug, renaming and saving again does not regenerate it |
| CartSpec.ValidatePost | apps/shop/views.py:51-77 | each error is reported exactly when its check is the first to fail, in the order id given, product exists, integer, not negative; a missing quantity means 1 |
| CartSpec.LineTotal | apps/shop/models.py:145-147 | a line total in cents is zero for quantity zero, non-negative for a non-negative price, and at most the widest 10-digit price times the quantity in size |
| CartSpec.TotalQuantity | apps/shop/models.py:126-128 | the total quantity is a natural number and 0 for an empty cart |
| CartSpec.TotalPrice | apps/shop/models.py:130-132 | the total price is 0 for an empty cart |
| CartSpec.Step | apps/shop/views.py:43-109 | a request changes only the requesting user's cart, never removes a cart, keeps every item pointing at an existing product, and changes nothing when it fails |
| CartSpec.Run | apps/shop/views.py:43-109 | after any sequence of requests no cart has disappeared and every item still names an existing product |
| CartLaws.RejectedPostChangesNothing | apps/shop/views.py:51-77 | a post that fails validation answers with that failure, changes no state and creates no cart |
| CartLaws.ProductCheckedBeforeQuantity | apps/shop/views.py:57-65 | an unknown product is reported whatever the quantity, even a negative or non-integer one |
| CartLaws.OmittedQuantityIsOne | apps/shop/views.py:65 | a post without a quantity behaves exactly like a post of quantity 1 |
| CartLaws.PostSettlesOneItem | apps/shop/views.py:79-94 | after a valid post the cart exists; quantity q > 0 leaves the item with exactly q and answers Added; q = 0 leaves it absent and answers Removed; every other item is unchanged |
| CartLaws.PostIdempotent | apps/shop/views.py:82-84 | repeating any post gives the same state and the same answer as sending it once: quantities are overwritten, not added |
| CartLaws.LastWriteWins | apps/shop/views.py:80-94 | after a valid post for a product, any earlier post for that product by the same user has no effect on the result |
| CartLaws.ClearKeepsCartAndIsIdempotent | apps/shop/views.py:106-109 | deleting an existing cart answers Cleared, leaves the cart present and empty, and deleting again changes nothing |
| CartLaws.ClearWithoutCart | apps/shop/views.py:98-104 | deleting without a cart answers not-found and creates nothing |
| CartLaws.ClearedCartTotalsZero | apps/shop/views.py:106-109 | after a successful delete the cart reports total quantity 0 and total price 0 |
| CartLaws.GetCreatesOnlyWhenMissing | apps/shop/views.py:45 | viewing the cart adds an empty cart exactly when the user had none and changes nothing else |
| CartLaws.PostMovesTotals | apps/shop/models.py:126-132 | setting a product's quantity to q replaces that product's share of both totals by q and by price times q; the total price is the rest of the cart plus that product's line total |
| CartLaws.RunKeepsQuantitiesPositive | apps/shop/views.py:82-94 | starting from positive quantities, every item any request sequence leaves behind has a positive quantity |
| CartLaws.RunLeavesOtherUsersAlone | apps/shop/views.py:79-80 | a user who sends none of the requests keeps their cart, or their lack of one, unchanged |
| CartModels.Abstract | apps/shop/models.py:120 | reading the store back gives every cart owner exactly one cart and nobody else a cart |
| CartModels.ItemsOf | apps/shop/models.py:138-140 | a product is in a user's cart exactly when some row of that user's cart names it; with one row per (cart, product), its quantity is that row's quantity |
| CartModels.CartRows | apps/shop/models.py:128 | the cart's item set holds exactly the rows whose cart is the user's |
| CartModels.CartTotalQuantity | apps/shop/models.py:126-128 | summing the quantities of the cart's rows gives the sum of its line items' quantities |
| CartModels.CartTotalPrice | apps/shop/models.py:130-132 | summing the cart's line totals row by row gives the sum of price times quantity over its line items |
| CartModels.QuantitiesMatch | apps/shop/models.py:126-128 | with one row per (cart, product), the row-by-row quantity sum equals the map sum |
| CartModels.LineTotalsMatch | apps/shop/models.py:130-132 | with one row per (cart, product), the row-by-row price sum equals the map sum of line totals |
| CartModels.GetOrCreateCart | apps/shop/views.py:79 | the user has a cart afterwards; no other user's cart and no row changes |
| CartModels.FindLine | apps/shop/views.py:80 | the lookup finds a row for (cart, product) exactly when one exists |
| CartModels.GetOrCreateItem | apps/shop/views.py:80 | returns the existing row for (cart, product) unchanged, or appends one with the default quantity 1; rows stay unique |
| CartModels.SaveQuantity | apps/shop/views.py:83-84 | only the located row's quantity changes; rows stay unique |
| CartModels.DeleteRow | apps/shop/views.py:90 | only the located row disappears; the others keep their order; rows stay unique |
| CartModels.DeleteCartRows | apps/shop/views.py:106 | exactly the rows of the user's cart disappear; carts are kept; rows stay unique |
| CartView.HandleGet | apps/shop/views.py:43-47 | creates the cart if missing, changes no item, and reports the sum of quantities and the sum of price times quantity |
| CartView.HandlePost | apps/shop/views.py:49-94 | a failed validation answers the failure with the store untouched; a valid post leaves the user with a cart; the store invariant is kept |
| CartView.HandleDelete | apps/shop/views.py:96-109 | answers not-found exactly when the user has no cart; otherwise removes exactly the rows of that cart, keeps every other row and keeps the cart; without a cart the store is untouched |
| CartView.Handle | apps/shop/views.py:43-109 | whichever method a request uses, the store invariant (unique items, items of existing carts and products) is kept |
| CartView.RunStore | apps/shop/views.py:79-80 | after any sequence of requests there is at most one item per (cart, product) and every row names an existing cart and product |
| CartView.SaveRefines | apps/shop/views.py:82-84 | saving a quantity on the user's located line sets that product's quantity in that user's cart and changes no other cart |
| CartView.DeleteRefines | apps/shop/views.py:89-90 | deleting the user's located line drops that product from that user's cart and changes no other cart |
| CartView.PostRefinesStep | apps/shop/views.py:79-94 | the get_or_create/save/delete sequence of a post has exactly the net effect and answer of the upsert-or-delete transition |
| CartView.HandleRefinesStep | apps/shop/views.py:43-109 | every handler's effect on the carts and its answer are exactly those of the state machine |
| CartView.RunRefinesSpec | apps/shop/views.py:43-109 | over any sequence of requests the store ends in the carts the state machine predicts |
| CartScenarios.OneItemOfTwo | apps/shop/tests/test_api.py:82-93 | a cart with one item of quantity 2 reports total quantity 2 and total price twice the product's price |
| CartScenarios.PostTwiceThenRemove | apps/shop/views.py:79-94 | two posts of quantity 2 for a 19.99 product leave one item of 2 worth 39.98; a post of 0 then empties the cart |
| CartScenarios.PostAnswersAdded | apps/shop/tests/test_api.py:97-110 | posting quantity 3 answers with the added/updated message for that product |
| CartScenarios.PostThenZeroAnswersRemoved | apps/shop/tests/test_api.py:114-127 | posting 2 and then 0 answers the second post with the removed message for that product |
| CartScenarios.DeleteAnswersCleared | apps/shop/tests/test_api.py:131-140 | deleting a cart that holds an item answers cleared and leaves the cart with no rows |

## Left out

- Image variants (the `ImageSpecField`s and the image URLs the serializer exposes) are left out. They are imagekit/PIL wrappers: resizing, float contrast and sharpness, JPEG encoding. The visible code has no cache logic to model.
- `slugify` is a parameter. Its Django implementation is not part of this model.
- Pagination is left out. It is only page-size constants for the framework's paginator.
- Serializers, URL routing, admin screens and migrations are left out. The failure tags note the HTTP status each one is sent with.
- Authentication and user registration are left out. A request carries the authenticated user's id.
- Concurrency is left out, including create races in `get_or_create`. Requests are handled one at a time.
- Some `product_id` inputs are not modelled. A non-numeric string makes the lookup raise an unhandled `ValueError` before any write. The string `"0"` is truthy, so it reaches the lookup instead of being reported as missing.
- Some Python `int()` edge cases are not modelled. A float is truncated, and a null quantity raises an unhandled `TypeError`. The quantity field is only omitted, an integer, or not an integer.
- The database's upper bound on `PositiveIntegerField` is left out. It depends on the backend, and the backend is not part of this model.
- Deleting a product, which cascades to its cart items, and other catalog changes are left out. The product table is fixed while requests run.
- Uniqueness of names and slugs is left out. It is enforced by the database and is not part of the save logic.
- `Cart.created_at`, a clock value, and the `__str__` display strings are left out. Messages carry the product's name.
- Python `Decimal` arithmetic is modelled as exact integer cents. The 28-digit decimal context is never reached by 10-digit prices and realistic quantities. An empty cart's total price is the integer 0 rather than a two-place decimal; only the value is modelled.
- CartView.HandleGet: the outcome carries the two totals but not the serialized list of items. That list is the serializer's output.
- CartSpec.TotalQuantity: its own contract only gives the empty-cart value and non-negativity. The sum itself is what CartModels.CartTotalQuantity and CartLaws.PostMovesTotals relate it to.
