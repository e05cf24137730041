/** The shopping cart as a pure state machine. Each user has at most one cart;
    a cart maps each product to the quantity of its single line item. This is
    the net effect the cart endpoint has on the store; CartView shows that the
    store-level steps the endpoint performs have exactly this effect. */
module CartSpec {
  import opened Sums
  import opened Catalog

  type UserId = int

  /** A cart's line items: product -> quantity. A map holds at most one
      entry per product, so there is at most one item per (cart, product). */
  type Items = map<ProductId, nat>

  /** The carts that exist: a user without an entry has no cart. */
  type Carts = map<UserId, Items>

  /** What the request body says about `product_id`: absent (or null, or an
      empty string), or a number. The number 0 is falsy as well. */
  datatype ProductIdField = NoProductId | ProductIdValue(id: int)

  /** What the request body says about `quantity`: absent, a value `int()`
      accepts, or a value it rejects. */
  datatype QuantityField = QuantityOmitted | QuantityInt(n: int) | QuantityNotInteger

  datatype Request =
    | GetCart(user: UserId)
    | PostItem(user: UserId, productId: ProductIdField, quantity: QuantityField)
    | DeleteCart(user: UserId)

  datatype Failure =
    | MissingProductId     // 400: product_id not given
    | UnknownProduct       // 400: no product with that id
    | NegativeQuantity     // 400: quantity below zero
    | NonIntegerQuantity   // 400: quantity is not an integer
    | CartNotFound         // 404: the user has no cart to clear

  /** The response: the cart's totals, a message naming the product that was
      added/updated or removed, the "cleared" message, or an error. */
  datatype Outcome =
    | Contents(totalQuantity: nat, totalPrice: int)
    | Added(productName: string)
    | Removed(productName: string)
    | Cleared
    | Failed(failure: Failure)

  datatype Response<S> = Response(state: S, outcome: Outcome)

  datatype Result<T> = Ok(value: T) | Err(failure: Failure)

  /** A post that passed validation: an existing product and a quantity >= 0. */
  datatype Validated = Validated(product: ProductId, quantity: nat)

  /** The quantity assumed when the request does not give one. */
  const OmittedQuantity: nat := 1

  /** A new line item's quantity when none is given (the column default). */
  const DefaultQuantity: nat := 1

  predicate Falsy(f: ProductIdField) {
    f.NoProductId? || f.id == 0
  }

  /** The validation the endpoint runs before it touches any state, in its
      order: product id given, product exists, quantity an integer, quantity
      not negative. */
  function ValidatePost(products: ProductTable, pid: ProductIdField, qty: QuantityField): (r: Result<Validated>)
    ensures r == Err(MissingProductId) <==> Falsy(pid)
    ensures r == Err(UnknownProduct) <==> !Falsy(pid) && pid.id !in products
    ensures r == Err(NonIntegerQuantity) <==>
              !Falsy(pid) && pid.id in products && qty.QuantityNotInteger?
    ensures r == Err(NegativeQuantity) <==>
              !Falsy(pid) && pid.id in products && qty.QuantityInt? && qty.n < 0
    ensures r.Err? ==> r.failure != CartNotFound
    ensures r.Ok? ==> r.value.product == pid.id && r.value.product in products
    ensures r.Ok? && qty.QuantityOmitted? ==> r.value.quantity == OmittedQuantity
    ensures r.Ok? && qty.QuantityInt? ==> r.value.quantity == qty.n
  {
    if Falsy(pid) then Err(MissingProductId)
    else if pid.id !in products then Err(UnknownProduct)
    else
      match qty
      case QuantityOmitted => Ok(Validated(pid.id, OmittedQuantity))
      case QuantityNotInteger => Err(NonIntegerQuantity)
      case QuantityInt(n) =>
        if n < 0 then Err(NegativeQuantity) else Ok(Validated(pid.id, n))
  }

  /** CartItem.get_total_price: price times quantity, in cents, so exact. Its
      size is bounded by the widest price the column can hold. */
  function LineTotal(price: Price, quantity: nat): (r: int)
    ensures quantity == 0 ==> r == 0
    ensures -MaxPriceCents * quantity <= r <= MaxPriceCents * quantity
    ensures 0 <= price ==> 0 <= r
  {
    price * quantity
  }

  /** Cart.get_total_quantity: the sum of the item quantities. */
  ghost function TotalQuantity(items: Items): (r: nat)
    ensures items == map[] ==> r == 0
  {
    MapSumNonNegative(items);
    MapSum(items)
  }

  /** Every product a cart refers to exists. */
  ghost predicate InCatalog(products: ProductTable, items: Items) {
    items.Keys <= products.Keys
  }

  ghost predicate AllInCatalog(products: ProductTable, carts: Carts) {
    forall u | u in carts :: InCatalog(products, carts[u])
  }

  /** The line totals of a cart, by product. */
  ghost function LineTotals(products: ProductTable, items: Items): (r: map<ProductId, int>)
    requires InCatalog(products, items)
    ensures r.Keys == items.Keys
  {
    map p | p in items :: LineTotal(products[p].price, items[p])
  }

  /** Cart.get_total_price: the sum of the line totals. */
  ghost function TotalPrice(products: ProductTable, items: Items): (r: int)
    requires InCatalog(products, items)
    ensures items == map[] ==> r == 0
  {
    MapSum(LineTotals(products, items))
  }

  function CartOf(carts: Carts, u: UserId): Items {
    if u in carts then carts[u] else map[]
  }

  /** One request to the cart endpoint and its net effect. */
  ghost function Step(products: ProductTable, carts: Carts, req: Request): (r: Response<Carts>)
    requires AllInCatalog(products, carts)
    ensures AllInCatalog(products, r.state)
    // only the requesting user's cart is affected, and no cart disappears
    ensures carts.Keys <= r.state.Keys <= carts.Keys + {req.user}
    ensures forall w | w in carts && w != req.user :: r.state[w] == carts[w]
    // a failed request changes nothing
    ensures r.outcome.Failed? ==> r.state == carts
  {
    match req
    case GetCart(u) =>
      var items := CartOf(carts, u);
      Response(carts[u := items], Contents(TotalQuantity(items), TotalPrice(products, items)))
    case PostItem(u, pid, qty) =>
      (match ValidatePost(products, pid, qty)
       case Err(f) => Response(carts, Failed(f))
       case Ok(v) =>
         var items := CartOf(carts, u);
         var name := products[v.product].name;
         if v.quantity > 0 then
           Response(carts[u := items[v.product := v.quantity]], Added(name))
         else
           Response(carts[u := items - {v.product}], Removed(name)))
    case DeleteCart(u) =>
      if u in carts then Response(carts[u := map[]], Cleared)
      else Response(carts, Failed(CartNotFound))
  }

  /** A sequence of requests, one after the other. */
  ghost function Run(products: ProductTable, carts: Carts, reqs: seq<Request>): (r: Carts)
    requires AllInCatalog(products, carts)
    ensures AllInCatalog(products, r)
    ensures carts.Keys <= r.Keys
    decreases |reqs|
  {
    if reqs == [] then carts
    else Run(products, Step(products, carts, reqs[0]).state, reqs[1..])
  }
}
