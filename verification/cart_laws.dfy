/** Properties of the cart state machine in CartSpec: what each request does
    and does not change, over one request and over sequences of requests. */
module CartLaws {
  import opened Sums
  import opened Catalog
  import opened CartSpec

  /** A post that fails validation answers with that failure and changes
      nothing; in particular it creates no cart. */
  lemma RejectedPostChangesNothing(products: ProductTable, carts: Carts, u: UserId,
                                   pid: ProductIdField, qty: QuantityField)
    requires AllInCatalog(products, carts)
    requires ValidatePost(products, pid, qty).Err?
    ensures Step(products, carts, PostItem(u, pid, qty))
         == Response(carts, Failed(ValidatePost(products, pid, qty).failure))
    ensures u !in carts ==> u !in Step(products, carts, PostItem(u, pid, qty)).state
  {
  }

  /** The product is looked up before the quantity is examined: an unknown
      product is reported even when the quantity is also wrong. */
  lemma ProductCheckedBeforeQuantity(products: ProductTable, carts: Carts, u: UserId,
                                     id: int, qty: QuantityField)
    requires AllInCatalog(products, carts)
    requires id != 0 && id !in products
    ensures Step(products, carts, PostItem(u, ProductIdValue(id), qty)).outcome == Failed(UnknownProduct)
  {
  }

  /** Leaving out the quantity is the same as asking for one item. */
  lemma OmittedQuantityIsOne(products: ProductTable, carts: Carts, u: UserId, pid: ProductIdField)
    requires AllInCatalog(products, carts)
    ensures Step(products, carts, PostItem(u, pid, QuantityOmitted))
         == Step(products, carts, PostItem(u, pid, QuantityInt(1)))
  {
  }

  /** A valid post settles exactly one line item: with a positive quantity the
      item exists with exactly that quantity, with zero it is absent whether or
      not it existed. The user's cart exists afterwards and every other item of
      it is as before. */
  lemma PostSettlesOneItem(products: ProductTable, carts: Carts, u: UserId,
                           pid: ProductIdField, qty: QuantityField)
    requires AllInCatalog(products, carts)
    requires ValidatePost(products, pid, qty).Ok?
    ensures var v := ValidatePost(products, pid, qty).value;
            var r := Step(products, carts, PostItem(u, pid, qty));
            && u in r.state
            && (v.quantity > 0 ==> v.product in r.state[u] && r.state[u][v.product] == v.quantity
                                   && r.outcome == Added(products[v.product].name))
            && (v.quantity == 0 ==> v.product !in r.state[u]
                                    && r.outcome == Removed(products[v.product].name))
            && (forall p | p != v.product ::
                  (p in r.state[u] <==> p in CartOf(carts, u))
                  && (p in r.state[u] ==> r.state[u][p] == CartOf(carts, u)[p]))
  {
  }

  /** Posting the same request twice has the same effect, and the same answer,
      as posting it once: quantities are overwritten, never added up. */
  lemma PostIdempotent(products: ProductTable, carts: Carts, u: UserId,
                       pid: ProductIdField, qty: QuantityField)
    requires AllInCatalog(products, carts)
    ensures var once := Step(products, carts, PostItem(u, pid, qty));
            Step(products, once.state, PostItem(u, pid, qty)) == once
  {
    var once := Step(products, carts, PostItem(u, pid, qty));
    match ValidatePost(products, pid, qty)
    case Err(_) =>
    case Ok(v) =>
      var items := CartOf(carts, u);
      if v.quantity > 0 {
        var set1: Items := items[v.product := v.quantity];
        assert set1[v.product := v.quantity] == set1;
        assert carts[u := set1][u := set1] == carts[u := set1];
      } else {
        var gone: Items := items - {v.product};
        assert gone - {v.product} == gone;
        assert carts[u := gone][u := gone] == carts[u := gone];
      }
  }

  /** Last write wins: after a valid post for a product, an earlier post for
      the same product by the same user no longer matters. */
  lemma LastWriteWins(products: ProductTable, carts: Carts, u: UserId,
                      pid: ProductIdField, first: QuantityField, second: QuantityField)
    requires AllInCatalog(products, carts)
    requires ValidatePost(products, pid, second).Ok?
    ensures var mid := Step(products, carts, PostItem(u, pid, first)).state;
            Step(products, mid, PostItem(u, pid, second)) == Step(products, carts, PostItem(u, pid, second))
  {
    var v := ValidatePost(products, pid, second).value;
    var p := v.product;
    var items := CartOf(carts, u);
    match ValidatePost(products, pid, first)
    case Err(_) =>
    case Ok(w) =>
      assert w.product == p;
      var between := if w.quantity > 0 then items[p := w.quantity] else items - {p};
      if v.quantity > 0 {
        var after: Items := items[p := v.quantity];
        assert between[p := v.quantity] == after;
        assert carts[u := between][u := after] == carts[u := after];
      } else {
        var after: Items := items - {p};
        assert between - {p} == after;
        assert carts[u := between][u := after] == carts[u := after];
      }
  }

  /** Deleting a cart that exists empties it but keeps it; deleting again
      changes nothing and answers the same. */
  lemma ClearKeepsCartAndIsIdempotent(products: ProductTable, carts: Carts, u: UserId)
    requires AllInCatalog(products, carts)
    requires u in carts
    ensures var r := Step(products, carts, DeleteCart(u));
            && r.outcome == Cleared
            && u in r.state && r.state[u] == map[]
            && Step(products, r.state, DeleteCart(u)) == r
  {
    var empty: Items := map[];
    assert carts[u := empty][u := empty] == carts[u := empty];
  }

  /** Deleting when the user has no cart is reported and creates nothing. */
  lemma ClearWithoutCart(products: ProductTable, carts: Carts, u: UserId)
    requires AllInCatalog(products, carts)
    requires u !in carts
    ensures Step(products, carts, DeleteCart(u)) == Response(carts, Failed(CartNotFound))
  {
  }

  /** After a successful delete the cart shows no items and costs nothing. */
  lemma ClearedCartTotalsZero(products: ProductTable, carts: Carts, u: UserId)
    requires AllInCatalog(products, carts)
    requires u in carts
    ensures var cleared := Step(products, carts, DeleteCart(u)).state;
            Step(products, cleared, GetCart(u)).outcome == Contents(0, 0)
  {
  }

  /** Viewing the cart creates an empty cart if and only if there was none,
      and changes nothing else. */
  lemma GetCreatesOnlyWhenMissing(products: ProductTable, carts: Carts, u: UserId)
    requires AllInCatalog(products, carts)
    ensures var r := Step(products, carts, GetCart(u));
            && (u in carts ==> r.state == carts)
            && (u !in carts ==> r.state == carts[u := map[]])
  {
    if u in carts {
      assert carts[u := carts[u]] == carts;
    }
  }

  /** How a valid post moves the totals: the posted product's old line is
      replaced by the new one (or by nothing, for quantity zero). */
  lemma {:induction false} PostMovesTotals(products: ProductTable, items: Items, p: ProductId, q: nat)
    requires InCatalog(products, items) && p in products
    ensures TotalQuantity(items - {p}) + q == TotalQuantity(items[p := q])
    ensures TotalPrice(products, items - {p}) + LineTotal(products[p].price, q)
         == TotalPrice(products, items[p := q])
    ensures p in items ==>
              TotalQuantity(items) == TotalQuantity(items - {p}) + items[p]
    ensures p in items ==>
              TotalPrice(products, items) == TotalPrice(products, items - {p}) + LineTotal(products[p].price, items[p])
  {
    MapSumRemove(items[p := q], p);
    assert items[p := q] - {p} == items - {p};
    var lines := LineTotals(products, items[p := q]);
    MapSumRemove(lines, p);
    assert lines - {p} == LineTotals(products, items - {p});
    if p in items {
      MapSumRemove(items, p);
      var before := LineTotals(products, items);
      MapSumRemove(before, p);
      assert before - {p} == LineTotals(products, items - {p});
    }
  }

  /** Every line item the endpoint leaves behind has a positive quantity. */
  ghost predicate AllPositive(carts: Carts) {
    forall u, p | u in carts && p in carts[u] :: carts[u][p] > 0
  }

  /** The per-(cart, product) state machine only ever moves between "absent"
      and "present with a positive quantity", whatever the requests. */
  lemma {:induction false} RunKeepsQuantitiesPositive(products: ProductTable, carts: Carts, reqs: seq<Request>)
    requires AllInCatalog(products, carts)
    requires AllPositive(carts)
    ensures AllPositive(Run(products, carts, reqs))
    decreases |reqs|
  {
    if reqs != [] {
      RunKeepsQuantitiesPositive(products, Step(products, carts, reqs[0]).state, reqs[1..]);
    }
  }

  /** A user who sends none of the requests keeps their cart, or their lack of
      one, exactly as it was. */
  lemma {:induction false} RunLeavesOtherUsersAlone(products: ProductTable, carts: Carts,
                                                    reqs: seq<Request>, w: UserId)
    requires AllInCatalog(products, carts)
    requires forall i | 0 <= i < |reqs| :: reqs[i].user != w
    ensures w in Run(products, carts, reqs) <==> w in carts
    ensures w in carts ==> Run(products, carts, reqs)[w] == carts[w]
    decreases |reqs|
  {
    if reqs != [] {
      RunLeavesOtherUsersAlone(products, Step(products, carts, reqs[0]).state, reqs[1..], w);
    }
  }
}
