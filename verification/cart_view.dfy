/** CartView: the GET, POST and DELETE handlers of the cart endpoint, written as
    the sequence of ORM calls each one makes, and the proof that their net
    effect on the carts is the CartSpec state machine. */
module CartView {
  import opened Catalog
  import opened CartSpec
  import opened CartModels

  /** GET: fetch or create the user's cart and report its totals. */
  function HandleGet(products: ProductTable, st: Store, u: UserId): (r: Response<Store>)
    requires Wf(products, st)
    ensures Wf(products, r.state)
    ensures r.state.carts == st.carts + {u} && r.state.rows == st.rows
    ensures InCatalog(products, ItemsOf(st.rows, u))
    ensures r.outcome == Contents(TotalQuantity(ItemsOf(st.rows, u)),
                                  TotalPrice(products, ItemsOf(st.rows, u)))
  {
    var cart := GetOrCreateCart(st, u);
    Response(cart, Contents(CartTotalQuantity(cart, u), CartTotalPrice(products, cart, u)))
  }

  /** POST: validate, then fetch or create the cart, fetch or create the line
      item (quantity 1 if new), then either store the quantity or delete the
      item again. */
  function HandlePost(products: ProductTable, st: Store, u: UserId,
                      pid: ProductIdField, qty: QuantityField): (r: Response<Store>)
    requires Wf(products, st)
    ensures Wf(products, r.state)
    ensures ValidatePost(products, pid, qty).Err? ==>
              r == Response(st, Failed(ValidatePost(products, pid, qty).failure))
    ensures ValidatePost(products, pid, qty).Ok? ==> r.state.carts == st.carts + {u}
    ensures r.outcome.Added? ==>
              ValidatePost(products, pid, qty).Ok? && ValidatePost(products, pid, qty).value.quantity > 0
  {
    match ValidatePost(products, pid, qty)
    case Err(f) => Response(st, Failed(f))
    case Ok(v) =>
      var cart := GetOrCreateCart(st, u);
      var item := GetOrCreateItem(cart, u, v.product);
      var name := products[v.product].name;
      if v.quantity > 0 then
        Response(SaveQuantity(item.store, item.index, v.quantity), Added(name))
      else
        Response(DeleteRow(item.store, item.index), Removed(name))
  }

  /** DELETE: a user without a cart gets "not found"; otherwise every item of
      the cart is deleted and the cart itself stays. */
  function HandleDelete(products: ProductTable, st: Store, u: UserId): (r: Response<Store>)
    requires Wf(products, st)
    ensures Wf(products, r.state)
    ensures r.state.carts == st.carts
    ensures u !in st.carts <==> r.outcome == Failed(CartNotFound)
    ensures u in st.carts ==> r.outcome == Cleared
    ensures forall x | x in r.state.rows :: x in st.rows
    ensures u in st.carts ==> forall x | x in r.state.rows :: x.owner != u
    ensures u in st.carts ==> forall x :: x in r.state.rows <==> x in st.rows && x.owner != u
    ensures u !in st.carts ==> r.state == st
  {
    if u !in st.carts then Response(st, Failed(CartNotFound))
    else
      Response(DeleteCartRows(st, u), Cleared)
  }

  /** One request, dispatched by method. */
  function Handle(products: ProductTable, st: Store, req: Request): (r: Response<Store>)
    requires Wf(products, st)
    ensures Wf(products, r.state)
  {
    match req
    case GetCart(u) => HandleGet(products, st, u)
    case PostItem(u, pid, qty) => HandlePost(products, st, u, pid, qty)
    case DeleteCart(u) => HandleDelete(products, st, u)
  }

  /** A sequence of requests against the store. The store invariant holds
      throughout: in particular there is never more than one item per
      (cart, product), and no item outlives its cart or product. */
  function RunStore(products: ProductTable, st: Store, reqs: seq<Request>): (r: Store)
    requires Wf(products, st)
    ensures Wf(products, r)
    ensures st.carts <= r.carts
    decreases |reqs|
  {
    if reqs == [] then st
    else RunStore(products, Handle(products, st, reqs[0]).state, reqs[1..])
  }

  // ---- Refinement ----

  /** The carts read back from a well-formed store only refer to existing products. */
  lemma AbstractInCatalog(products: ProductTable, st: Store)
    requires Wf(products, st)
    ensures AllInCatalog(products, Abstract(st))
  {
    forall u | u in st.carts ensures InCatalog(products, ItemsOf(st.rows, u)) {
      ItemsInCatalog(products, st.rows, u);
    }
  }

  /** A user without a cart has no rows. */
  lemma NoCartNoItems(products: ProductTable, st: Store, u: UserId)
    requires Wf(products, st)
    ensures CartOf(Abstract(st), u) == ItemsOf(st.rows, u)
  {
    if u !in st.carts {
      ItemsOfNoRows(st.rows, u);
    }
  }

  /** When only `u`'s rows and the set of carts change, only `u`'s entry does. */
  lemma AbstractUpdate(st: Store, st': Store, u: UserId, m: Items)
    requires st'.carts == st.carts + {u}
    requires ItemsOf(st'.rows, u) == m
    requires forall w | w != u :: ItemsOf(st'.rows, w) == ItemsOf(st.rows, w)
    ensures Abstract(st') == Abstract(st)[u := m]
  {
  }

  /** Storing quantity `q` on the located row of `u`'s line for `p` sets that
      line of `u`'s cart to `q` and leaves every other cart as in `st`. */
  lemma SaveRefines(st: Store, loc: Located, u: UserId, p: ProductId, q: nat)
    requires UniqueLines(loc.store.rows) && loc.index < |loc.store.rows|
    requires loc.store.rows[loc.index].owner == u && loc.store.rows[loc.index].product == p
    requires loc.store.carts == st.carts + {u}
    requires forall w | w != u :: ItemsOf(loc.store.rows, w) == ItemsOf(st.rows, w)
    ensures Abstract(SaveQuantity(loc.store, loc.index, q))
         == Abstract(st)[u := ItemsOf(loc.store.rows, u)[p := q]]
  {
    var after := SaveQuantity(loc.store, loc.index, q);
    forall w ensures ItemsOf(after.rows, w)
                  == if w == u then ItemsOf(loc.store.rows, u)[p := q] else ItemsOf(st.rows, w) {
      ItemsOfSave(loc.store.rows, loc.index, q, w);
    }
    AbstractUpdate(st, after, u, ItemsOf(loc.store.rows, u)[p := q]);
  }

  /** Deleting the located row of `u`'s line for `p` drops `p` from `u`'s cart
      and leaves every other cart as in `st`. */
  lemma DeleteRefines(st: Store, loc: Located, u: UserId, p: ProductId)
    requires UniqueLines(loc.store.rows) && loc.index < |loc.store.rows|
    requires loc.store.rows[loc.index].owner == u && loc.store.rows[loc.index].product == p
    requires loc.store.carts == st.carts + {u}
    requires forall w | w != u :: ItemsOf(loc.store.rows, w) == ItemsOf(st.rows, w)
    ensures Abstract(DeleteRow(loc.store, loc.index))
         == Abstract(st)[u := ItemsOf(loc.store.rows, u) - {p}]
  {
    var after := DeleteRow(loc.store, loc.index);
    forall w ensures ItemsOf(after.rows, w)
                  == if w == u then ItemsOf(loc.store.rows, u) - {p} else ItemsOf(st.rows, w) {
      ItemsOfDelete(loc.store.rows, loc.index, w);
    }
    AbstractUpdate(st, after, u, ItemsOf(loc.store.rows, u) - {p});
  }

  /** POST has the effect and the answer of the CartSpec step. */
  lemma PostRefinesStep(products: ProductTable, st: Store, u: UserId,
                        pid: ProductIdField, qty: QuantityField)
    requires Wf(products, st)
    ensures AllInCatalog(products, Abstract(st))
    ensures var spec := Step(products, Abstract(st), PostItem(u, pid, qty));
            var impl := HandlePost(products, st, u, pid, qty);
            Abstract(impl.state) == spec.state && impl.outcome == spec.outcome
  {
    AbstractInCatalog(products, st);
    NoCartNoItems(products, st, u);
    match ValidatePost(products, pid, qty)
    case Err(_) =>
    case Ok(v) =>
      var p := v.product;
      var items := ItemsOf(st.rows, u);
      var cart := GetOrCreateCart(st, u);
      var item := GetOrCreateItem(cart, u, p);
      if HasLine(st.rows, u, p) {
        assert item.store.rows == st.rows;
      } else {
        var newRow := ItemRow(u, p, DefaultQuantity);
        assert item.store.rows == st.rows + [newRow];
        assert p !in items;
        var withFresh: Items := items[p := DefaultQuantity];
        forall w ensures ItemsOf(item.store.rows, w) == if w == u then withFresh else ItemsOf(st.rows, w) {
          ItemsOfAppend(st.rows, newRow, w);
        }
        assert withFresh[p := v.quantity] == items[p := v.quantity];
        assert withFresh - {p} == items - {p};
      }
      if v.quantity > 0 {
        SaveRefines(st, item, u, p, v.quantity);
      } else {
        DeleteRefines(st, item, u, p);
      }
  }

  /** Every handler has exactly the effect, and gives exactly the answer, of
      the corresponding CartSpec step on the carts read back from the store. */
  lemma HandleRefinesStep(products: ProductTable, st: Store, req: Request)
    requires Wf(products, st)
    ensures AllInCatalog(products, Abstract(st))
    ensures var spec := Step(products, Abstract(st), req);
            var impl := Handle(products, st, req);
            Abstract(impl.state) == spec.state && impl.outcome == spec.outcome
  {
    AbstractInCatalog(products, st);
    NoCartNoItems(products, st, req.user);
    match req
    case GetCart(u) =>
      AbstractUpdate(st, HandleGet(products, st, u).state, u, ItemsOf(st.rows, u));
    case PostItem(u, pid, qty) =>
      PostRefinesStep(products, st, u, pid, qty);
    case DeleteCart(u) =>
      if u in st.carts {
        var impl := HandleDelete(products, st, u);
        forall w ensures ItemsOf(impl.state.rows, w) == if w == u then map[] else ItemsOf(st.rows, w) {
          ItemsOfOtherRows(st.rows, u, w);
        }
        AbstractUpdate(st, impl.state, u, map[]);
      }
  }

  /** Over any sequence of requests, the store ends in the carts CartSpec predicts. */
  lemma {:induction false} RunRefinesSpec(products: ProductTable, st: Store, reqs: seq<Request>)
    requires Wf(products, st)
    ensures AllInCatalog(products, Abstract(st))
    ensures Abstract(RunStore(products, st, reqs)) == Run(products, Abstract(st), reqs)
    decreases |reqs|
  {
    AbstractInCatalog(products, st);
    if reqs != [] {
      HandleRefinesStep(products, st, reqs[0]);
      RunRefinesSpec(products, Handle(products, st, reqs[0]).state, reqs[1..]);
    }
  }
}
