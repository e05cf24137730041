/** The Cart and CartItem tables as the cart endpoint sees them, the ORM calls
    it makes on them, and the cart's totals (Cart.get_total_quantity,
    Cart.get_total_price, CartItem.get_total_price). ItemsOf reads a user's
    rows back as the map CartSpec works with. */
module CartModels {
  import opened Sums
  import opened Catalog
  import opened CartSpec

  /** A CartItem row. A cart belongs to exactly one user and a user has at most
      one cart, so the row names its cart by the cart's owner. */
  datatype ItemRow = ItemRow(owner: UserId, product: ProductId, quantity: nat)

  /** The owners of the existing Cart rows, and the CartItem rows in table order. */
  datatype Store = Store(carts: set<UserId>, rows: seq<ItemRow>)

  datatype Option<T> = None | Some(value: T)

  /** Two rows are the same line item: same cart, same product. */
  predicate SameLine(a: ItemRow, b: ItemRow) {
    a.owner == b.owner && a.product == b.product
  }

  /** At most one row per (cart, product). The table itself does not enforce
      this; the endpoint has to. */
  ghost predicate UniqueLines(rows: seq<ItemRow>) {
    forall i, j | 0 <= i < j < |rows| :: !SameLine(rows[i], rows[j])
  }

  ghost predicate HasLine(rows: seq<ItemRow>, u: UserId, p: ProductId) {
    exists i | 0 <= i < |rows| :: rows[i].owner == u && rows[i].product == p
  }

  /** The store invariant: unique line items, and every row points to an
      existing cart and an existing product (the two foreign keys). */
  ghost predicate Wf(products: ProductTable, st: Store) {
    && UniqueLines(st.rows)
    && forall i | 0 <= i < |st.rows| :: st.rows[i].owner in st.carts && st.rows[i].product in products
  }

  /** Each of `u`'s rows is in `items` with the row's quantity. */
  ghost predicate QuantitiesAgree(rows: seq<ItemRow>, u: UserId, items: Items) {
    forall i | 0 <= i < |rows| && rows[i].owner == u ::
      rows[i].product in items && items[rows[i].product] == rows[i].quantity
  }

  /** The line items of `u`'s cart, as a map from product to quantity. */
  function ItemsOf(rows: seq<ItemRow>, u: UserId): (r: Items)
    ensures forall p :: p in r <==> HasLine(rows, u, p)
    ensures UniqueLines(rows) ==> QuantitiesAgree(rows, u, r)
    decreases |rows|
  {
    if rows == [] then map[]
    else
      var rest := ItemsOf(rows[1..], u);
      assert forall p :: HasLine(rows[1..], u, p) ==> HasLine(rows, u, p) by {
        forall p | HasLine(rows[1..], u, p) ensures HasLine(rows, u, p) {
          var i :| 0 <= i < |rows[1..]| && rows[1..][i].owner == u && rows[1..][i].product == p;
          assert rows[i + 1] == rows[1..][i];
        }
      }
      if rows[0].owner == u then rest[rows[0].product := rows[0].quantity] else rest
  }

  /** The carts a store holds, in the shape CartSpec works with. */
  function Abstract(st: Store): (r: Carts)
    ensures r.Keys == st.carts
  {
    map u | u in st.carts :: ItemsOf(st.rows, u)
  }

  /** cart.items.all(): the rows of `u`'s cart, in table order. */
  function CartRows(rows: seq<ItemRow>, u: UserId): (r: seq<ItemRow>)
    ensures forall x :: x in r <==> x in rows && x.owner == u
    decreases |rows|
  {
    if rows == [] then []
    else if rows[0].owner == u then [rows[0]] + CartRows(rows[1..], u)
    else CartRows(rows[1..], u)
  }

  /** The rows of every other cart. */
  function OtherRows(rows: seq<ItemRow>, u: UserId): (r: seq<ItemRow>)
    ensures forall x :: x in r <==> x in rows && x.owner != u
    decreases |rows|
  {
    if rows == [] then []
    else if rows[0].owner != u then [rows[0]] + OtherRows(rows[1..], u)
    else OtherRows(rows[1..], u)
  }

  /** Python's sum over the quantities of some rows. */
  function SumQuantities(items: seq<ItemRow>): nat
    decreases |items|
  {
    if items == [] then 0 else items[0].quantity + SumQuantities(items[1..])
  }

  /** Python's sum over the line totals of some rows; the price is read from
      the row's product. */
  function SumLineTotals(products: ProductTable, items: seq<ItemRow>): int
    requires forall x | x in items :: x.product in products
    decreases |items|
  {
    if items == [] then 0
    else LineTotal(products[items[0].product].price, items[0].quantity) + SumLineTotals(products, items[1..])
  }

  /** Cart.get_total_quantity: summing the cart's rows gives the sum of the
      quantities of its line items. */
  function CartTotalQuantity(st: Store, u: UserId): (r: nat)
    requires UniqueLines(st.rows)
    ensures r == TotalQuantity(ItemsOf(st.rows, u))
  {
    QuantitiesMatch(st.rows, u);
    SumQuantities(CartRows(st.rows, u))
  }

  /** Cart.get_total_price: summing the cart's line totals row by row gives
      the sum of price times quantity over its line items. */
  function CartTotalPrice(products: ProductTable, st: Store, u: UserId): (r: int)
    requires Wf(products, st)
    ensures InCatalog(products, ItemsOf(st.rows, u))
    ensures r == TotalPrice(products, ItemsOf(st.rows, u))
  {
    LineTotalsMatch(products, st.rows, u);
    SumLineTotals(products, CartRows(st.rows, u))
  }

  lemma UniqueTail(rows: seq<ItemRow>)
    requires rows != [] && UniqueLines(rows)
    ensures UniqueLines(rows[1..])
    ensures !HasLine(rows[1..], rows[0].owner, rows[0].product)
  {
  }

  /** Summing quantities row by row agrees with the map's sum. */
  lemma {:induction false} QuantitiesMatch(rows: seq<ItemRow>, u: UserId)
    requires UniqueLines(rows)
    ensures SumQuantities(CartRows(rows, u)) == TotalQuantity(ItemsOf(rows, u))
    decreases |rows|
  {
    if rows != [] {
      UniqueTail(rows);
      QuantitiesMatch(rows[1..], u);
      if rows[0].owner == u {
        var head := [rows[0]];
        assert (head + CartRows(rows[1..], u))[1..] == CartRows(rows[1..], u);
        MapSumInsert(ItemsOf(rows[1..], u), rows[0].product, rows[0].quantity);
      }
    }
  }

  /** A cart only refers to products some row refers to. */
  lemma ItemsInCatalog(products: ProductTable, rows: seq<ItemRow>, u: UserId)
    requires forall i | 0 <= i < |rows| :: rows[i].product in products
    ensures InCatalog(products, ItemsOf(rows, u))
  {
  }

  /** Summing line totals row by row agrees with the map's sum. */
  lemma {:induction false} LineTotalsMatch(products: ProductTable, rows: seq<ItemRow>, u: UserId)
    requires UniqueLines(rows)
    requires forall i | 0 <= i < |rows| :: rows[i].product in products
    ensures InCatalog(products, ItemsOf(rows, u))
    ensures SumLineTotals(products, CartRows(rows, u)) == TotalPrice(products, ItemsOf(rows, u))
    decreases |rows|
  {
    ItemsInCatalog(products, rows, u);
    if rows != [] {
      UniqueTail(rows);
      LineTotalsMatch(products, rows[1..], u);
      if rows[0].owner == u {
        var head := [rows[0]];
        assert (head + CartRows(rows[1..], u))[1..] == CartRows(rows[1..], u);
        var rest := ItemsOf(rows[1..], u);
        var p := rows[0].product;
        var q := rows[0].quantity;
        assert LineTotals(products, rest[p := q]) == LineTotals(products, rest)[p := LineTotal(products[p].price, q)];
        MapSumInsert(LineTotals(products, rest), p, LineTotal(products[p].price, q));
      }
    }
  }

  // ---- The ORM calls the cart endpoint makes ----

  /** Cart.objects.get_or_create(user=u), as far as the store is concerned. */
  function GetOrCreateCart(st: Store, u: UserId): (r: Store)
    ensures u in r.carts && st.carts <= r.carts
    ensures r.carts - {u} == st.carts - {u}
    ensures r.rows == st.rows
  {
    st.(carts := st.carts + {u})
  }

  /** The first row for (u, p), if any. */
  function FindLine(rows: seq<ItemRow>, u: UserId, p: ProductId): (r: Option<nat>)
    ensures r.Some? ==> r.value < |rows| && rows[r.value].owner == u && rows[r.value].product == p
    ensures r.None? <==> !HasLine(rows, u, p)
    decreases |rows|
  {
    if rows == [] then None
    else if rows[0].owner == u && rows[0].product == p then Some(0)
    else
      match FindLine(rows[1..], u, p)
      case None =>
        assert !HasLine(rows, u, p) by {
          forall i | 0 <= i < |rows| ensures !(rows[i].owner == u && rows[i].product == p) {
            if i > 0 { assert rows[i] == rows[1..][i - 1]; }
          }
        }
        None
      case Some(i) => Some(i + 1)
  }

  /** A store together with the index of one of its rows. */
  datatype Located = Located(store: Store, index: nat)

  /** CartItem.objects.get_or_create(cart=..., product=p): the existing row for
      (u, p), or a new row with the default quantity appended to the table. */
  function GetOrCreateItem(st: Store, u: UserId, p: ProductId): (r: Located)
    ensures r.index < |r.store.rows|
    ensures r.store.rows[r.index].owner == u && r.store.rows[r.index].product == p
    ensures r.store.carts == st.carts
    ensures HasLine(st.rows, u, p) ==> r.store.rows == st.rows
    ensures !HasLine(st.rows, u, p) ==>
              r.store.rows == st.rows + [ItemRow(u, p, DefaultQuantity)]
              && r.store.rows[r.index].quantity == DefaultQuantity
    ensures UniqueLines(st.rows) ==> UniqueLines(r.store.rows)
  {
    match FindLine(st.rows, u, p)
    case Some(i) => Located(st, i)
    case None =>
      UniqueAppend(st.rows, ItemRow(u, p, DefaultQuantity));
      Located(st.(rows := st.rows + [ItemRow(u, p, DefaultQuantity)]), |st.rows|)
  }

  /** cart_item.quantity = q; cart_item.save() */
  function SaveQuantity(st: Store, i: nat, q: nat): (r: Store)
    requires i < |st.rows|
    ensures r.carts == st.carts && |r.rows| == |st.rows|
    ensures r.rows[i].quantity == q && SameLine(r.rows[i], st.rows[i])
    ensures forall j | 0 <= j < |st.rows| && j != i :: r.rows[j] == st.rows[j]
    ensures UniqueLines(st.rows) ==> UniqueLines(r.rows)
  {
    st.(rows := st.rows[i := st.rows[i].(quantity := q)])
  }

  /** cart_item.delete() */
  function DeleteRow(st: Store, i: nat): (r: Store)
    requires i < |st.rows|
    ensures r.carts == st.carts && |r.rows| == |st.rows| - 1
    ensures forall j | 0 <= j < i :: r.rows[j] == st.rows[j]
    ensures forall j | i < j < |st.rows| :: r.rows[j - 1] == st.rows[j]
    ensures UniqueLines(st.rows) ==> UniqueLines(r.rows)
  {
    UniqueDelete(st.rows, i);
    st.(rows := st.rows[..i] + st.rows[i + 1..])
  }

  /** cart.items.all().delete() for `u`'s cart. */
  function DeleteCartRows(st: Store, u: UserId): (r: Store)
    ensures r.carts == st.carts
    ensures forall x :: x in r.rows <==> x in st.rows && x.owner != u
    ensures UniqueLines(st.rows) ==> UniqueLines(r.rows)
  {
    UniqueOtherRows(st.rows, u);
    st.(rows := OtherRows(st.rows, u))
  }

  /** A user with no rows has no line items. */
  lemma {:induction false} ItemsOfNoRows(rows: seq<ItemRow>, u: UserId)
    requires forall i | 0 <= i < |rows| :: rows[i].owner != u
    ensures ItemsOf(rows, u) == map[]
    decreases |rows|
  {
    if rows != [] {
      assert forall i | 0 <= i < |rows[1..]| :: rows[1..][i] == rows[i + 1];
      ItemsOfNoRows(rows[1..], u);
    }
  }

  // ---- Each call's effect on the carts read back from the rows ----

  lemma {:induction false} ItemsOfAppend(rows: seq<ItemRow>, x: ItemRow, w: UserId)
    requires !HasLine(rows, x.owner, x.product)
    ensures ItemsOf(rows + [x], w)
         == if x.owner == w then ItemsOf(rows, w)[x.product := x.quantity] else ItemsOf(rows, w)
    decreases |rows|
  {
    if rows == [] {
      assert [x][1..] == [];
    } else {
      assert (rows + [x])[1..] == rows[1..] + [x];
      assert !HasLine(rows[1..], x.owner, x.product) by {
        forall i | 0 <= i < |rows[1..]| ensures !(rows[1..][i].owner == x.owner && rows[1..][i].product == x.product) {
          assert rows[1..][i] == rows[i + 1];
        }
      }
      ItemsOfAppend(rows[1..], x, w);
      var h := rows[0];
      if h.owner == w && x.owner == w {
        assert h.product != x.product;
        var m := ItemsOf(rows[1..], w);
        var m1: Items := m[x.product := x.quantity];
        var m2: Items := m[h.product := h.quantity];
        assert m1[h.product := h.quantity] == m2[x.product := x.quantity];
      }
    }
  }

  lemma {:induction false} ItemsOfSave(rows: seq<ItemRow>, i: nat, q: nat, w: UserId)
    requires UniqueLines(rows) && i < |rows|
    ensures ItemsOf(rows[i := rows[i].(quantity := q)], w)
         == if rows[i].owner == w then ItemsOf(rows, w)[rows[i].product := q] else ItemsOf(rows, w)
    decreases |rows|
  {
    var rows' := rows[i := rows[i].(quantity := q)];
    UniqueTail(rows);
    if i == 0 {
      assert rows'[1..] == rows[1..];
      if rows[0].owner == w {
        var m: Items := ItemsOf(rows[1..], w)[rows[0].product := rows[0].quantity];
        assert m[rows[0].product := q] == ItemsOf(rows[1..], w)[rows[0].product := q];
      }
    } else {
      assert rows'[1..] == rows[1..][i - 1 := rows[i].(quantity := q)];
      ItemsOfSave(rows[1..], i - 1, q, w);
      var h := rows[0];
      var x := rows[i];
      assert x == rows[1..][i - 1];
      if h.owner == w && x.owner == w {
        assert !SameLine(rows[0], rows[i]);
        var m := ItemsOf(rows[1..], w);
        var m1: Items := m[x.product := q];
        var m2: Items := m[h.product := h.quantity];
        assert m1[h.product := h.quantity] == m2[x.product := q];
      }
    }
  }

  /** Deleting row i > 0 keeps the first row and deletes row i - 1 of the tail. */
  lemma DeleteShiftsTail(rows: seq<ItemRow>, i: nat)
    requires 0 < i < |rows|
    ensures |rows[..i] + rows[i + 1..]| == |rows| - 1
    ensures (rows[..i] + rows[i + 1..])[0] == rows[0]
    ensures (rows[..i] + rows[i + 1..])[1..] == rows[1..][..i - 1] + rows[1..][i..]
  {
  }

  lemma {:induction false} ItemsOfDelete(rows: seq<ItemRow>, i: nat, w: UserId)
    requires UniqueLines(rows) && i < |rows|
    ensures ItemsOf(rows[..i] + rows[i + 1..], w)
         == if rows[i].owner == w then ItemsOf(rows, w) - {rows[i].product} else ItemsOf(rows, w)
    decreases |rows|
  {
    UniqueTail(rows);
    if i == 0 {
      assert rows[..0] + rows[1..] == rows[1..];
      if rows[0].owner == w {
        var m := ItemsOf(rows[1..], w);
        assert rows[0].product !in m;
        assert m[rows[0].product := rows[0].quantity] - {rows[0].product} == m;
      }
    } else {
      var tail := rows[1..];
      DeleteShiftsTail(rows, i);
      ItemsOfDelete(tail, i - 1, w);
      var h := rows[0];
      var x := rows[i];
      assert x == tail[i - 1];
      if h.owner == w && x.owner == w {
        assert !SameLine(rows[0], rows[i]);
        var m := ItemsOf(tail, w);
        var m1: Items := m[h.product := h.quantity];
        var m2: Items := m - {x.product};
        assert m1 - {x.product} == m2[h.product := h.quantity];
      }
    }
  }

  lemma {:induction false} ItemsOfOtherRows(rows: seq<ItemRow>, u: UserId, w: UserId)
    ensures ItemsOf(OtherRows(rows, u), w) == if w == u then map[] else ItemsOf(rows, w)
    decreases |rows|
  {
    if rows != [] {
      ItemsOfOtherRows(rows[1..], u, w);
      if rows[0].owner != u {
        var head := [rows[0]];
        assert (head + OtherRows(rows[1..], u))[1..] == OtherRows(rows[1..], u);
      }
    }
  }

  // ---- The store invariant under each call ----

  lemma UniqueAppend(rows: seq<ItemRow>, x: ItemRow)
    requires !HasLine(rows, x.owner, x.product)
    ensures UniqueLines(rows) ==> UniqueLines(rows + [x])
  {
  }

  lemma UniqueDelete(rows: seq<ItemRow>, i: nat)
    requires i < |rows|
    ensures UniqueLines(rows) ==> UniqueLines(rows[..i] + rows[i + 1..])
  {
    if UniqueLines(rows) {
      var r := rows[..i] + rows[i + 1..];
      forall a, b | 0 <= a < b < |r| ensures !SameLine(r[a], r[b]) {
        var a' := if a < i then a else a + 1;
        var b' := if b < i then b else b + 1;
        assert r[a] == rows[a'] && r[b] == rows[b'];
      }
    }
  }

  lemma {:induction false} UniqueOtherRows(rows: seq<ItemRow>, u: UserId)
    ensures UniqueLines(rows) ==> UniqueLines(OtherRows(rows, u))
    decreases |rows|
  {
    if rows != [] && UniqueLines(rows) {
      UniqueTail(rows);
      UniqueOtherRows(rows[1..], u);
      if rows[0].owner != u {
        var t := OtherRows(rows[1..], u);
        var r := [rows[0]] + t;
        forall a, b | 0 <= a < b < |r| ensures !SameLine(r[a], r[b]) {
          assert r[b] == t[b - 1];
          if a == 0 {
            assert t[b - 1] in rows[1..];
          } else {
            assert r[a] == t[a - 1];
          }
        }
      }
    }
  }
}
