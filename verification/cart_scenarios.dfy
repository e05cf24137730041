/** Concrete request sequences from the endpoint's tests, and a product priced
    19.99 posted twice and then removed, run against the store-level handlers. */
module CartScenarios {
  import opened Catalog
  import opened CartSpec
  import opened CartModels
  import opened CartView

  /** A cart holding one item of quantity 2 reports a total quantity of 2 and a
      total price of twice the product's price. */
  lemma OneItemOfTwo(products: ProductTable, u: UserId, p: ProductId)
    requires p in products
    ensures var st := Store({u}, [ItemRow(u, p, 2)]);
            Wf(products, st)
            && HandleGet(products, st, u).outcome == Contents(2, 2 * products[p].price)
  {
    var st := Store({u}, [ItemRow(u, p, 2)]);
    OneRowTotals(products, st, u, p);
  }

  /** The totals of a cart whose only row is (u, p, 2). */
  lemma OneRowTotals(products: ProductTable, st: Store, u: UserId, p: ProductId)
    requires p in products && st.rows == [ItemRow(u, p, 2)] && u in st.carts
    ensures Wf(products, st)
    ensures HandleGet(products, st, u).outcome == Contents(2, 2 * products[p].price)
  {
    var line := [ItemRow(u, p, 2)];
    assert line[1..] == [];
    assert CartRows(line, u) == line;
    assert SumQuantities(line) == 2;
    assert SumLineTotals(products, line) == 2 * products[p].price;
  }

  /** Posting quantity 2 twice for a product priced 19.99 leaves one item of
      quantity 2 worth 39.98; posting quantity 0 then removes it and the cart's
      total quantity is 0. */
  lemma PostTwiceThenRemove(products: ProductTable, u: UserId, p: ProductId)
    requires p != 0 && p in products && products[p].price == 1999
    ensures var two := PostItem(u, ProductIdValue(p), QuantityInt(2));
            var zero := PostItem(u, ProductIdValue(p), QuantityInt(0));
            var empty := Store({}, []);
            var st := RunStore(products, empty, [two, two]);
            && st.rows == [ItemRow(u, p, 2)]
            && HandleGet(products, st, u).outcome == Contents(2, 3998)
            && Handle(products, st, zero).outcome == Removed(products[p].name)
            && HandleGet(products, Handle(products, st, zero).state, u).outcome == Contents(0, 0)
  {
    var two := PostItem(u, ProductIdValue(p), QuantityInt(2));
    var zero := PostItem(u, ProductIdValue(p), QuantityInt(0));
    var empty := Store({}, []);
    var once := Handle(products, empty, two).state;
    assert once == Store({u}, [ItemRow(u, p, 2)]);
    var twice := Handle(products, once, two).state;
    assert FindLine(once.rows, u, p) == Some(0);
    assert twice == once;
    assert RunStore(products, empty, [two, two]) == twice by {
      assert [two, two][1..] == [two];
      assert RunStore(products, once, [two]) == RunStore(products, twice, []);
    }
    OneRowTotals(products, twice, u, p);
    var removed := Handle(products, twice, zero).state;
    assert removed.rows == [];
  }

  /** Posting quantity 3 answers with the "added/updated" message for the product. */
  lemma PostAnswersAdded(products: ProductTable, u: UserId, p: ProductId)
    requires p != 0 && p in products
    ensures Handle(products, Store({}, []), PostItem(u, ProductIdValue(p), QuantityInt(3))).outcome
         == Added(products[p].name)
  {
  }

  /** Posting quantity 2 and then 0 answers the second post with the
      "removed" message for the product. */
  lemma PostThenZeroAnswersRemoved(products: ProductTable, u: UserId, p: ProductId)
    requires p != 0 && p in products
    ensures var st := Handle(products, Store({}, []), PostItem(u, ProductIdValue(p), QuantityInt(2))).state;
            Handle(products, st, PostItem(u, ProductIdValue(p), QuantityInt(0))).outcome == Removed(products[p].name)
  {
  }

  /** Deleting a cart that holds an item answers "cleared" and leaves the cart empty. */
  lemma DeleteAnswersCleared(products: ProductTable, u: UserId, p: ProductId)
    requires p in products
    ensures var st := Store({u}, [ItemRow(u, p, 2)]);
            && Wf(products, st)
            && Handle(products, st, DeleteCart(u)).outcome == Cleared
            && Handle(products, st, DeleteCart(u)).state == Store({u}, [])
  {
    var st := Store({u}, [ItemRow(u, p, 2)]);
    assert OtherRows(st.rows, u) == [];
  }
}
