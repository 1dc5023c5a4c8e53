/** Stock bookkeeping as the order and import handlers do it, one product
    document at a time: the checkout loop that checks, prices and decrements
    each requested item, and the release and import loops that add
    quantities back. */
module Stock {
  import opened Common
  import opened ProductModel
  import opened OrderModel
  import opened Text

  type Products = map<Id, Product>

  /** An import order as stored: its supplier and the `{ product, quantity }`
      pairs it delivers. */
  datatype ImportOrder = ImportOrder(supplier: Id, items: seq<Item>)

  /** What the checkout loop leaves behind: the product documents as saved,
      the order lines built so far, and the error it stopped with, if any. */
  datatype Reservation = Reservation(products: Products, lines: seq<LineItem>, failure: Option<Error>)

  /** One pass of the checkout loop: a missing product answers 404, too
      little stock 400, and either leaves everything as it was; otherwise
      the line records the price read now and the product's stock falls by
      the quantity. */
  function ReserveItem(products: Products, lines: seq<LineItem>, item: Item): (r: Reservation)
    ensures r.products.Keys == products.Keys
    ensures r.failure.Some? ==> && r.products == products && r.lines == lines
                                && (item.product !in products ==> r.failure.value == NotFound)
                                && (item.product in products ==>
                                      r.failure.value == BadRequest(OutOfStock)
                                      && products[item.product].stock < item.quantity)
    ensures r.failure.None? ==>
      && item.product in products && item.quantity <= products[item.product].stock
      && r.lines == lines + [LineItem(item.product, item.quantity, products[item.product].price)]
      && r.products == products[item.product := products[item.product].(stock := products[item.product].stock - item.quantity)]
  {
    if item.product !in products then Reservation(products, lines, Some(NotFound))
    else
      var p := products[item.product];
      if p.stock < item.quantity then Reservation(products, lines, Some(BadRequest(OutOfStock)))
      else Reservation(products[item.product := p.(stock := p.stock - item.quantity)],
                       lines + [LineItem(item.product, item.quantity, p.price)], None)
  }

  /** The checkout loop over `items`: it stops at the first failing item and
      keeps every decrement saved before it.  It has handled one line per
      item up to the failure, and all of them when it did not fail. */
  function Reserve(products: Products, items: seq<Item>): (r: Reservation)
    ensures r.products.Keys == products.Keys
    ensures |r.lines| <= |items|
    ensures r.failure.None? ==> |r.lines| == |items|
  {
    if items == [] then Reservation(products, [], None)
    else
      var prev := Reserve(products, items[..|items| - 1]);
      if prev.failure.Some? then prev
      else ReserveItem(prev.products, prev.lines, items[|items| - 1])
  }

  /** The total quantity `items` lists for product `pid`. */
  function QuantityOf(items: seq<Item>, pid: Id): int {
    if items == [] then 0
    else QuantityOf(items[..|items| - 1], pid)
         + (if items[|items| - 1].product == pid then items[|items| - 1].quantity else 0)
  }

  /** The `{ product, quantity }` pairs of saved order lines. */
  function Requested(lines: seq<LineItem>): (items: seq<Item>)
    ensures |items| == |lines|
    ensures forall i :: 0 <= i < |lines| ==> items[i] == Item(lines[i].product, lines[i].quantity)
  {
    seq(|lines|, i requires 0 <= i < |lines| => Item(lines[i].product, lines[i].quantity))
  }

  /** One `$inc` of a product's stock; an id with no product changes
      nothing. */
  function RestockItem(products: Products, item: Item): (r: Products)
    ensures r.Keys == products.Keys
  {
    if item.product in products
    then products[item.product := products[item.product].(stock := products[item.product].stock + item.quantity)]
    else products
  }

  /** The release and import loops: each listed quantity is added to its
      product's stock, in order, skipping ids with no product. */
  function Restock(products: Products, items: seq<Item>): (r: Products)
    ensures r.Keys == products.Keys
  {
    if items == [] then products
    else RestockItem(Restock(products, items[..|items| - 1]), items[|items| - 1])
  }

  /** One more pass of the checkout loop after a prefix that went through. */
  lemma ReserveStep(products: Products, items: seq<Item>, i: nat)
    requires i < |items| && Reserve(products, items[..i]).failure.None?
    ensures var prev := Reserve(products, items[..i]);
            Reserve(products, items[..i + 1]) == ReserveItem(prev.products, prev.lines, items[i])
  {
    assert items[..i + 1][..i] == items[..i];
  }

  /** A pass that fails after a prefix that went through decides the whole
      checkout. */
  lemma ReserveStopsAt(products: Products, items: seq<Item>, i: nat)
    requires i < |items| && Reserve(products, items[..i]).failure.None?
    requires var prev := Reserve(products, items[..i]);
             ReserveItem(prev.products, prev.lines, items[i]).failure.Some?
    ensures var prev := Reserve(products, items[..i]);
            Reserve(products, items) == ReserveItem(prev.products, prev.lines, items[i])
  {
    ReserveStep(products, items, i);
    ReserveFailureFinal(products, items[..i + 1], items[i + 1..]);
    assert items[..i + 1] + items[i + 1..] == items;
  }

  /** The pass of the checkout loop for item `i` when it goes through,
      spelled out on the state the loop holds. */
  lemma ReserveAdvance(products: Products, items: seq<Item>, i: nat, current: Products, lines: seq<LineItem>)
    requires i < |items| && Reserve(products, items[..i]) == Reservation(current, lines, None)
    requires items[i].product in current && items[i].quantity <= current[items[i].product].stock
    ensures var p := current[items[i].product];
            Reserve(products, items[..i + 1])
            == Reservation(current[items[i].product := p.(stock := p.stock - items[i].quantity)],
                           lines + [LineItem(items[i].product, items[i].quantity, p.price)], None)
  {
    ReserveStep(products, items, i);
  }

  /** The pass of the checkout loop for item `i` when it fails, spelled out
      on the state the loop holds: the checkout ends there. */
  lemma ReserveHalts(products: Products, items: seq<Item>, i: nat, current: Products, lines: seq<LineItem>)
    requires i < |items| && Reserve(products, items[..i]) == Reservation(current, lines, None)
    requires items[i].product !in current || current[items[i].product].stock < items[i].quantity
    ensures Reserve(products, items)
            == Reservation(current, lines,
                           Some(if items[i].product !in current then NotFound else BadRequest(OutOfStock)))
  {
    ReserveStopsAt(products, items, i);
  }

  /** One more pass of a release or import loop. */
  lemma RestockStep(products: Products, items: seq<Item>, k: nat)
    requires k < |items|
    ensures Restock(products, items[..k + 1]) == RestockItem(Restock(products, items[..k]), items[k])
  {
    assert items[..k + 1][..k] == items[..k];
  }

  /** Quantities add up over concatenated lists. */
  lemma {:induction false} QuantityOfAppend(a: seq<Item>, b: seq<Item>, pid: Id)
    ensures QuantityOf(a + b, pid) == QuantityOf(a, pid) + QuantityOf(b, pid)
  {
    if b != [] {
      assert (a + b)[..|a + b| - 1] == a + b[..|b| - 1];
      QuantityOfAppend(a, b[..|b| - 1], pid);
    } else {
      assert a + b == a;
    }
  }

  /** With no negative quantities, no product's total is negative. */
  lemma {:induction false} QuantityOfNonNegative(items: seq<Item>, pid: Id)
    requires forall i :: 0 <= i < |items| ==> items[i].quantity >= 0
    ensures QuantityOf(items, pid) >= 0
  {
    if items != [] {
      QuantityOfNonNegative(items[..|items| - 1], pid);
    }
  }

  /** Restocking adds each product's listed total to its stock and changes
      nothing else about any product. */
  lemma {:induction false} RestockAccounting(products: Products, items: seq<Item>)
    ensures forall pid :: pid in products ==>
      Restock(products, items)[pid] == products[pid].(stock := products[pid].stock + QuantityOf(items, pid))
  {
    if items != [] {
      RestockAccounting(products, items[..|items| - 1]);
    }
  }

  /** With no negative quantities, restocking never lowers a stock, so it
      keeps every product saveable. */
  lemma RestockKeepsProductsValid(products: Products, items: seq<Item>)
    requires forall i :: 0 <= i < |items| ==> items[i].quantity >= 0
    requires forall pid :: pid in products ==> ValidProduct(products[pid])
    ensures forall pid :: pid in products ==>
      Restock(products, items)[pid].stock >= products[pid].stock && ValidProduct(Restock(products, items)[pid])
  {
    RestockAccounting(products, items);
    forall pid | pid in products
      ensures Restock(products, items)[pid].stock >= products[pid].stock
      ensures ValidProduct(Restock(products, items)[pid])
    {
      QuantityOfNonNegative(items, pid);
      var p := products[pid];
      assert Restock(products, items)[pid] == p.(stock := p.stock + QuantityOf(items, pid));
    }
  }

  /** A checkout that went through lowered each product's stock by exactly
      the total quantity ordered for it, and changed nothing else about any
      product. */
  lemma {:induction false} ReserveStockAccounting(products: Products, items: seq<Item>)
    requires Reserve(products, items).failure.None?
    ensures forall pid :: pid in products ==>
      Reserve(products, items).products[pid] == products[pid].(stock := products[pid].stock - QuantityOf(items, pid))
  {
    if items != [] {
      var init := items[..|items| - 1];
      ReserveStockAccounting(products, init);
      var prev := Reserve(products, init);
      assert Reserve(products, items) == ReserveItem(prev.products, prev.lines, items[|items| - 1]);
    }
  }

  /** A checkout that went through took every item: each line records its
      item with the product's price as it was read. */
  lemma {:induction false} ReserveLines(products: Products, items: seq<Item>)
    requires Reserve(products, items).failure.None?
    ensures forall i :: 0 <= i < |items| ==>
      && items[i].product in products
      && Reserve(products, items).lines[i] == LineItem(items[i].product, items[i].quantity, products[items[i].product].price)
  {
    if items != [] {
      var init, x := items[..|items| - 1], items[|items| - 1];
      ReserveLines(products, init);
      ReserveStockAccounting(products, init);
      var prev := Reserve(products, init);
      var r := Reserve(products, items);
      assert r == ReserveItem(prev.products, prev.lines, x);
      forall i | 0 <= i < |init|
        ensures items[i].product in products
        ensures r.lines[i] == LineItem(items[i].product, items[i].quantity, products[items[i].product].price)
      {
        assert items[i] == init[i] && r.lines[i] == prev.lines[i];
      }
    }
  }

  /** A checkout that failed stopped at the first item it could not take:
      the items before it all went through, with their decrements kept, and
      the failing item changed nothing. */
  lemma {:induction false} ReserveFailsAtFirstBadItem(products: Products, items: seq<Item>)
    requires Reserve(products, items).failure.Some?
    ensures var r := Reserve(products, items);
            var n := |r.lines|;
            && n < |items|
            && Reserve(products, items[..n]).failure.None?
            && r == ReserveItem(Reserve(products, items[..n]).products, Reserve(products, items[..n]).lines, items[n])
  {
    var init, x := items[..|items| - 1], items[|items| - 1];
    var prev := Reserve(products, init);
    if prev.failure.Some? {
      ReserveFailsAtFirstBadItem(products, init);
      var n := |prev.lines|;
      assert items[..n] == init[..n];
    } else {
      assert items[..|init|] == init;
    }
  }

  /** Checkout never takes a stock below 0: the stock check comes before the
      decrement (a negative quantity raises the stock instead). */
  lemma {:induction false} ReserveKeepsStockNonNegative(products: Products, items: seq<Item>)
    requires forall pid :: pid in products ==> products[pid].stock >= 0
    ensures forall pid :: pid in Reserve(products, items).products ==> Reserve(products, items).products[pid].stock >= 0
  {
    if items != [] {
      var init, x := items[..|items| - 1], items[|items| - 1];
      ReserveKeepsStockNonNegative(products, init);
      var prev := Reserve(products, init);
      if prev.failure.None? {
        var r := ReserveItem(prev.products, prev.lines, x);
        assert Reserve(products, items) == r;
        if r.failure.None? {
          forall pid | pid in r.products ensures r.products[pid].stock >= 0 {
            assert pid in prev.products && prev.products[pid].stock >= 0;
            if pid == x.product {
              assert x.quantity <= prev.products[pid].stock;
              assert r.products[pid].stock == prev.products[pid].stock - x.quantity;
            } else {
              assert r.products[pid] == prev.products[pid];
            }
          }
        }
      }
    }
  }

  /** The lines of a checkout list exactly the items it handled. */
  lemma ReserveLinesRequested(products: Products, items: seq<Item>)
    ensures var r := Reserve(products, items);
            Requested(r.lines) == items[..|r.lines|]
  {
    var r := Reserve(products, items);
    if r.failure.None? {
      ReserveLines(products, items);
    } else {
      ReserveFailsAtFirstBadItem(products, items);
      var n := |r.lines|;
      ReserveLines(products, items[..n]);
    }
  }

  /** Once the checkout loop has failed, later items change nothing: a
      failure is final. */
  lemma {:induction false} ReserveFailureFinal(products: Products, items: seq<Item>, more: seq<Item>)
    requires Reserve(products, items).failure.Some?
    ensures Reserve(products, items + more) == Reserve(products, items)
  {
    if more != [] {
      assert (items + more)[..|items + more| - 1] == items + more[..|more| - 1];
      ReserveFailureFinal(products, items, more[..|more| - 1]);
    } else {
      assert items + more == items;
    }
  }

  /** The whole list fits: every product exists and no product is asked for
      more in total than it holds. */
  predicate Fits(products: Products, items: seq<Item>) {
    && (forall i :: 0 <= i < |items| ==> items[i].product in products)
    && (forall pid :: pid in products ==> QuantityOf(items, pid) <= products[pid].stock)
  }

  /** Adding one more item to a list that does not fit does not make it fit
      when the item's quantity is not negative. */
  lemma FitsShrinks(products: Products, init: seq<Item>, x: Item)
    requires x.quantity >= 0
    requires Fits(products, init + [x])
    ensures Fits(products, init)
  {
    var items := init + [x];
    assert items[..|items| - 1] == init;
    forall i | 0 <= i < |init| ensures init[i].product in products {
      assert init[i] == items[i];
    }
  }

  /** With no negative quantities, checkout succeeds exactly when the whole
      list fits: checking item by item against the shrinking stock decides
      the same as checking the totals. */
  lemma {:induction false} ReserveSucceedsIffFits(products: Products, items: seq<Item>)
    requires forall pid :: pid in products ==> products[pid].stock >= 0
    requires forall i :: 0 <= i < |items| ==> items[i].quantity >= 0
    ensures Reserve(products, items).failure.None? <==> Fits(products, items)
  {
    if items != [] {
      var init, x := items[..|items| - 1], items[|items| - 1];
      assert items == init + [x];
      ReserveSucceedsIffFits(products, init);
      var prev := Reserve(products, init);
      if prev.failure.Some? {
        if Fits(products, items) {
          FitsShrinks(products, init, x);
        }
      } else {
        ReserveStockAccounting(products, init);
        if x.product !in products {
          assert items[|items| - 1] == x;
        } else {
          assert QuantityOf(items, x.product) == QuantityOf(init, x.product) + x.quantity;
        }
        if Fits(products, init) && x.product in products
           && QuantityOf(items, x.product) <= products[x.product].stock {
          forall pid | pid in products ensures QuantityOf(items, pid) <= products[pid].stock {
            if pid != x.product {
              assert QuantityOf(items, pid) == QuantityOf(init, pid);
            }
          }
          assert items[|items| - 1] == x;
        }
      }
    }
  }

  /** Releasing what a successful checkout took gives back the products as
      they were before it. */
  lemma ReserveThenRestockRestores(products: Products, items: seq<Item>)
    requires Reserve(products, items).failure.None?
    ensures var r := Reserve(products, items);
            Restock(r.products, Requested(r.lines)) == products
  {
    var r := Reserve(products, items);
    ReserveStockAccounting(products, items);
    ReserveLinesRequested(products, items);
    assert items[..|items|] == items;
    assert Requested(r.lines) == items;
    var after := Restock(r.products, items);
    RestockAccounting(r.products, items);
    forall pid | pid in products ensures after[pid] == products[pid] {
      assert r.products[pid] == products[pid].(stock := products[pid].stock - QuantityOf(items, pid));
    }
  }

  /** A product used by the examples below. */
  const Gel: Product := Product("Gel", "Styling gel", 120, DefaultImage, Styling, 3, true)

  /** An import that lists a negative quantity takes the stock below 0: the
      increment runs without the schema's checks, and the import-order
      schema sets no lower bound on quantities. */
  lemma NegativeImportDrivesStockBelowZero()
    ensures ValidProduct(Gel)
    ensures Restock(map[0 := Gel], [Item(0, -5)])[0].stock == -2
    ensures !ValidProduct(Restock(map[0 := Gel], [Item(0, -5)])[0])
  {
  }

  /** The same product twice in one order: the second item is checked
      against the stock the first one left, and when it does not fit the
      first decrement stays saved. */
  lemma RepeatedProductSeesReducedStock()
    ensures var r := Reserve(map[0 := Gel], [Item(0, 2), Item(0, 2)]);
            && r.failure == Some(BadRequest(OutOfStock))
            && r.products[0].stock == 1
            && r.lines == [LineItem(0, 2, 120)]
  {
    var items := [Item(0, 2), Item(0, 2)];
    assert items[..1] == [Item(0, 2)];
    assert [Item(0, 2)][..0] == [];
    var first := Reserve(map[0 := Gel], [Item(0, 2)]);
    assert Reserve(map[0 := Gel], []) == Reservation(map[0 := Gel], [], None);
    assert first == ReserveItem(map[0 := Gel], [], Item(0, 2));
    assert map[0 := Gel][0 := Gel.(stock := 1)] == map[0 := Gel.(stock := 1)];
    assert first == Reservation(map[0 := Gel.(stock := 1)], [LineItem(0, 2, 120)], None);
    assert Reserve(map[0 := Gel], items) == ReserveItem(first.products, first.lines, Item(0, 2));
  }

  /** A negative quantity passes the stock check and raises the stock. */
  lemma NegativeQuantityRaisesStock()
    ensures var r := Reserve(map[0 := Gel], [Item(0, -2)]);
            && r.failure.None?
            && r.products[0].stock == 5
            && r.lines == [LineItem(0, -2, 120)]
  {
    assert [Item(0, -2)][..0] == [];
  }
}
