/** The inventory ledger: moving ordered quantities between a product's
    `stock` and `sold_out` counters, one cart item at a time, as the
    order-status and refund handlers do. */
module Inventory {
  import opened Model

  /** Shipping takes units out of stock; a refund puts them back. */
  datatype Direction = Ship | Restock

  function Signed(d: Direction, q: int): int {
    if d == Ship then q else -q
  }

  /** `p` with `q` units moved from stock to sold_out (a negative `q` moves them back). */
  function Shift(p: Product, q: int): Product {
    p.(stock := p.stock - q, soldOut := p.soldOut + q)
  }

  /** Total quantity of product `pid` over `items`. */
  function TotalQty(items: seq<CartItem>, pid: Id): int {
    if |items| == 0 then 0
    else (if items[0].productId == pid then items[0].qty else 0) + TotalQty(items[1..], pid)
  }

  /** Reference definition of the ledger effect of a whole cart: every product
      moved by the total quantity the cart holds of it. */
  function Net(products: map<Id, Product>, items: seq<CartItem>, d: Direction): map<Id, Product> {
    map k | k in products :: Shift(products[k], Signed(d, TotalQty(items, k)))
  }

  /** Where the per-item loop stopped: the products as saved so far, and the
      index of the first item whose product could not be loaded. */
  datatype Run = Run(products: map<Id, Product>, failedAt: Option<nat>)

  /** The per-item loop: load each item's product, shift it by the item's
      quantity and save it before moving on. A missing product stops the loop;
      products saved for earlier items stay saved. */
  function Move(products: map<Id, Product>, items: seq<CartItem>, d: Direction): (r: Run)
    ensures r.products.Keys == products.Keys
    ensures r.failedAt.Some? ==> r.failedAt.value < |items|
    decreases |items|
  {
    if |items| == 0 then Run(products, None)
    else if items[0].productId !in products then Run(products, Some(0))
    else
      var pid := items[0].productId;
      var rest := Move(products[pid := Shift(products[pid], Signed(d, items[0].qty))], items[1..], d);
      Run(rest.products, if rest.failedAt.Some? then Some(rest.failedAt.value + 1) else None)
  }

  /** Every product of `items` is in the store. */
  ghost predicate AllPresent(products: map<Id, Product>, items: seq<CartItem>) {
    forall j | 0 <= j < |items| :: items[j].productId in products
  }

  lemma {:induction false} NetEmpty(products: map<Id, Product>, items: seq<CartItem>, d: Direction)
    requires |items| == 0
    ensures Net(products, items, d) == products
  {
    assert forall k | k in products :: Shift(products[k], 0) == products[k];
  }

  lemma {:induction false} NetStep(products: map<Id, Product>, x: CartItem, tail: seq<CartItem>, d: Direction)
    requires x.productId in products
    ensures Net(products[x.productId := Shift(products[x.productId], Signed(d, x.qty))], tail, d)
         == Net(products, [x] + tail, d)
  {
    var items := [x] + tail;
    assert items[0] == x && items[1..] == tail;
    forall k | k in products
      ensures TotalQty(items, k) == (if x.productId == k then x.qty else 0) + TotalQty(tail, k)
    {
    }
  }

  /** The loop agrees with the reference definition: when every product is
      present the cart's whole effect is applied; otherwise the loop stops at
      the first missing product with exactly the items before it applied. */
  lemma {:induction false} MoveMatchesNet(products: map<Id, Product>, items: seq<CartItem>, d: Direction)
    ensures Move(products, items, d).failedAt.None? <==> AllPresent(products, items)
    ensures Move(products, items, d).failedAt.None? ==> Move(products, items, d).products == Net(products, items, d)
    ensures Move(products, items, d).failedAt.Some? ==>
      var k := Move(products, items, d).failedAt.value;
      && k < |items|
      && items[k].productId !in products
      && AllPresent(products, items[..k])
      && Move(products, items, d).products == Net(products, items[..k], d)
    decreases |items|
  {
    var r := Move(products, items, d);
    if |items| == 0 {
      NetEmpty(products, items, d);
    } else if items[0].productId !in products {
      NetEmpty(products, items[..0], d);
    } else {
      var pid := items[0].productId;
      var next := products[pid := Shift(products[pid], Signed(d, items[0].qty))];
      assert next.Keys == products.Keys;
      MoveMatchesNet(next, items[1..], d);
      var rest := Move(next, items[1..], d);
      if rest.failedAt.None? {
        NetStep(products, items[0], items[1..], d);
        assert [items[0]] + items[1..] == items;
        assert AllPresent(products, items) by {
          forall j | 0 <= j < |items| ensures items[j].productId in products {
            if j > 0 { assert items[j] == items[1..][j - 1]; }
          }
        }
      } else {
        var k := rest.failedAt.value;
        NetStep(products, items[0], items[1..][..k], d);
        assert [items[0]] + items[1..][..k] == items[..k + 1];
        assert items[k + 1] == items[1..][k];
        assert !AllPresent(products, items);
        var prefix := items[..k + 1];
        assert AllPresent(products, prefix) by {
          forall j | 0 <= j < |prefix| ensures prefix[j].productId in products {
            if j > 0 { assert prefix[j] == items[1..][..k][j - 1]; }
          }
        }
      }
    }
  }

  /** `stock + sold_out` is the same before and after any run of the loop, and
      a product no cart item refers to is left exactly as it was. */
  lemma {:induction false} MoveConservesUnits(products: map<Id, Product>, items: seq<CartItem>, d: Direction, k: Id)
    requires k in products
    ensures Move(products, items, d).products[k].stock + Move(products, items, d).products[k].soldOut
         == products[k].stock + products[k].soldOut
    ensures (forall j | 0 <= j < |items| :: items[j].productId != k) ==>
              Move(products, items, d).products[k] == products[k]
  {
    MoveMatchesNet(products, items, d);
    var r := Move(products, items, d);
    if (forall j | 0 <= j < |items| :: items[j].productId != k) {
      if r.failedAt.Some? {
        TotalQtyAbsent(items[..r.failedAt.value], k);
      } else {
        TotalQtyAbsent(items, k);
      }
    }
  }

  lemma {:induction false} TotalQtyAbsent(items: seq<CartItem>, k: Id)
    requires forall j | 0 <= j < |items| :: items[j].productId != k
    ensures TotalQty(items, k) == 0
    decreases |items|
  {
    if |items| > 0 {
      assert forall j | 0 <= j < |items[1..]| :: items[1..][j] == items[j + 1];
      TotalQtyAbsent(items[1..], k);
    }
  }

  /** A refund over the same cart exactly undoes a completed shipment. */
  lemma {:induction false} RestockUndoesShip(products: map<Id, Product>, items: seq<CartItem>)
    requires AllPresent(products, items)
    ensures Move(Move(products, items, Ship).products, items, Restock) == Run(products, None)
  {
    MoveMatchesNet(products, items, Ship);
    var shipped := Move(products, items, Ship).products;
    assert shipped == Net(products, items, Ship);
    assert AllPresent(shipped, items);
    MoveMatchesNet(shipped, items, Restock);
    var back := Move(shipped, items, Restock).products;
    assert back == Net(shipped, items, Restock);
    forall k | k in products ensures back[k] == products[k] {
      assert shipped[k] == Shift(products[k], TotalQty(items, k));
    }
    assert back.Keys == products.Keys;
  }

  /** Shipping is not idempotent: shipping the same cart twice moves every
      product by twice the cart's quantity. */
  lemma {:induction false} ShipTwiceMovesTwice(products: map<Id, Product>, items: seq<CartItem>, k: Id)
    requires AllPresent(products, items)
    requires k in products
    ensures Move(Move(products, items, Ship).products, items, Ship).products[k].stock
         == products[k].stock - 2 * TotalQty(items, k)
    ensures Move(Move(products, items, Ship).products, items, Ship).products[k].soldOut
         == products[k].soldOut + 2 * TotalQty(items, k)
  {
    MoveMatchesNet(products, items, Ship);
    MoveMatchesNet(Move(products, items, Ship).products, items, Ship);
  }
}
