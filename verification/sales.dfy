/** A shop's sales total: the payment amounts of the delivered orders that
    contain at least one item of the shop. */
module Sales {
  import opened Model
  import opened Partition

  /** Some cart item of `o` is sold by shop `shopId`. */
  predicate References(o: Order, shopId: Id) {
    Occurs(o.cart, shopId)
  }

  /** The order is one the sales query selects for the shop. */
  predicate Counted(o: Order, shopId: Id) {
    o.status == Delivered && References(o, shopId)
  }

  /** The query: the orders selected for the shop (see SelectedCopies for how
      often each is selected). */
  function Selected(orders: seq<Order>, shopId: Id): (r: seq<Order>)
    ensures |r| <= |orders|
    ensures forall o :: o in r <==> o in orders && Counted(o, shopId)
  {
    if |orders| == 0 then []
    else (if Counted(orders[0], shopId) then [orders[0]] else []) + Selected(orders[1..], shopId)
  }

  /** Equal orders are separate documents, so the query selects each counted
      order as often as it is stored, and nothing else. */
  lemma {:induction false} SelectedCopies(orders: seq<Order>, shopId: Id)
    ensures forall o :: multiset(Selected(orders, shopId))[o] == if Counted(o, shopId) then multiset(orders)[o] else 0
    decreases |orders|
  {
    if |orders| > 0 {
      assert orders == [orders[0]] + orders[1..];
      SelectedCopies(orders[1..], shopId);
    }
  }

  /** The accumulation loop over the selected orders. */
  function SumAmounts(orders: seq<Order>): (r: real)
    ensures (forall k | 0 <= k < |orders| :: orders[k].paymentInfo.amount >= 0.0) ==> r >= 0.0
    decreases |orders|
  {
    if |orders| == 0 then 0.0 else orders[0].paymentInfo.amount + SumAmounts(orders[1..])
  }

  /** The shop's sales total: 0 when no delivered order contains the shop,
      and never negative when payment amounts are not. */
  function TotalSales(orders: seq<Order>, shopId: Id): (r: real)
    ensures (forall k | 0 <= k < |orders| :: !Counted(orders[k], shopId)) ==> r == 0.0
    ensures (forall k | 0 <= k < |orders| :: orders[k].paymentInfo.amount >= 0.0) ==> r >= 0.0
  {
    var selected := Selected(orders, shopId);
    assert (forall k | 0 <= k < |orders| :: !Counted(orders[k], shopId)) ==> selected == [] by {
      if |selected| > 0 {
        assert selected[0] in orders;
      }
    }
    assert (forall k | 0 <= k < |orders| :: orders[k].paymentInfo.amount >= 0.0) ==>
             (forall k | 0 <= k < |selected| :: selected[k].paymentInfo.amount >= 0.0) by {
      forall k | 0 <= k < |selected| ensures selected[k] in orders {
      }
    }
    SumAmounts(selected)
  }

  /** The amount one order adds to the shop's total. */
  function Share(o: Order, shopId: Id): real {
    if Counted(o, shopId) then o.paymentInfo.amount else 0.0
  }

  lemma {:induction false} SelectedAppend(a: seq<Order>, b: seq<Order>, shopId: Id)
    ensures Selected(a + b, shopId) == Selected(a, shopId) + Selected(b, shopId)
    decreases |a|
  {
    if |a| == 0 {
      assert a + b == b;
    } else {
      assert (a + b)[0] == a[0];
      assert (a + b)[1..] == a[1..] + b;
      SelectedAppend(a[1..], b, shopId);
    }
  }

  lemma {:induction false} SumAppend(a: seq<Order>, b: seq<Order>)
    ensures SumAmounts(a + b) == SumAmounts(a) + SumAmounts(b)
    decreases |a|
  {
    if |a| == 0 {
      assert a + b == b;
    } else {
      assert (a + b)[0] == a[0];
      assert (a + b)[1..] == a[1..] + b;
      SumAppend(a[1..], b);
    }
  }

  /** The total over two runs of orders is the sum of their totals. */
  lemma {:induction false} TotalSalesAppend(a: seq<Order>, b: seq<Order>, shopId: Id)
    ensures TotalSales(a + b, shopId) == TotalSales(a, shopId) + TotalSales(b, shopId)
  {
    SelectedAppend(a, b, shopId);
    SumAppend(Selected(a, shopId), Selected(b, shopId));
  }

  lemma {:induction false} TotalSalesSingle(o: Order, shopId: Id)
    ensures TotalSales([o], shopId) == Share(o, shopId)
  {
    assert [o][1..] == [];
    var sel := Selected([o], shopId);
    assert sel == (if Counted(o, shopId) then [o] else []);
    if Counted(o, shopId) {
      assert sel[1..] == [];
      assert SumAmounts(sel) == o.paymentInfo.amount + SumAmounts([]);
    }
  }

  /** Replacing one order changes the total by exactly the difference of the
      two orders' shares. */
  lemma {:induction false} TotalSalesReplace(orders: seq<Order>, i: nat, o: Order, shopId: Id)
    requires i < |orders|
    ensures TotalSales(orders[i := o], shopId)
         == TotalSales(orders, shopId) - Share(orders[i], shopId) + Share(o, shopId)
  {
    var pre := orders[..i];
    var post := orders[i + 1..];
    assert orders == pre + [orders[i]] + post;
    assert orders[i := o] == pre + [o] + post;
    TotalSalesAppend(pre + [orders[i]], post, shopId);
    TotalSalesAppend(pre, [orders[i]], shopId);
    TotalSalesAppend(pre + [o], post, shopId);
    TotalSalesAppend(pre, [o], shopId);
    TotalSalesSingle(orders[i], shopId);
    TotalSalesSingle(o, shopId);
  }
}
