/** The order handlers: checkout, the seller's status update, the buyer's
    refund request, the seller's refund approval and the shop-sales query. */
module Orders {
  import opened Model
  import opened Inventory
  import opened Partition
  import opened Sales

  const OrderNotFound := "Order not found with this id"
  const ProductNotFound := "Product not found"
  const ShopNotFound := "Shop not found"
  const RefundDone := "Order Refund successfull!"

  /** The body of a checkout request. */
  datatype OrderRequest = OrderRequest(
    cart: seq<CartItem>,
    shippingAddress: string,
    user: UserRef,
    totalPrice: real,
    paymentInfo: PaymentInfo)

  /** A freshly created order for `items`; every order of a checkout carries
      the request's header unchanged, including the whole cart's total. */
  function NewOrder(req: OrderRequest, items: seq<CartItem>): (o: Order)
    ensures o.cart == items && o.status == Processing && o.deliveredAt == None
  {
    Order(items, req.shippingAddress, req.user, req.totalPrice, req.paymentInfo, Processing, None)
  }

  /** One new order per group, in group order. */
  function NewOrders(req: OrderRequest, groups: seq<ShopGroup>): (r: seq<Order>)
    ensures |r| == |groups|
    ensures forall i | 0 <= i < |r| :: r[i] == NewOrder(req, groups[i].items)
    decreases |groups|
  {
    if |groups| == 0 then [] else [NewOrder(req, groups[0].items)] + NewOrders(req, groups[1..])
  }

  /** POST /create-order: split the cart by shop and create one order per
      shop, in the order the shops first appear in the cart. */
  function CreateOrder(st: Store, req: OrderRequest): (r: Reply<seq<Order>>)
    ensures r.result.Ok? && r.media == []
    ensures r.store == st.(orders := st.orders + r.result.value)
    ensures forall i | 0 <= i < |r.result.value| ::
      var o := r.result.value[i];
      && o.shippingAddress == req.shippingAddress && o.user == req.user
      && o.totalPrice == req.totalPrice && o.paymentInfo == req.paymentInfo
      && o.status == Processing && o.deliveredAt == None
  {
    var created := NewOrders(req, Group(req.cart));
    Reply(st.(orders := st.orders + created), Ok(created), [])
  }

  /** All cart items of `orders`, order after order. */
  function Carts(orders: seq<Order>): seq<CartItem> {
    if |orders| == 0 then [] else orders[0].cart + Carts(orders[1..])
  }

  lemma {:induction false} CartsOfNewOrders(req: OrderRequest, groups: seq<ShopGroup>)
    ensures Carts(NewOrders(req, groups)) == Flatten(groups)
    decreases |groups|
  {
    if |groups| > 0 {
      var r := NewOrders(req, groups);
      assert r[1..] == NewOrders(req, groups[1..]);
      CartsOfNewOrders(req, groups[1..]);
    }
  }

  lemma {:induction false} ItemsOfNonEmpty(cart: seq<CartItem>, s: Id)
    requires Occurs(cart, s)
    ensures |ItemsOf(cart, s)| > 0
    decreases |cart|
  {
    if cart[0].shopId != s {
      var j :| 0 <= j < |cart| && cart[j].shopId == s;
      assert cart[1..][j - 1] == cart[j];
      ItemsOfNonEmpty(cart[1..], s);
    }
  }

  /** Each order holds the items of one shop of the cart, exactly and in cart order. */
  ghost predicate OneShopEach(cart: seq<CartItem>, orders: seq<Order>) {
    forall i | 0 <= i < |orders| ::
      |orders[i].cart| > 0 && orders[i].cart == ItemsOf(cart, orders[i].cart[0].shopId)
  }

  /** No shop has two orders, and orders follow their shops' first appearance in the cart. */
  ghost predicate ShopsInFirstSeenOrder(cart: seq<CartItem>, orders: seq<Order>) {
    forall i, j | 0 <= i < j < |orders| && |orders[i].cart| > 0 && |orders[j].cart| > 0 ::
      && orders[i].cart[0].shopId != orders[j].cart[0].shopId
      && FirstIndex(cart, orders[i].cart[0].shopId) < FirstIndex(cart, orders[j].cart[0].shopId)
  }

  /** Every shop of the cart has an order. */
  ghost predicate EveryShopServed(cart: seq<CartItem>, orders: seq<Order>) {
    forall k | 0 <= k < |cart| :: exists i ::
      0 <= i < |orders| && |orders[i].cart| > 0 && orders[i].cart[0].shopId == cart[k].shopId
  }

  /** The checkout's orders relate to the groups one to one. */
  lemma {:induction false} CreatedFollowGroups(st: Store, req: OrderRequest, i: nat)
    requires i < |CreateOrder(st, req).result.value|
    ensures var created := CreateOrder(st, req).result.value;
      && i < |Group(req.cart)|
      && |created[i].cart| > 0
      && created[i].cart[0].shopId == Group(req.cart)[i].shopId
      && created[i].cart == ItemsOf(req.cart, Group(req.cart)[i].shopId)
  {
    var groups := Group(req.cart);
    GroupIsShopPartition(req.cart);
    assert ExactItems(req.cart, groups);
    ItemsOfNonEmpty(req.cart, groups[i].shopId);
  }

  /** The orders a checkout creates split the cart by shop: each order holds
      exactly one shop's items in cart order, no shop gets two orders, every
      shop of the cart gets one, orders follow the shops' first appearance, and
      together the orders hold exactly the cart's items. */
  lemma {:induction false} CreateOrderSplitsCart(st: Store, req: OrderRequest)
    ensures var created := CreateOrder(st, req).result.value;
      && OneShopEach(req.cart, created)
      && ShopsInFirstSeenOrder(req.cart, created)
      && EveryShopServed(req.cart, created)
      && multiset(Carts(created)) == multiset(req.cart)
  {
    var created := CreateOrder(st, req).result.value;
    CreatedOneShopEach(st, req);
    CreatedInFirstSeenOrder(st, req);
    CreatedServeEveryShop(st, req);
    GroupCoversCart(req.cart);
    CartsOfNewOrders(req, Group(req.cart));
  }

  lemma {:induction false} CreatedOneShopEach(st: Store, req: OrderRequest)
    ensures OneShopEach(req.cart, CreateOrder(st, req).result.value)
  {
    var created := CreateOrder(st, req).result.value;
    forall i | 0 <= i < |created|
      ensures |created[i].cart| > 0 && created[i].cart == ItemsOf(req.cart, created[i].cart[0].shopId)
    {
      CreatedFollowGroups(st, req, i);
    }
  }

  lemma {:induction false} CreatedInFirstSeenOrder(st: Store, req: OrderRequest)
    ensures ShopsInFirstSeenOrder(req.cart, CreateOrder(st, req).result.value)
  {
    var groups := Group(req.cart);
    var created := CreateOrder(st, req).result.value;
    GroupIsShopPartition(req.cart);
    assert DistinctShops(groups) && FirstSeenOrder(req.cart, groups);
    forall i, j | 0 <= i < j < |created| && |created[i].cart| > 0 && |created[j].cart| > 0
      ensures created[i].cart[0].shopId != created[j].cart[0].shopId
      ensures FirstIndex(req.cart, created[i].cart[0].shopId) < FirstIndex(req.cart, created[j].cart[0].shopId)
    {
      CreatedFollowGroups(st, req, i);
      CreatedFollowGroups(st, req, j);
    }
  }

  lemma {:induction false} CreatedServeEveryShop(st: Store, req: OrderRequest)
    ensures EveryShopServed(req.cart, CreateOrder(st, req).result.value)
  {
    var groups := Group(req.cart);
    var created := CreateOrder(st, req).result.value;
    GroupIsShopPartition(req.cart);
    assert CoversCart(req.cart, groups);
    forall k | 0 <= k < |req.cart|
      ensures exists i :: 0 <= i < |created| && |created[i].cart| > 0 && created[i].cart[0].shopId == req.cart[k].shopId
    {
      var i :| 0 <= i < |groups| && groups[i].shopId == req.cart[k].shopId;
      CreatedFollowGroups(st, req, i);
    }
  }

  /** A checkout never changes any shop's sales total: new orders are not yet delivered. */
  lemma {:induction false} CreateOrderKeepsSales(st: Store, req: OrderRequest, shopId: Id)
    ensures TotalSales(CreateOrder(st, req).store.orders, shopId) == TotalSales(st.orders, shopId)
  {
    var created := CreateOrder(st, req).result.value;
    TotalSalesAppend(st.orders, created, shopId);
  }

  /** A cart with one item from each of two shops becomes two orders, each
      still carrying the whole checkout's total price. */
  lemma {:induction false} CreateOrderTwoShops(st: Store, req: OrderRequest, a: CartItem, b: CartItem)
    requires req.cart == [a, b] && a.shopId != b.shopId
    ensures var created := CreateOrder(st, req).result.value;
      && |created| == 2
      && created[0].cart == [a] && created[1].cart == [b]
      && created[0].totalPrice == req.totalPrice && created[1].totalPrice == req.totalPrice
  {
    assert [a, b][..1] == [a];
    assert [a][..0] == [];
    assert Group([a]) == [ShopGroup(a.shopId, [a])];
    assert Find([ShopGroup(a.shopId, [a])], b.shopId) == 1;
  }

  /** PUT /update-order-status/:id (seller). On "Transferred to delivery
      partner" every cart item's quantity is moved from stock to sold_out
      first; on "Delivered" the order is stamped, its payment marked
      succeeded, and the calling seller's balance is set to the order total
      less the service charge. Any status string is accepted. */
  function UpdateOrderStatus(st: Store, id: Id, status: string, sellerId: Id, now: int): (r: Reply<Order>)
    ensures r.media == [] && r.store.nextProductId == st.nextProductId
    ensures r.store.products.Keys == st.products.Keys && r.store.shops.Keys == st.shops.Keys
    ensures |r.store.orders| == |st.orders|
    ensures forall j | 0 <= j < |st.orders| && j != id :: r.store.orders[j] == st.orders[j]
    ensures id >= |st.orders| ==> r == Reply(st, Err(Error(400, Message(OrderNotFound))), [])
    ensures r.result.Err? ==> r.store.orders == st.orders && r.store.shops == st.shops
    ensures r.result.Ok? ==>
      var o := r.result.value;
      && id < |st.orders| && r.store.orders == st.orders[id := o]
      && o.status == status && o.cart == st.orders[id].cart && o.user == st.orders[id].user
      && o.shippingAddress == st.orders[id].shippingAddress && o.totalPrice == st.orders[id].totalPrice
      && o.paymentInfo.amount == st.orders[id].paymentInfo.amount
    ensures status != TransferredToDelivery ==> r.store.products == st.products
    ensures status != Delivered ==> r.store.shops == st.shops
    ensures id < |st.orders| && status != Delivered && r.result.Ok? ==>
      r.result.value == st.orders[id].(status := status)
    ensures id < |st.orders| && status != TransferredToDelivery && status != Delivered ==> r.result.Ok?
    ensures id < |st.orders| && status == Delivered ==>
      && (r.result.Ok? <==> sellerId in st.shops)
      && (r.result.Err? ==> r == Reply(st, Err(Error(500, NullAccess)), []))
      && (r.result.Ok? ==>
            && r.result.value == st.orders[id].(status := status, deliveredAt := Some(now),
                                   paymentInfo := st.orders[id].paymentInfo.(status := PaymentSucceeded))
            && r.store.shops == st.shops[sellerId := st.shops[sellerId].(
                 availableBalance := st.orders[id].totalPrice * (1.0 - ServiceChargeRate))])
  {
    if id >= |st.orders| then Reply(st, Err(Error(400, Message(OrderNotFound))), [])
    else
      var order := st.orders[id];
      var shipped := if status == TransferredToDelivery then Move(st.products, order.cart, Ship) else Run(st.products, None);
      var saved := st.(products := shipped.products);
      if shipped.failedAt.Some? then Reply(saved, Err(Error(500, Message(ProductNotFound))), [])
      else if status == Delivered then
        if sellerId !in st.shops then Reply(saved, Err(Error(500, NullAccess)), [])
        else
          var serviceCharge := order.totalPrice * ServiceChargeRate;
          var updated := order.(status := status, deliveredAt := Some(now),
                                paymentInfo := order.paymentInfo.(status := PaymentSucceeded));
          var seller := st.shops[sellerId];
          Reply(saved.(orders := st.orders[id := updated],
                       shops := st.shops[sellerId := seller.(availableBalance := order.totalPrice - serviceCharge)]),
                Ok(updated), [])
      else
        var updated := order.(status := status);
        Reply(saved.(orders := st.orders[id := updated]), Ok(updated), [])
  }

  /** Handing an order to delivery ships its whole cart when every product
      exists; otherwise it fails at the first missing product, keeping the
      stock already moved for the items before it and leaving the order as it was. */
  lemma {:induction false} TransferShipsCart(st: Store, id: Id, sellerId: Id, now: int)
    requires id < |st.orders|
    ensures var cart := st.orders[id].cart;
      var r := UpdateOrderStatus(st, id, TransferredToDelivery, sellerId, now);
      && (r.result.Ok? <==> AllPresent(st.products, cart))
      && (r.result.Ok? ==> r.store.products == Net(st.products, cart, Ship))
      && (r.result.Err? ==>
            && r.result.error == Error(500, Message(ProductNotFound))
            && exists k :: 0 <= k < |cart| && cart[k].productId !in st.products
                 && AllPresent(st.products, cart[..k])
                 && r.store.products == Net(st.products, cart[..k], Ship))
  {
    var cart := st.orders[id].cart;
    MoveMatchesNet(st.products, cart, Ship);
    var run := Move(st.products, cart, Ship);
    if run.failedAt.Some? {
      var k := run.failedAt.value;
      assert cart[k].productId !in st.products;
    }
  }

  /** Handing the same order to delivery twice ships its cart twice: nothing
      records that the stock was already moved. */
  lemma {:induction false} TransferTwiceShipsTwice(st: Store, id: Id, sellerId: Id, now: int, pid: Id)
    requires id < |st.orders| && pid in st.products
    requires AllPresent(st.products, st.orders[id].cart)
    ensures var once := UpdateOrderStatus(st, id, TransferredToDelivery, sellerId, now);
      var twice := UpdateOrderStatus(once.store, id, TransferredToDelivery, sellerId, now);
      && twice.result.Ok?
      && twice.store.products[pid].stock == st.products[pid].stock - 2 * TotalQty(st.orders[id].cart, pid)
      && twice.store.products[pid].soldOut == st.products[pid].soldOut + 2 * TotalQty(st.orders[id].cart, pid)
  {
    var cart := st.orders[id].cart;
    TransferShipsCart(st, id, sellerId, now);
    var once := UpdateOrderStatus(st, id, TransferredToDelivery, sellerId, now);
    assert once.store.orders[id].cart == cart;
    ShipTwiceMovesTwice(st.products, cart, pid);
    MoveMatchesNet(st.products, cart, Ship);
    MoveMatchesNet(once.store.products, cart, Ship);
  }

  /** The seller's balance is overwritten, not credited: after two deliveries
      it reflects only the second order, whatever it held before. */
  lemma {:induction false} DeliveryOverwritesBalance(st: Store, a: Id, b: Id, sellerId: Id, t1: int, t2: int)
    requires a < |st.orders| && b < |st.orders| && sellerId in st.shops
    ensures var first := UpdateOrderStatus(st, a, Delivered, sellerId, t1);
      var second := UpdateOrderStatus(first.store, b, Delivered, sellerId, t2);
      && second.result.Ok?
      && second.store.shops[sellerId].availableBalance == st.orders[b].totalPrice * (1.0 - ServiceChargeRate)
  {
    var first := UpdateOrderStatus(st, a, Delivered, sellerId, t1);
    assert first.store.orders[b].totalPrice == st.orders[b].totalPrice;
  }

  /** Delivering an order adds its payment amount to the sales of every shop
      it contains (unless it was already delivered), whichever seller made
      the call; no other shop's total moves. */
  lemma {:induction false} DeliveryCountsTowardSales(st: Store, id: Id, sellerId: Id, now: int, shopId: Id)
    requires id < |st.orders| && sellerId in st.shops
    ensures TotalSales(UpdateOrderStatus(st, id, Delivered, sellerId, now).store.orders, shopId)
         == TotalSales(st.orders, shopId) - Share(st.orders[id], shopId)
            + (if References(st.orders[id], shopId) then st.orders[id].paymentInfo.amount else 0.0)
  {
    var r := UpdateOrderStatus(st, id, Delivered, sellerId, now);
    TotalSalesReplace(st.orders, id, r.result.value, shopId);
    assert References(r.result.value, shopId) == References(st.orders[id], shopId);
  }

  /** PUT /order-refund/:id (buyer): stores the requested status as given. */
  function RequestRefund(st: Store, id: Id, status: string): (r: Reply<Order>)
    ensures r.media == []
    ensures id >= |st.orders| ==> r == Reply(st, Err(Error(400, Message(OrderNotFound))), [])
    ensures id < |st.orders| ==>
      && r.result.Ok? && r.result.value.status == status
      && r.store == st.(orders := st.orders[id := r.result.value])
      && r.result.value.(status := st.orders[id].status) == st.orders[id]
  {
    if id >= |st.orders| then Reply(st, Err(Error(400, Message(OrderNotFound))), [])
    else
      var updated := st.orders[id].(status := status);
      Reply(st.(orders := st.orders[id := updated]), Ok(updated), [])
  }

  /** Because the buyer's route stores any status, a buyer who sends
      "Delivered" makes the order count toward every shop it contains. */
  lemma {:induction false} RefundRequestSalesEffect(st: Store, id: Id, status: string, shopId: Id)
    requires id < |st.orders|
    ensures TotalSales(RequestRefund(st, id, status).store.orders, shopId)
         == TotalSales(st.orders, shopId) - Share(st.orders[id], shopId)
            + (if status == Delivered && References(st.orders[id], shopId) then st.orders[id].paymentInfo.amount else 0.0)
  {
    var r := RequestRefund(st, id, status);
    TotalSalesReplace(st.orders, id, r.result.value, shopId);
    assert References(r.result.value, shopId) == References(st.orders[id], shopId);
  }

  /** PUT /order-refund-success/:id (seller): stores the status and replies;
      on "Refund Success" each cart item's quantity is then moved back from
      sold_out to stock. A missing product ends the restock silently after the
      reply has gone out. */
  function ApproveRefund(st: Store, id: Id, status: string): (r: Reply<string>)
    ensures r.media == [] && r.store.nextProductId == st.nextProductId && r.store.shops == st.shops
    ensures r.store.products.Keys == st.products.Keys
    ensures id >= |st.orders| ==> r == Reply(st, Err(Error(400, Message(OrderNotFound))), [])
    ensures id < |st.orders| ==>
      && r.result == Ok(RefundDone)
      && r.store.orders == st.orders[id := st.orders[id].(status := status)]
    ensures status != RefundSuccess ==> r.store.products == st.products
  {
    if id >= |st.orders| then Reply(st, Err(Error(400, Message(OrderNotFound))), [])
    else
      var order := st.orders[id];
      var saved := st.(orders := st.orders[id := order.(status := status)]);
      if status == RefundSuccess then
        Reply(saved.(products := Move(st.products, order.cart, Restock).products), Ok(RefundDone), [])
      else Reply(saved, Ok(RefundDone), [])
  }

  /** An approved refund restocks the whole cart when every product exists;
      otherwise exactly the items before the first missing product. */
  lemma {:induction false} RefundRestocksCart(st: Store, id: Id)
    requires id < |st.orders|
    ensures var cart := st.orders[id].cart;
      var r := ApproveRefund(st, id, RefundSuccess);
      && (AllPresent(st.products, cart) ==> r.store.products == Net(st.products, cart, Restock))
      && (!AllPresent(st.products, cart) ==>
            exists k :: 0 <= k < |cart| && cart[k].productId !in st.products
              && AllPresent(st.products, cart[..k])
              && r.store.products == Net(st.products, cart[..k], Restock))
  {
    var cart := st.orders[id].cart;
    MoveMatchesNet(st.products, cart, Restock);
    var run := Move(st.products, cart, Restock);
    if run.failedAt.Some? {
      var k := run.failedAt.value;
      assert cart[k].productId !in st.products;
    }
  }

  /** Approving a refund after a successful hand-over to delivery puts every
      product back exactly as it was. */
  lemma {:induction false} RefundUndoesTransfer(st: Store, id: Id, sellerId: Id, now: int)
    requires id < |st.orders|
    requires UpdateOrderStatus(st, id, TransferredToDelivery, sellerId, now).result.Ok?
    ensures var mid := UpdateOrderStatus(st, id, TransferredToDelivery, sellerId, now).store;
      var r := ApproveRefund(mid, id, RefundSuccess);
      && r.result == Ok(RefundDone)
      && r.store.products == st.products
      && r.store.orders[id].status == RefundSuccess
  {
    var cart := st.orders[id].cart;
    TransferShipsCart(st, id, sellerId, now);
    var mid := UpdateOrderStatus(st, id, TransferredToDelivery, sellerId, now).store;
    assert mid.orders[id].cart == cart;
    MoveMatchesNet(st.products, cart, Ship);
    RestockUndoesShip(st.products, cart);
  }

  /** GET /calculate-shop-sales/:shopId: the shop's name and sales total. */
  function ShopSales(st: Store, shopId: Id): (r: Result<(string, real)>)
    ensures r.Err? <==> shopId !in st.shops
    ensures r.Err? ==> r.error == Error(404, Message(ShopNotFound))
    ensures r.Ok? ==> r.value.0 == st.shops[shopId].name && r.value.1 == TotalSales(st.orders, shopId)
  {
    if shopId !in st.shops then Err(Error(404, Message(ShopNotFound)))
    else Ok((st.shops[shopId].name, TotalSales(st.orders, shopId)))
  }
}
