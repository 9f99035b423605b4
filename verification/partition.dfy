/** Splitting a checkout cart into one group of items per shop, as order
    creation does with an insertion-ordered map from shop id to items. */
module Partition {
  import opened Model

  /** One entry of the shop-to-items map. */
  datatype ShopGroup = ShopGroup(shopId: Id, items: seq<CartItem>)

  /** The items of `cart` sold by shop `s`, in cart order. */
  function ItemsOf(cart: seq<CartItem>, s: Id): (r: seq<CartItem>)
    ensures |r| <= |cart|
    ensures forall k | 0 <= k < |r| :: r[k].shopId == s
  {
    if |cart| == 0 then []
    else (if cart[0].shopId == s then [cart[0]] else []) + ItemsOf(cart[1..], s)
  }

  /** Some item of `cart` is sold by shop `s`. */
  predicate Occurs(cart: seq<CartItem>, s: Id) {
    exists j :: 0 <= j < |cart| && cart[j].shopId == s
  }

  /** Position of the first item of shop `s`, or `|cart|` when there is none. */
  function FirstIndex(cart: seq<CartItem>, s: Id): (i: nat)
    ensures i <= |cart|
    ensures i < |cart| <==> Occurs(cart, s)
    ensures i < |cart| ==> cart[i].shopId == s
  {
    if |cart| == 0 then 0
    else if cart[0].shopId == s then 0
    else
      assert forall j | 1 <= j < |cart| :: cart[j] == cart[1..][j - 1];
      1 + FirstIndex(cart[1..], s)
  }

  /** Position of the entry for shop `s` in `groups`, or `|groups|` when there is none. */
  function Find(groups: seq<ShopGroup>, s: Id): (i: nat)
    ensures i <= |groups|
    ensures i < |groups| ==> groups[i].shopId == s
    ensures forall j | 0 <= j < i :: groups[j].shopId != s
  {
    if |groups| == 0 then 0
    else if groups[0].shopId == s then 0
    else 1 + Find(groups[1..], s)
  }

  /** One step of the grouping loop: append `item` to its shop's entry,
      creating the entry at the end of the map the first time its shop is seen. */
  function AddItem(groups: seq<ShopGroup>, item: CartItem): (r: seq<ShopGroup>)
    ensures |r| == |groups| || |r| == |groups| + 1
  {
    var i := Find(groups, item.shopId);
    if i < |groups| then groups[i := groups[i].(items := groups[i].items + [item])]
    else groups + [ShopGroup(item.shopId, [item])]
  }

  /** The grouping loop run over the whole cart, item by item. */
  function Group(cart: seq<CartItem>): (r: seq<ShopGroup>)
    ensures |r| <= |cart|
    ensures |cart| > 0 ==> |r| > 0
    decreases |cart|
  {
    if |cart| == 0 then [] else AddItem(Group(cart[..|cart| - 1]), cart[|cart| - 1])
  }

  /** No shop has two entries. */
  ghost predicate DistinctShops(groups: seq<ShopGroup>) {
    forall i, j | 0 <= i < j < |groups| :: groups[i].shopId != groups[j].shopId
  }

  /** Every cart item's shop has an entry. */
  ghost predicate CoversCart(cart: seq<CartItem>, groups: seq<ShopGroup>) {
    forall j | 0 <= j < |cart| :: exists i :: 0 <= i < |groups| && groups[i].shopId == cart[j].shopId
  }

  /** Each entry belongs to a shop of the cart and holds exactly that shop's items, in cart order. */
  ghost predicate ExactItems(cart: seq<CartItem>, groups: seq<ShopGroup>) {
    forall i | 0 <= i < |groups| :: groups[i].items == ItemsOf(cart, groups[i].shopId) && Occurs(cart, groups[i].shopId)
  }

  /** Entries are ordered by the position of their shop's first item in the cart. */
  ghost predicate FirstSeenOrder(cart: seq<CartItem>, groups: seq<ShopGroup>) {
    forall i, j | 0 <= i < j < |groups| :: FirstIndex(cart, groups[i].shopId) < FirstIndex(cart, groups[j].shopId)
  }

  /** What the grouping is meant to produce: one entry per distinct shop of the
      cart, entries in order of each shop's first appearance, and each entry
      holding exactly that shop's items in cart order. */
  ghost predicate IsShopPartition(cart: seq<CartItem>, groups: seq<ShopGroup>) {
    && DistinctShops(groups)
    && CoversCart(cart, groups)
    && ExactItems(cart, groups)
    && FirstSeenOrder(cart, groups)
  }

  lemma {:induction false} ItemsOfSnoc(cart: seq<CartItem>, x: CartItem, s: Id)
    ensures ItemsOf(cart + [x], s) == ItemsOf(cart, s) + (if x.shopId == s then [x] else [])
    decreases |cart|
  {
    if |cart| == 0 {
      assert ([] + [x])[1..] == [];
    } else {
      assert (cart + [x])[1..] == cart[1..] + [x];
      ItemsOfSnoc(cart[1..], x, s);
    }
  }

  lemma {:induction false} ItemsOfAbsent(cart: seq<CartItem>, s: Id)
    requires !Occurs(cart, s)
    ensures ItemsOf(cart, s) == []
    decreases |cart|
  {
    if |cart| > 0 {
      assert !Occurs(cart[1..], s) by {
        forall j | 0 <= j < |cart[1..]| ensures cart[1..][j].shopId != s {
          assert cart[1..][j] == cart[j + 1];
        }
      }
      ItemsOfAbsent(cart[1..], s);
    }
  }

  lemma {:induction false} FirstIndexSnoc(cart: seq<CartItem>, x: CartItem, s: Id)
    ensures Occurs(cart, s) ==> FirstIndex(cart + [x], s) == FirstIndex(cart, s)
    ensures !Occurs(cart, s) && x.shopId == s ==> FirstIndex(cart + [x], s) == |cart|
  {
    var c := cart + [x];
    var i := FirstIndex(cart, s);
    var i' := FirstIndex(c, s);
    assert forall j | 0 <= j < |cart| :: c[j] == cart[j];
    if Occurs(cart, s) {
      assert c[i].shopId == s;
      if i' < i {
        assert cart[i'].shopId == s;
        FirstIndexIsFirst(cart, s, i');
      }
      if i < i' {
        FirstIndexIsFirst(c, s, i);
      }
    } else if x.shopId == s {
      assert c[|cart|].shopId == s;
      assert Occurs(c, s);
    }
  }

  /** No item before `FirstIndex` belongs to the shop. */
  lemma {:induction false} FirstIndexIsFirst(cart: seq<CartItem>, s: Id, j: nat)
    requires j < FirstIndex(cart, s)
    ensures j < |cart| && cart[j].shopId != s
    decreases |cart|
  {
    if j > 0 {
      FirstIndexIsFirst(cart[1..], s, j - 1);
    }
  }

  lemma {:induction false} OccursSnoc(c: seq<CartItem>, x: CartItem, s: Id)
    ensures Occurs(c + [x], s) <==> Occurs(c, s) || x.shopId == s
  {
    var cart := c + [x];
    assert forall j | 0 <= j < |c| :: cart[j] == c[j];
    assert cart[|c|] == x;
  }

  lemma {:induction false} CoversSnoc(c: seq<CartItem>, g: seq<ShopGroup>, x: CartItem, g': seq<ShopGroup>)
    requires CoversCart(c, g)
    requires |g| <= |g'|
    requires forall k | 0 <= k < |g| :: g'[k].shopId == g[k].shopId
    requires exists k :: 0 <= k < |g'| && g'[k].shopId == x.shopId
    ensures CoversCart(c + [x], g')
  {
    var cart := c + [x];
    forall j | 0 <= j < |cart|
      ensures exists k :: 0 <= k < |g'| && g'[k].shopId == cart[j].shopId
    {
      if j < |c| {
        assert cart[j] == c[j];
        var k :| 0 <= k < |g| && g[k].shopId == c[j].shopId;
        assert g'[k].shopId == g[k].shopId;
      } else {
        assert cart[j] == x;
      }
    }
  }

  /** Adding an item of a shop already in the map keeps the partition. */
  lemma {:induction false} AddItemExisting(c: seq<CartItem>, g: seq<ShopGroup>, x: CartItem)
    requires IsShopPartition(c, g)
    requires Find(g, x.shopId) < |g|
    ensures IsShopPartition(c + [x], AddItem(g, x))
  {
    var i := Find(g, x.shopId);
    var g' := AddItem(g, x);
    assert g' == g[i := g[i].(items := g[i].items + [x])];
    assert forall k | 0 <= k < |g| :: g'[k].shopId == g[k].shopId;
    CoversSnoc(c, g, x, g');
    ExistingItemsAndOrder(c, g, x);
  }

  lemma {:induction false} ExistingItemsAndOrder(c: seq<CartItem>, g: seq<ShopGroup>, x: CartItem)
    requires IsShopPartition(c, g)
    requires Find(g, x.shopId) < |g|
    ensures ExactItems(c + [x], AddItem(g, x))
    ensures FirstSeenOrder(c + [x], AddItem(g, x))
  {
    var cart := c + [x];
    var i := Find(g, x.shopId);
    var g' := AddItem(g, x);
    assert g' == g[i := g[i].(items := g[i].items + [x])];
    forall k | 0 <= k < |g'|
      ensures g'[k].items == ItemsOf(cart, g'[k].shopId) && Occurs(cart, g'[k].shopId)
      ensures FirstIndex(cart, g'[k].shopId) == FirstIndex(c, g[k].shopId)
    {
      var s := g[k].shopId;
      ItemsOfSnoc(c, x, s);
      OccursSnoc(c, x, s);
      FirstIndexSnoc(c, x, s);
      if k != i {
        assert g'[k] == g[k];
      }
    }
  }

  /** Adding an item of a shop not yet in the map appends a new last entry and keeps the partition. */
  lemma {:induction false} AddItemNew(c: seq<CartItem>, g: seq<ShopGroup>, x: CartItem)
    requires IsShopPartition(c, g)
    requires Find(g, x.shopId) == |g|
    ensures IsShopPartition(c + [x], AddItem(g, x))
  {
    var g' := AddItem(g, x);
    assert g' == g + [ShopGroup(x.shopId, [x])];
    assert forall k | 0 <= k < |g| :: g'[k] == g[k];
    assert g'[|g|].shopId == x.shopId;
    NewShopIsAbsent(c, g, x);
    assert DistinctShops(g');
    CoversSnoc(c, g, x, g');
    NewItemsAndOrder(c, g, x);
  }

  lemma {:induction false} NewShopIsAbsent(c: seq<CartItem>, g: seq<ShopGroup>, x: CartItem)
    requires CoversCart(c, g)
    requires Find(g, x.shopId) == |g|
    ensures !Occurs(c, x.shopId)
  {
    forall j | 0 <= j < |c| ensures c[j].shopId != x.shopId {
      var k :| 0 <= k < |g| && g[k].shopId == c[j].shopId;
    }
  }

  lemma {:induction false} NewItemsAndOrder(c: seq<CartItem>, g: seq<ShopGroup>, x: CartItem)
    requires IsShopPartition(c, g)
    requires Find(g, x.shopId) == |g|
    ensures ExactItems(c + [x], AddItem(g, x))
    ensures FirstSeenOrder(c + [x], AddItem(g, x))
  {
    var cart := c + [x];
    var g' := AddItem(g, x);
    assert g' == g + [ShopGroup(x.shopId, [x])];
    NewShopIsAbsent(c, g, x);
    forall k | 0 <= k < |g|
      ensures g'[k].items == ItemsOf(cart, g'[k].shopId) && Occurs(cart, g'[k].shopId)
      ensures FirstIndex(cart, g'[k].shopId) == FirstIndex(c, g[k].shopId) < |c|
    {
      var s := g[k].shopId;
      assert g'[k] == g[k];
      ItemsOfSnoc(c, x, s);
      OccursSnoc(c, x, s);
      FirstIndexSnoc(c, x, s);
    }
    ItemsOfSnoc(c, x, x.shopId);
    ItemsOfAbsent(c, x.shopId);
    OccursSnoc(c, x, x.shopId);
    FirstIndexSnoc(c, x, x.shopId);
  }

  /** The grouping loop produces exactly the shop partition of the cart. */
  lemma {:induction false} GroupIsShopPartition(cart: seq<CartItem>)
    ensures IsShopPartition(cart, Group(cart))
    decreases |cart|
  {
    if |cart| > 0 {
      var c := cart[..|cart| - 1];
      var x := cart[|cart| - 1];
      assert cart == c + [x];
      GroupIsShopPartition(c);
      if Find(Group(c), x.shopId) < |Group(c)| {
        AddItemExisting(c, Group(c), x);
      } else {
        AddItemNew(c, Group(c), x);
      }
    }
  }

  /** All items of the groups, entry after entry. */
  function Flatten(groups: seq<ShopGroup>): seq<CartItem> {
    if |groups| == 0 then [] else groups[0].items + Flatten(groups[1..])
  }

  lemma {:induction false} FlattenAddItem(groups: seq<ShopGroup>, x: CartItem)
    ensures multiset(Flatten(AddItem(groups, x))) == multiset(Flatten(groups)) + multiset{x}
    decreases |groups|
  {
    if |groups| == 0 {
      assert AddItem(groups, x) == [ShopGroup(x.shopId, [x])];
      assert Flatten(AddItem(groups, x)) == [x] + Flatten([]);
    } else if groups[0].shopId == x.shopId {
      var g' := AddItem(groups, x);
      assert g'[1..] == groups[1..];
    } else {
      var g' := AddItem(groups, x);
      assert Find(groups, x.shopId) == 1 + Find(groups[1..], x.shopId);
      assert g'[0] == groups[0];
      assert g'[1..] == AddItem(groups[1..], x);
      FlattenAddItem(groups[1..], x);
    }
  }

  /** Every cart item lands in the groups exactly as often as it occurs in the
      cart: the groups rearrange the cart and neither drop nor copy an item. */
  lemma {:induction false} GroupCoversCart(cart: seq<CartItem>)
    ensures multiset(Flatten(Group(cart))) == multiset(cart)
    decreases |cart|
  {
    if |cart| > 0 {
      var c := cart[..|cart| - 1];
      assert cart == c + [cart[|cart| - 1]];
      GroupCoversCart(c);
      FlattenAddItem(Group(c), cart[|cart| - 1]);
    }
  }
}
