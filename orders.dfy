/** Checkout and order queries. Checkout turns a non-empty cart into an order
    in one transaction: every item's stock is checked before anything is
    written, the total is the sum of price times quantity, each order line
    snapshots the product's price, stock is decremented and the cart emptied;
    any failure leaves every table as it was. */
module Orders {
  import opened Types
  import opened Db

  /** Text stored in every new order's status and shipping address columns. */
  const Pending: string := "pendiente"
  const PlaceholderAddress: string := "Dirección de prueba"

  /** The items of the user's cart, none when the user has no cart. */
  function CartItemsOf(carts: map<nat, Cart>, userId: nat): seq<CartItem> {
    if userId in carts then carts[userId].items else []
  }

  /** Why an item cannot be ordered: its product row is gone (the handler's
      attribute access fails and the transaction is rolled back with a 500),
      or the product's stock is below the item's quantity. */
  function ItemProblem(products: map<nat, Product>, item: CartItem): Option<Error> {
    if item.productId !in products then Some(InternalError)
    else if products[item.productId].stock < item.quantity
    then Some(OutOfStock(item.productId, products[item.productId].stock))
    else None
  }

  /** The problem of the first item, in cart order, that has one. */
  function FirstProblem(products: map<nat, Product>, items: seq<CartItem>): Option<Error>
    decreases |items|
  {
    if items == [] then None
    else
      var e := FirstProblem(products, items[..|items| - 1]);
      if e.Some? then e else ItemProblem(products, items[|items| - 1])
  }

  /** Every item's product exists and has at least the item's quantity in stock. */
  predicate Orderable(products: map<nat, Product>, items: seq<CartItem>) {
    forall k :: 0 <= k < |items| ==> ItemProblem(products, items[k]).None?
  }

  /** Checkout is refused exactly when some item is not orderable, and then
      with the problem of the first such item. */
  lemma {:induction false} FirstProblemMeaning(products: map<nat, Product>, items: seq<CartItem>)
    ensures FirstProblem(products, items).None? <==> Orderable(products, items)
    ensures FirstProblem(products, items).Some? ==>
              exists k :: 0 <= k < |items| && Orderable(products, items[..k]) &&
                          FirstProblem(products, items) == ItemProblem(products, items[k])
    decreases |items|
  {
    if items != [] {
      var n := |items| - 1;
      var prefix := items[..n];
      FirstProblemMeaning(products, prefix);
      assert forall k :: 0 <= k < n ==> items[k] == prefix[k];
      if FirstProblem(products, prefix).Some? {
        var k :| 0 <= k < n && Orderable(products, prefix[..k]) &&
                 FirstProblem(products, prefix) == ItemProblem(products, prefix[k]);
        assert prefix[..k] == items[..k];
      } else {
        assert prefix == items[..n];
      }
    }
  }

  /** Once a prefix of the cart has a problem, the whole cart has that same first problem. */
  lemma {:induction false} FirstProblemOfPrefix(products: map<nat, Product>, items: seq<CartItem>, i: nat)
    requires i <= |items| && FirstProblem(products, items[..i]).Some?
    ensures FirstProblem(products, items) == FirstProblem(products, items[..i])
    decreases |items|
  {
    if i < |items| {
      var n := |items| - 1;
      assert items[..n][..i] == items[..i];
      FirstProblemOfPrefix(products, items[..n], i);
    } else {
      assert items[..i] == items;
    }
  }

  /** The product's current price, 0 for a product that no longer exists. */
  function Price(products: map<nat, Product>, productId: nat): int {
    if productId in products then products[productId].price else 0
  }

  /** Sum over the items of the product's price times the item's quantity (cents). */
  function CartTotal(products: map<nat, Product>, items: seq<CartItem>): int
    decreases |items|
  {
    if items == [] then 0
    else
      var last := items[|items| - 1];
      CartTotal(products, items[..|items| - 1]) + Price(products, last.productId) * last.quantity
  }

  /** The order line for one cart item: the price is copied from the product. */
  function Line(products: map<nat, Product>, item: CartItem, orderId: nat, lineId: nat): OrderItem {
    var price := Price(products, item.productId);
    OrderItem(lineId, orderId, item.productId, item.quantity, price, price * item.quantity)
  }

  /** The lines of an order, one per cart item in cart order, numbered from `firstId`. */
  function OrderLines(products: map<nat, Product>, items: seq<CartItem>, orderId: nat, firstId: nat)
    : (r: seq<OrderItem>)
    ensures |r| == |items|
  {
    seq(|items|, k requires 0 <= k < |items| => Line(products, items[k], orderId, firstId + k))
  }

  /** Each order line belongs to the order, copies its item's product and
      quantity, snapshots the product's current price, and has subtotal
      unit price times quantity. */
  lemma OrderLinesSnapshot(products: map<nat, Product>, items: seq<CartItem>, orderId: nat, firstId: nat, k: nat)
    requires k < |items|
    ensures var line := OrderLines(products, items, orderId, firstId)[k];
            && line.orderId == orderId && line.productId == items[k].productId
            && line.quantity == items[k].quantity
            && line.unitPrice == Price(products, items[k].productId)
            && line.subtotal == line.unitPrice * line.quantity
  {
  }

  function Subtotals(lines: seq<OrderItem>): int
    decreases |lines|
  {
    if lines == [] then 0 else Subtotals(lines[..|lines| - 1]) + lines[|lines| - 1].subtotal
  }

  /** The order total equals the sum of its lines' subtotals. */
  lemma {:induction false} LinesSumToTotal(products: map<nat, Product>, items: seq<CartItem>, orderId: nat, firstId: nat)
    ensures Subtotals(OrderLines(products, items, orderId, firstId)) == CartTotal(products, items)
    decreases |items|
  {
    if items != [] {
      var n := |items| - 1;
      var lines := OrderLines(products, items, orderId, firstId);
      assert lines[..n] == OrderLines(products, items[..n], orderId, firstId);
      LinesSumToTotal(products, items[..n], orderId, firstId);
    }
  }

  /** Total quantity of the product over all items of the cart. */
  function Ordered(items: seq<CartItem>, productId: nat): int
    decreases |items|
  {
    if items == [] then 0
    else
      var last := items[|items| - 1];
      Ordered(items[..|items| - 1], productId) + (if last.productId == productId then last.quantity else 0)
  }

  /** The product table after checkout: each product's stock is reduced by
      the total quantity of it in the cart; nothing else changes. */
  function AfterCheckout(products: map<nat, Product>, items: seq<CartItem>): (r: map<nat, Product>)
    ensures r.Keys == products.Keys
  {
    map id | id in products :: products[id].(stock := products[id].stock - Ordered(items, id))
  }

  /** With one item per product, the quantity ordered of a product is that of its item, or 0. */
  lemma {:induction false} OrderedUnique(items: seq<CartItem>, productId: nat)
    requires UniqueProducts(items)
    ensures forall k :: 0 <= k < |items| && items[k].productId == productId ==>
              Ordered(items, productId) == items[k].quantity
    ensures (forall k :: 0 <= k < |items| ==> items[k].productId != productId) ==>
              Ordered(items, productId) == 0
    decreases |items|
  {
    if items != [] {
      var n := |items| - 1;
      var prefix := items[..n];
      assert UniqueProducts(prefix);
      OrderedUnique(prefix, productId);
      if items[n].productId == productId {
        assert forall k :: 0 <= k < n ==> prefix[k].productId != productId;
      }
    }
  }

  /** Each ordered product loses exactly its item's quantity; products not in the cart are untouched. */
  lemma CheckoutStockEffect(products: map<nat, Product>, items: seq<CartItem>)
    requires UniqueProducts(items)
    ensures AfterCheckout(products, items).Keys == products.Keys
    ensures forall k :: 0 <= k < |items| && items[k].productId in products ==>
              AfterCheckout(products, items)[items[k].productId]
                == products[items[k].productId].(stock := products[items[k].productId].stock - items[k].quantity)
    ensures forall id :: id in products && (forall k :: 0 <= k < |items| ==> items[k].productId != id) ==>
              AfterCheckout(products, items)[id] == products[id]
  {
    forall id | id in products {
      OrderedUnique(items, id);
    }
  }

  /** The per-item stock check keeps stock non-negative because a cart holds
      at most one item per product. */
  lemma CheckoutKeepsStockNonNegative(products: map<nat, Product>, items: seq<CartItem>)
    requires StockNonNegative(products) && UniqueProducts(items) && Orderable(products, items)
    ensures StockNonNegative(AfterCheckout(products, items))
  {
    forall id | id in products ensures products[id].stock - Ordered(items, id) >= 0 {
      OrderedUnique(items, id);
      if k :| 0 <= k < |items| && items[k].productId == id {
        assert ItemProblem(products, items[k]).None?;
      }
    }
  }

  /** Without the one-item-per-product invariant the per-item check is not
      enough: two items of 2 each pass against a stock of 3, which then becomes -1. */
  lemma DuplicateItemsOverdraw()
    ensures var p := Product(7, "x", None, "b", "c", 100, 3, None, 0);
            var products := map[7 := p];
            var items := [CartItem(1, 7, 2), CartItem(2, 7, 2)];
            Orderable(products, items) && AfterCheckout(products, items)[7].stock == -1
  {
    var items := [CartItem(1, 7, 2), CartItem(2, 7, 2)];
    assert items[..1][..0] == [];
    assert Ordered(items, 7) == 4;
  }

  /** A cart of 3 units of a product priced 500 cents with 10 in stock
      checks out for 1500 cents and leaves 7 in stock. */
  lemma CheckoutExample()
    ensures var p := Product(1, "A", None, "b", "c", 500, 10, None, 0);
            var products := map[1 := p];
            var items := [CartItem(9, 1, 3)];
            && FirstProblem(products, items).None?
            && CartTotal(products, items) == 1500
            && AfterCheckout(products, items)[1].stock == 7
            && OrderLines(products, items, 20, 21) == [OrderItem(21, 20, 1, 3, 500, 1500)]
  {
    var items := [CartItem(9, 1, 3)];
    assert items[..0] == [];
  }

  /** The first loop of checkout: checks every item's stock in cart order and
      accumulates the total, writing nothing. */
  method CheckCart(products: map<nat, Product>, items: seq<CartItem>) returns (r: Result<int>)
    ensures r == match FirstProblem(products, items)
                 case Some(e) => Err(e)
                 case None => Ok(CartTotal(products, items))
  {
    var total := 0;
    var i := 0;
    while i < |items|
      invariant 0 <= i <= |items|
      invariant FirstProblem(products, items[..i]).None?
      invariant total == CartTotal(products, items[..i])
    {
      var item := items[i];
      assert items[..i + 1][..i] == items[..i];
      if item.productId !in products {
        FirstProblemOfPrefix(products, items, i + 1);
        return Err(InternalError);
      }
      var product := products[item.productId];
      if product.stock < item.quantity {
        FirstProblemOfPrefix(products, items, i + 1);
        return Err(OutOfStock(item.productId, product.stock));
      }
      total := total + product.price * item.quantity;
      i := i + 1;
    }
    assert items[..i] == items;
    r := Ok(total);
  }

  /** One step of the decrement loop. */
  lemma AfterCheckoutStep(products: map<nat, Product>, items: seq<CartItem>, i: nat)
    requires i < |items| && items[i].productId in products
    ensures var before := AfterCheckout(products, items[..i]);
            var p := before[items[i].productId];
            AfterCheckout(products, items[..i + 1]) == before[items[i].productId := p.(stock := p.stock - items[i].quantity)]
  {
    assert items[..i + 1][..i] == items[..i];
  }

  /** The second loop of checkout, once every item has passed the check: it
      decrements each product's stock by the item's quantity and records one
      order line per item, on the transaction's pending copy of the product table. */
  method DecrementAndRecord(products: map<nat, Product>, items: seq<CartItem>, orderId: nat)
    returns (after: map<nat, Product>, lines: seq<OrderItem>)
    requires Orderable(products, items)
    ensures after == AfterCheckout(products, items)
    ensures lines == OrderLines(products, items, orderId, orderId + 1)
  {
    after := products;
    lines := [];
    var i := 0;
    assert items[..0] == [];
    assert AfterCheckout(products, []) == products;
    while i < |items|
      invariant 0 <= i <= |items|
      invariant after == AfterCheckout(products, items[..i])
      invariant lines == OrderLines(products, items[..i], orderId, orderId + 1)
    {
      var item := items[i];
      assert ItemProblem(products, item).None?;
      var product := after[item.productId];
      AfterCheckoutStep(products, items, i);
      after := after[item.productId := product.(stock := product.stock - item.quantity)];
      lines := lines + [OrderItem(orderId + 1 + i, orderId, item.productId, item.quantity,
                                  product.price, product.price * item.quantity)];
      assert lines == OrderLines(products, items[..i + 1], orderId, orderId + 1);
      i := i + 1;
    }
    assert items[..i] == items;
  }

  /** Committing a checkout (new order stamped with the current id and time,
      stock decremented, cart emptied) keeps the database invariant. */
  lemma CheckoutKeepsConsistent(users: seq<User>, products: map<nat, Product>, carts: map<nat, Cart>,
                                orders: seq<Order>, messages: map<nat, Message>, convs: seq<ConvRecord>,
                                nextId: nat, clock: nat, userId: nat, order: Order)
    requires Consistent(users, products, carts, orders, messages, convs, nextId, clock)
    requires userId in carts && Orderable(products, carts[userId].items)
    requires order.id == nextId && order.placedAt == clock
    ensures var items := carts[userId].items;
            Consistent(users, AfterCheckout(products, items), carts[userId := carts[userId].(items := [])],
                       orders + [order], messages, convs, nextId + 1 + |items|, clock + 1)
  {
    var items := carts[userId].items;
    CheckoutKeepsStockNonNegative(products, items);
    PutCart(carts, nextId, nextId + 1 + |items|, carts[userId].(items := []));
  }

  /** Commits a checkout in one step: the order is added, the decremented
      product table stored, the user's cart emptied but kept, and the clock
      advances; users and messaging are untouched. */
  method CommitCheckout(db: Store, userId: nat, products: map<nat, Product>, order: Order)
    requires db.Valid() && userId in db.carts && Orderable(db.products, db.carts[userId].items)
    requires products == AfterCheckout(db.products, db.carts[userId].items)
    requires order.id == db.nextId && order.placedAt == db.clock
    modifies db
    ensures db.Valid()
    ensures db.products == products && db.orders == old(db.orders) + [order]
    ensures db.carts == old(db.carts)[userId := old(db.carts)[userId].(items := [])]
    ensures db.nextId == old(db.nextId) + 1 + |old(db.carts)[userId].items| && db.clock == old(db.clock) + 1
    ensures db.users == old(db.users) && db.messages == old(db.messages) && db.convs == old(db.convs)
  {
    var cart := db.carts[userId];
    CheckoutKeepsConsistent(db.users, db.products, db.carts, db.orders, db.messages, db.convs,
                            db.nextId, db.clock, userId, order);
    db.products := products;
    db.orders := db.orders + [order];
    db.carts := db.carts[userId := cart.(items := [])];
    db.nextId := db.nextId + 1 + |cart.items|;
    db.clock := db.clock + 1;
  }

  /** create_order. */
  method CreateOrder(db: Store, userId: nat) returns (r: Result<Order>)
    requires db.Valid()
    modifies db
    ensures db.Valid()
    ensures db.users == old(db.users) && db.messages == old(db.messages) && db.convs == old(db.convs)
    ensures CartItemsOf(old(db.carts), userId) == [] ==> r == Err(EmptyCart) && unchanged(db)
    ensures CartItemsOf(old(db.carts), userId) != [] &&
            FirstProblem(old(db.products), CartItemsOf(old(db.carts), userId)).Some? ==>
              r == Err(FirstProblem(old(db.products), CartItemsOf(old(db.carts), userId)).value) && unchanged(db)
    ensures CartItemsOf(old(db.carts), userId) != [] &&
            FirstProblem(old(db.products), CartItemsOf(old(db.carts), userId)).None? ==>
              var items := CartItemsOf(old(db.carts), userId);
              var id := old(db.nextId);
              var order := Order(id, userId, old(db.clock), CartTotal(old(db.products), items), Pending,
                                 PlaceholderAddress, OrderLines(old(db.products), items, id, id + 1));
              && r == Ok(order)
              && db.orders == old(db.orders) + [order]
              && db.products == AfterCheckout(old(db.products), items)
              && db.carts == old(db.carts)[userId := old(db.carts)[userId].(items := [])]
              && db.nextId == old(db.nextId) + 1 + |items|
              && db.clock == old(db.clock) + 1
    ensures r.Ok? ==> Subtotals(r.value.items) == r.value.total
  {
    if userId !in db.carts || db.carts[userId].items == [] {
      return Err(EmptyCart);
    }
    var cart := db.carts[userId];
    var checked := CheckCart(db.products, cart.items);
    if checked.Err? {
      // rolled back: nothing has been written
      return Err(checked.error);
    }
    assert Orderable(db.products, cart.items) by {
      FirstProblemMeaning(db.products, cart.items);
    }
    var total := checked.value;
    var orderId := db.nextId;
    var products, lines := DecrementAndRecord(db.products, cart.items, orderId);
    assert Subtotals(lines) == total by {
      LinesSumToTotal(db.products, cart.items, orderId, orderId + 1);
    }
    var order := Order(orderId, userId, db.clock, total, Pending, PlaceholderAddress, lines);
    CommitCheckout(db, userId, products, order);
    r := Ok(order);
  }

  /** The user's orders, newest first. */
  function UserOrders(orders: seq<Order>, userId: nat): (r: seq<Order>)
    ensures forall o :: o in r <==> o in orders && o.userId == userId
    decreases |orders|
  {
    if orders == [] then []
    else
      var last := orders[|orders| - 1];
      var rest := UserOrders(orders[..|orders| - 1], userId);
      assert forall o :: o in orders <==> o in orders[..|orders| - 1] || o == last;
      if last.userId == userId then [last] + rest else rest
  }

  lemma {:induction false} UserOrdersNewestFirst(orders: seq<Order>, userId: nat)
    requires OrdersChronological(orders)
    ensures forall i, j :: 0 <= i < j < |UserOrders(orders, userId)| ==>
              UserOrders(orders, userId)[i].placedAt > UserOrders(orders, userId)[j].placedAt
    decreases |orders|
  {
    if orders != [] {
      var n := |orders| - 1;
      var last := orders[n];
      var rest := UserOrders(orders[..n], userId);
      UserOrdersNewestFirst(orders[..n], userId);
      forall j | 0 <= j < |rest| ensures rest[j].placedAt < last.placedAt {
        assert rest[j] in rest;
        var k :| 0 <= k < n && orders[..n][k] == rest[j];
      }
      var r := UserOrders(orders, userId);
      if last.userId == userId {
        assert r == [last] + rest;
        forall i, j | 0 <= i < j < |r| ensures r[i].placedAt > r[j].placedAt {
          assert r[j] == rest[j - 1];
          if i == 0 {
            assert r[i] == last;
            assert rest[j - 1].placedAt < last.placedAt;
          } else {
            assert r[i] == rest[i - 1];
            assert rest[i - 1].placedAt > rest[j - 1].placedAt;
          }
        }
      } else {
        assert r == rest;
      }
    }
  }

  /** The first order with the given id. */
  function FindOrder(orders: seq<Order>, orderId: nat): (r: Option<Order>)
    ensures r.None? <==> forall k :: 0 <= k < |orders| ==> orders[k].id != orderId
    ensures r.Some? ==> r.value in orders && r.value.id == orderId
    decreases |orders|
  {
    if orders == [] then None
    else if orders[0].id == orderId then Some(orders[0])
    else FindOrder(orders[1..], orderId)
  }

  /** get_order_details: 404 for an unknown id, 403 for another user's order. */
  function OrderDetails(orders: seq<Order>, orderId: nat, userId: nat): (r: Result<Order>)
    ensures r == Err(OrderNotFound) <==> forall k :: 0 <= k < |orders| ==> orders[k].id != orderId
    ensures r == Err(OrderForbidden) <==> FindOrder(orders, orderId).Some? && FindOrder(orders, orderId).value.userId != userId
    ensures r.Ok? ==> r.value in orders && r.value.id == orderId && r.value.userId == userId
  {
    match FindOrder(orders, orderId)
    case None => Err(OrderNotFound)
    case Some(o) => if o.userId != userId then Err(OrderForbidden) else Ok(o)
  }
}
