/** Cart handlers: get-or-create, add (merge by product, stock-checked),
    update to an absolute quantity, and remove. No cart operation touches
    product stock; every successful change refreshes the cart's timestamp. */
module Cart {
  import opened Types
  import opened Db
  import opened Schemas

  /** Position of the first item for `productId`, if the cart has one. */
  function ItemIndex(items: seq<CartItem>, productId: nat): (r: Option<nat>)
    ensures r.Some? ==> r.value < |items| && items[r.value].productId == productId
    ensures r.Some? ==> forall k :: 0 <= k < r.value ==> items[k].productId != productId
    ensures r.None? <==> forall k :: 0 <= k < |items| ==> items[k].productId != productId
  {
    if items == [] then None
    else if items[0].productId == productId then Some(0)
    else match ItemIndex(items[1..], productId)
      case None => None
      case Some(i) => Some(i + 1)
  }

  /** How many of `productId` the cart holds (0 when it has no item for it). */
  function Quantity(items: seq<CartItem>, productId: nat): int {
    match ItemIndex(items, productId)
    case None => 0
    case Some(k) => items[k].quantity
  }

  /** With one item per product, the item at position k is the one `ItemIndex` finds. */
  lemma IndexOfUniqueItem(items: seq<CartItem>, k: nat)
    requires UniqueProducts(items) && k < |items|
    ensures ItemIndex(items, items[k].productId) == Some(k)
    ensures Quantity(items, items[k].productId) == items[k].quantity
  {
  }

  /** Replacing an item by one for the same product changes that product's
      quantity only. */
  lemma {:induction false} ReplaceItem(items: seq<CartItem>, k: nat, item: CartItem)
    requires UniqueProducts(items) && k < |items| && item.productId == items[k].productId
    ensures UniqueProducts(items[k := item])
    ensures Quantity(items[k := item], item.productId) == item.quantity
    ensures forall p :: p != item.productId ==> Quantity(items[k := item], p) == Quantity(items, p)
  {
    var r := items[k := item];
    assert forall j :: 0 <= j < |r| ==> r[j].productId == items[j].productId;
    assert UniqueProducts(r);
    IndexOfUniqueItem(r, k);
    forall p | p != item.productId ensures Quantity(r, p) == Quantity(items, p) {
      var i := ItemIndex(items, p);
      if i.Some? {
        IndexOfUniqueItem(r, i.value);
      }
    }
  }

  /** Appending an item for a product the cart lacks adds that product only. */
  lemma {:induction false} AppendItem(items: seq<CartItem>, item: CartItem)
    requires UniqueProducts(items)
    requires forall k :: 0 <= k < |items| ==> items[k].productId != item.productId
    ensures UniqueProducts(items + [item])
    ensures Quantity(items + [item], item.productId) == item.quantity
    ensures forall p :: p != item.productId ==> Quantity(items + [item], p) == Quantity(items, p)
  {
    var r := items + [item];
    assert UniqueProducts(r);
    IndexOfUniqueItem(r, |items|);
    forall p | p != item.productId ensures Quantity(r, p) == Quantity(items, p) {
      var i := ItemIndex(items, p);
      if i.Some? {
        IndexOfUniqueItem(r, i.value);
      } else {
        assert forall j :: 0 <= j < |r| ==> r[j].productId != p;
      }
    }
  }

  /** The cart's items after adding `quantity` of a product that has `stock`
      units: merged into the product's item when there is one, appended as a
      new item (with id `freshId`) otherwise; refused when the resulting
      quantity exceeds the stock. */
  function AddItems(items: seq<CartItem>, productId: nat, quantity: int, stock: int, freshId: nat)
    : (r: Result<seq<CartItem>>)
    ensures r.Err? ==> r.error == OutOfStock(productId, stock)
    ensures r.Ok? ==> |r.value| == |items| + (if ItemIndex(items, productId).None? then 1 else 0)
  {
    match ItemIndex(items, productId)
    case Some(k) =>
      var total := items[k].quantity + quantity;
      if stock < total then Err(OutOfStock(productId, stock))
      else Ok(items[k := items[k].(quantity := total)])
    case None =>
      if stock < quantity then Err(OutOfStock(productId, stock))
      else Ok(items + [CartItem(freshId, productId, quantity)])
  }

  /** Adding succeeds exactly when the stock covers what the cart already
      holds plus what is added; the product's quantity becomes their sum, every
      other product keeps its quantity, and there is still at most one item per product. */
  lemma {:induction false} AddItemsMeaning(items: seq<CartItem>, productId: nat, quantity: int, stock: int, freshId: nat)
    requires UniqueProducts(items)
    ensures AddItems(items, productId, quantity, stock, freshId).Ok? <==> Quantity(items, productId) + quantity <= stock
    ensures AddItems(items, productId, quantity, stock, freshId).Err? ==>
              AddItems(items, productId, quantity, stock, freshId).error == OutOfStock(productId, stock)
    ensures AddItems(items, productId, quantity, stock, freshId).Ok? ==>
              var r := AddItems(items, productId, quantity, stock, freshId).value;
              && UniqueProducts(r)
              && Quantity(r, productId) == Quantity(items, productId) + quantity
              && (forall p :: p != productId ==> Quantity(r, p) == Quantity(items, p))
  {
    match ItemIndex(items, productId)
    case Some(k) =>
      ReplaceItem(items, k, items[k].(quantity := items[k].quantity + quantity));
    case None =>
      AppendItem(items, CartItem(freshId, productId, quantity));
  }

  /** A successful add keeps one item per product, and only the new item may use the fresh id. */
  lemma AddItemsWellFormed(items: seq<CartItem>, productId: nat, quantity: int, stock: int, freshId: nat)
    requires UniqueProducts(items)
    requires forall k :: 0 <= k < |items| ==> items[k].id < freshId
    requires AddItems(items, productId, quantity, stock, freshId).Ok?
    ensures var r := AddItems(items, productId, quantity, stock, freshId).value;
            UniqueProducts(r) && forall k :: 0 <= k < |r| ==> r[k].id < freshId + |r| - |items|
  {
  }

  /** Adding 2 and then 3 of a product with 4 in stock: the second add is
      refused and the cart still holds 2. */
  lemma AddTwiceExample()
    ensures var first := AddItems([], 5, 2, 4, 10);
            && first == Ok([CartItem(10, 5, 2)])
            && AddItems(first.value, 5, 3, 4, 11) == Err(OutOfStock(5, 4))
  {
    var one: seq<CartItem> := [CartItem(10, 5, 2)];
    assert [] + one == one;
    assert ItemIndex(one, 5) == Some(0);
  }

  /** The cart's items with the product's quantity set to `quantity`, or None
      when the cart has no item for it. */
  function SetQuantity(items: seq<CartItem>, productId: nat, quantity: int): (r: Option<seq<CartItem>>)
    ensures r.Some? ==> |r.value| == |items|
  {
    match ItemIndex(items, productId)
    case None => None
    case Some(k) => Some(items[k := items[k].(quantity := quantity)])
  }

  lemma SetQuantityMeaning(items: seq<CartItem>, productId: nat, quantity: int)
    requires UniqueProducts(items)
    ensures SetQuantity(items, productId, quantity).None? <==>
              forall k :: 0 <= k < |items| ==> items[k].productId != productId
    ensures SetQuantity(items, productId, quantity).Some? ==>
              var r := SetQuantity(items, productId, quantity).value;
              && UniqueProducts(r)
              && Quantity(r, productId) == quantity
              && (forall p :: p != productId ==> Quantity(r, p) == Quantity(items, p))
  {
    match ItemIndex(items, productId)
    case None =>
    case Some(k) =>
      ReplaceItem(items, k, items[k].(quantity := quantity));
  }

  /** Setting a quantity keeps one item per product and every item id. */
  lemma SetQuantityWellFormed(items: seq<CartItem>, productId: nat, quantity: int, bound: nat)
    requires UniqueProducts(items) && forall k :: 0 <= k < |items| ==> items[k].id < bound
    requires SetQuantity(items, productId, quantity).Some?
    ensures var r := SetQuantity(items, productId, quantity).value;
            UniqueProducts(r) && forall k :: 0 <= k < |r| ==> r[k].id < bound
  {
  }

  /** The cart's items without the product's item, or None when it has none. */
  function RemoveItem(items: seq<CartItem>, productId: nat): (r: Option<seq<CartItem>>)
    ensures r.Some? ==> |r.value| == |items| - 1
  {
    match ItemIndex(items, productId)
    case None => None
    case Some(k) => Some(items[..k] + items[k + 1..])
  }

  /** Removing deletes exactly the product's item: every other item stays. */
  lemma RemoveItemMeaning(items: seq<CartItem>, productId: nat)
    requires UniqueProducts(items)
    ensures RemoveItem(items, productId).None? <==>
              forall k :: 0 <= k < |items| ==> items[k].productId != productId
    ensures RemoveItem(items, productId).Some? ==>
              var r := RemoveItem(items, productId).value;
              && UniqueProducts(r)
              && |r| == |items| - 1
              && (forall it :: it in r <==> it in items && it.productId != productId)
  {
    match ItemIndex(items, productId)
    case None =>
    case Some(k) =>
      var r := items[..k] + items[k + 1..];
      assert forall j :: 0 <= j < |r| ==> r[j] == (if j < k then items[j] else items[j + 1]);
      forall it | it in items && it.productId != productId ensures it in r {
        var j :| 0 <= j < |items| && items[j] == it;
        if j < k { assert r[j] == it; } else { assert r[j - 1] == it; }
      }
  }

  /** Removing an item keeps one item per product and uses no new id. */
  lemma RemoveItemWellFormed(items: seq<CartItem>, productId: nat, bound: nat)
    requires UniqueProducts(items) && forall k :: 0 <= k < |items| ==> items[k].id < bound
    requires RemoveItem(items, productId).Some?
    ensures var r := RemoveItem(items, productId).value;
            UniqueProducts(r) && forall k :: 0 <= k < |r| ==> r[k].id < bound
  {
    var k := ItemIndex(items, productId).value;
    var r := items[..k] + items[k + 1..];
    assert forall j :: 0 <= j < |r| ==> r[j] == (if j < k then items[j] else items[j + 1]);
  }

  /** The linear search of add_to_cart over the cart's items. */
  method FindItem(items: seq<CartItem>, productId: nat) returns (r: Option<nat>)
    ensures r == ItemIndex(items, productId)
  {
    var i := 0;
    while i < |items|
      invariant 0 <= i <= |items|
      invariant forall k :: 0 <= k < i ==> items[k].productId != productId
    {
      if items[i].productId == productId {
        return Some(i);
      }
      i := i + 1;
    }
    return None;
  }

  /** get_or_create_cart can produce a cart: one exists or its owner does. */
  predicate CartAvailable(carts: map<nat, Cart>, users: seq<User>, userId: nat) {
    userId in carts || UserExists(users, userId)
  }

  /** The cart get_or_create_cart returns: the stored one, or a new empty one. */
  function CartOf(carts: map<nat, Cart>, userId: nat): Cart {
    if userId in carts then carts[userId] else Cart(userId, [], None)
  }

  /** The existing cart is returned unchanged; otherwise an empty cart is
      created for an existing user, or the call fails with 404. */
  method GetOrCreateCart(db: Store, userId: nat) returns (r: Result<Cart>)
    requires db.Valid()
    modifies db
    ensures db.Valid()
    ensures userId in old(db.carts) ==> r == Ok(old(db.carts)[userId]) && unchanged(db)
    ensures !CartAvailable(old(db.carts), old(db.users), userId) ==> r == Err(UserNotFound) && unchanged(db)
    ensures CartAvailable(old(db.carts), old(db.users), userId) ==>
              r == Ok(CartOf(old(db.carts), userId)) && db.carts == old(db.carts)[userId := r.value]
    ensures db.users == old(db.users) && db.products == old(db.products) && db.orders == old(db.orders)
    ensures db.messages == old(db.messages) && db.convs == old(db.convs)
    ensures db.nextId == old(db.nextId) && db.clock == old(db.clock)
  {
    if userId in db.carts {
      assert db.carts[userId := db.carts[userId]] == db.carts;
      return Ok(db.carts[userId]);
    }
    if !UserExists(db.users, userId) {
      return Err(UserNotFound);
    }
    var cart := Cart(userId, [], None);
    db.carts := db.carts[userId := cart];
    r := Ok(cart);
  }

  /** The merge-or-append step of add_to_cart over the cart's items. */
  method MergeItem(items: seq<CartItem>, productId: nat, quantity: int, stock: int, freshId: nat)
    returns (r: Result<seq<CartItem>>)
    ensures r == AddItems(items, productId, quantity, stock, freshId)
  {
    var found := FindItem(items, productId);
    if found.Some? {
      var k := found.value;
      var total := items[k].quantity + quantity;
      if stock < total {
        r := Err(OutOfStock(productId, stock));
      } else {
        r := Ok(items[k := items[k].(quantity := total)]);
      }
    } else if stock < quantity {
      r := Err(OutOfStock(productId, stock));
    } else {
      r := Ok(items + [CartItem(freshId, productId, quantity)]);
    }
  }

  /** Commits a changed cart: it is stored under its owner, the id counter
      moves to `nextId` and the clock advances; no other table changes. */
  method SaveCart(db: Store, cart: Cart, nextId: nat)
    requires db.Valid() && db.nextId <= nextId
    requires UniqueProducts(cart.items)
    requires forall k :: 0 <= k < |cart.items| ==> cart.items[k].id < nextId
    modifies db
    ensures db.Valid()
    ensures db.carts == old(db.carts)[cart.userId := cart] && db.nextId == nextId && db.clock == old(db.clock) + 1
    ensures db.users == old(db.users) && db.products == old(db.products) && db.orders == old(db.orders)
    ensures db.messages == old(db.messages) && db.convs == old(db.convs)
  {
    PutCart(db.carts, db.nextId, nextId, cart);
    CartsUpdated(db.users, db.products, db.carts, db.orders, db.messages, db.convs, db.nextId, db.clock,
                 db.carts[cart.userId := cart], nextId, db.clock + 1);
    db.carts := db.carts[cart.userId := cart];
    db.nextId := nextId;
    db.clock := db.clock + 1;
  }

  /** add_to_cart: the cart is obtained (or created) first; then an unknown
      product is refused with 404, and the quantity is merged or appended as
      `AddItems` says. */
  method AddToCart(db: Store, userId: nat, req: CartAdd) returns (r: Result<Cart>)
    requires db.Valid() && req.quantity >= 1
    modifies db
    ensures db.Valid()
    ensures db.users == old(db.users) && db.products == old(db.products) && db.orders == old(db.orders)
    ensures db.messages == old(db.messages) && db.convs == old(db.convs)
    ensures !CartAvailable(old(db.carts), old(db.users), userId) ==> r == Err(UserNotFound) && unchanged(db)
    ensures CartAvailable(old(db.carts), old(db.users), userId) ==>
              var cart := CartOf(old(db.carts), userId);
              var outcome :=
                if req.productId !in old(db.products) then Err(ProductNotFound)
                else AddItems(cart.items, req.productId, req.quantity,
                              old(db.products)[req.productId].stock, old(db.nextId));
              if outcome.Err? then
                r == Err(outcome.error) && db.carts == old(db.carts)[userId := cart] &&
                db.nextId == old(db.nextId) && db.clock == old(db.clock)
              else
                var updated := cart.(items := outcome.value, updatedAt := Some(old(db.clock)));
                && r == Ok(updated)
                && db.carts == old(db.carts)[userId := updated]
                && db.nextId == old(db.nextId) + |outcome.value| - |cart.items|
                && db.clock == old(db.clock) + 1
  {
    var got := GetOrCreateCart(db, userId);
    if got.Err? {
      return Err(got.error);
    }
    var cart := got.value;
    if req.productId !in db.products {
      return Err(ProductNotFound);
    }
    var stock := db.products[req.productId].stock;
    var outcome := MergeItem(cart.items, req.productId, req.quantity, stock, db.nextId);
    if outcome.Err? {
      return Err(outcome.error);
    }
    AddItemsWellFormed(cart.items, req.productId, req.quantity, stock, db.nextId);
    var updated := cart.(items := outcome.value, updatedAt := Some(db.clock));
    SaveCart(db, updated, db.nextId + |outcome.value| - |cart.items|);
    r := Ok(updated);
  }

  /** update_cart_item, checking in order: unknown product (404), stock below
      the new quantity (400), no item for the product in the cart (404). */
  method UpdateCartItem(db: Store, userId: nat, req: CartUpdate) returns (r: Result<Cart>)
    requires db.Valid() && req.quantity >= 1
    modifies db
    ensures db.Valid()
    ensures db.users == old(db.users) && db.products == old(db.products) && db.orders == old(db.orders)
    ensures db.messages == old(db.messages) && db.convs == old(db.convs) && db.nextId == old(db.nextId)
    ensures !CartAvailable(old(db.carts), old(db.users), userId) ==> r == Err(UserNotFound) && unchanged(db)
    ensures CartAvailable(old(db.carts), old(db.users), userId) ==>
              var cart := CartOf(old(db.carts), userId);
              var outcome :=
                if req.productId !in old(db.products) then Err(ProductNotFound)
                else if old(db.products)[req.productId].stock < req.quantity
                then Err(OutOfStock(req.productId, old(db.products)[req.productId].stock))
                else match SetQuantity(cart.items, req.productId, req.quantity)
                  case None => Err(ItemNotInCart)
                  case Some(items) => Ok(items);
              if outcome.Err? then
                r == Err(outcome.error) && db.carts == old(db.carts)[userId := cart] && db.clock == old(db.clock)
              else
                var updated := cart.(items := outcome.value, updatedAt := Some(old(db.clock)));
                r == Ok(updated) && db.carts == old(db.carts)[userId := updated] && db.clock == old(db.clock) + 1
  {
    var got := GetOrCreateCart(db, userId);
    if got.Err? {
      return Err(got.error);
    }
    var cart := got.value;
    if req.productId !in db.products {
      return Err(ProductNotFound);
    }
    var stock := db.products[req.productId].stock;
    if stock < req.quantity {
      return Err(OutOfStock(req.productId, stock));
    }
    var found := FindItem(cart.items, req.productId);
    if found.None? {
      return Err(ItemNotInCart);
    }
    var k := found.value;
    var items := cart.items[k := cart.items[k].(quantity := req.quantity)];
    SetQuantityWellFormed(cart.items, req.productId, req.quantity, db.nextId);
    var updated := cart.(items := items, updatedAt := Some(db.clock));
    SaveCart(db, updated, db.nextId);
    r := Ok(updated);
  }

  /** remove_from_cart: 404 when the cart has no item for the product,
      otherwise exactly that item is deleted. */
  method RemoveFromCart(db: Store, userId: nat, productId: nat) returns (r: Result<Cart>)
    requires db.Valid()
    modifies db
    ensures db.Valid()
    ensures db.users == old(db.users) && db.products == old(db.products) && db.orders == old(db.orders)
    ensures db.messages == old(db.messages) && db.convs == old(db.convs) && db.nextId == old(db.nextId)
    ensures !CartAvailable(old(db.carts), old(db.users), userId) ==> r == Err(UserNotFound) && unchanged(db)
    ensures CartAvailable(old(db.carts), old(db.users), userId) ==>
              var cart := CartOf(old(db.carts), userId);
              match RemoveItem(cart.items, productId)
              case None =>
                r == Err(ItemNotInCart) && db.carts == old(db.carts)[userId := cart] && db.clock == old(db.clock)
              case Some(items) =>
                var updated := cart.(items := items, updatedAt := Some(old(db.clock)));
                r == Ok(updated) && db.carts == old(db.carts)[userId := updated] && db.clock == old(db.clock) + 1
  {
    var got := GetOrCreateCart(db, userId);
    if got.Err? {
      return Err(got.error);
    }
    var cart := got.value;
    var found := FindItem(cart.items, productId);
    if found.None? {
      return Err(ItemNotInCart);
    }
    var k := found.value;
    var items := cart.items[..k] + cart.items[k + 1..];
    RemoveItemWellFormed(cart.items, productId, db.nextId);
    var updated := cart.(items := items, updatedAt := Some(db.clock));
    SaveCart(db, updated, db.nextId);
    r := Ok(updated);
  }
}
