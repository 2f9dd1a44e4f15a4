/** The database session every handler receives: the shop's tables as plain
    maps and sequences, a source of fresh identifiers and a monotone clock. */
module Db {
  import opened Types

  /** At most one item per product in a cart. */
  predicate UniqueProducts(items: seq<CartItem>) {
    forall i, j :: 0 <= i < j < |items| ==> items[i].productId != items[j].productId
  }

  /** Email addresses, user names and ids are pairwise distinct (the unique columns of `usuario`). */
  predicate UniqueAccounts(users: seq<User>) {
    forall i, j :: 0 <= i < j < |users| ==>
      users[i].email != users[j].email &&
      users[i].username != users[j].username &&
      users[i].id != users[j].id
  }

  predicate StockNonNegative(products: map<nat, Product>) {
    forall id :: id in products ==> products[id].stock >= 0
  }

  /** Conversation records in table order carry strictly increasing send times. */
  predicate RecordsChronological(convs: seq<ConvRecord>) {
    forall i, j :: 0 <= i < j < |convs| ==> convs[i].sentAt < convs[j].sentAt
  }

  /** Orders in table order carry strictly increasing placement times. */
  predicate OrdersChronological(orders: seq<Order>) {
    forall i, j :: 0 <= i < j < |orders| ==> orders[i].placedAt < orders[j].placedAt
  }

  /** Orders in table order carry strictly increasing ids, so no two orders share one. */
  predicate OrderIdsIncreasing(orders: seq<Order>) {
    forall i, j :: 0 <= i < j < |orders| ==> orders[i].id < orders[j].id
  }

  /** Every cart is keyed by its owner, holds one item per product, and
      uses only ids already handed out. */
  predicate CartsWellFormed(carts: map<nat, Cart>, nextId: nat) {
    forall u :: u in carts ==>
      carts[u].userId == u && UniqueProducts(carts[u].items) &&
      forall k :: 0 <= k < |carts[u].items| ==> carts[u].items[k].id < nextId
  }

  /** Storing a well-formed cart under its owner keeps the cart table well formed. */
  lemma PutCart(carts: map<nat, Cart>, nextId: nat, nextId': nat, cart: Cart)
    requires CartsWellFormed(carts, nextId) && nextId <= nextId'
    requires UniqueProducts(cart.items)
    requires forall k :: 0 <= k < |cart.items| ==> cart.items[k].id < nextId'
    ensures CartsWellFormed(carts[cart.userId := cart], nextId')
  {
  }

  /** Every message is stored under its own id, and ids are below `nextId`. */
  predicate MessagesKeyed(messages: map<nat, Message>, nextId: nat) {
    forall id :: id in messages ==> messages[id].id == id && id < nextId
  }

  /** Conversation records are chronological, use ids below `nextId` and
      times below `clock`, and never go from a user to the same user. */
  predicate RecordsWellFormed(convs: seq<ConvRecord>, nextId: nat, clock: nat) {
    && RecordsChronological(convs)
    && forall k :: 0 <= k < |convs| ==>
         convs[k].id < nextId && convs[k].sentAt < clock && convs[k].sender != convs[k].recipient
  }

  /** Every conversation record's message is stored (`id_mensaje` is a NOT NULL foreign key). */
  predicate RecordsHaveMessages(convs: seq<ConvRecord>, messages: map<nat, Message>) {
    forall k :: 0 <= k < |convs| ==> convs[k].messageId in messages
  }

  predicate UserExists(users: seq<User>, id: nat) {
    exists k :: 0 <= k < |users| && users[k].id == id
  }

  /** The invariant of the database: the unique columns are unique, every
      id in use is below the id counter and every timestamp below the clock,
      each product and message is stored under its own id, stock is never
      negative, carts are well formed, orders and conversation records are
      stored in the order they were created, and every record's message exists. */
  predicate Consistent(users: seq<User>, products: map<nat, Product>, carts: map<nat, Cart>,
                       orders: seq<Order>, messages: map<nat, Message>, convs: seq<ConvRecord>,
                       nextId: nat, clock: nat)
  {
    && UniqueAccounts(users)
    && (forall k :: 0 <= k < |users| ==> users[k].id < nextId)
    && (forall id :: id in products ==> products[id].id == id && id < nextId)
    && StockNonNegative(products)
    && CartsWellFormed(carts, nextId)
    && OrdersChronological(orders)
    && OrderIdsIncreasing(orders)
    && (forall k :: 0 <= k < |orders| ==> orders[k].id < nextId && orders[k].placedAt < clock)
    && MessagesKeyed(messages, nextId)
    && RecordsWellFormed(convs, nextId, clock)
    && RecordsHaveMessages(convs, messages)
  }

  /** Replacing the cart table, with the id counter and the clock moving forward only, keeps the invariant. */
  lemma CartsUpdated(users: seq<User>, products: map<nat, Product>, carts: map<nat, Cart>,
                     orders: seq<Order>, messages: map<nat, Message>, convs: seq<ConvRecord>,
                     nextId: nat, clock: nat, carts': map<nat, Cart>, nextId': nat, clock': nat)
    requires Consistent(users, products, carts, orders, messages, convs, nextId, clock)
    requires CartsWellFormed(carts', nextId') && nextId <= nextId' && clock <= clock'
    ensures Consistent(users, products, carts', orders, messages, convs, nextId', clock')
  {
  }

  /** Replacing the messaging tables, with the id counter and the clock moving forward only, keeps the invariant. */
  lemma MessagingUpdated(users: seq<User>, products: map<nat, Product>, carts: map<nat, Cart>,
                         orders: seq<Order>, messages: map<nat, Message>, convs: seq<ConvRecord>,
                         nextId: nat, clock: nat, messages': map<nat, Message>, convs': seq<ConvRecord>,
                         nextId': nat, clock': nat)
    requires Consistent(users, products, carts, orders, messages, convs, nextId, clock)
    requires MessagesKeyed(messages', nextId') && RecordsWellFormed(convs', nextId', clock')
    requires RecordsHaveMessages(convs', messages')
    requires nextId <= nextId' && clock <= clock'
    ensures Consistent(users, products, carts, orders, messages', convs', nextId', clock')
  {
  }

  class Store {
    var users: seq<User>
    var products: map<nat, Product>
    var carts: map<nat, Cart>           // keyed by the owner's id
    var orders: seq<Order>
    var messages: map<nat, Message>
    var convs: seq<ConvRecord>
    var nextId: nat                     // every id in use is below this
    var clock: nat                      // every timestamp in use is below this

    ghost predicate Valid()
      reads this
    {
      Consistent(users, products, carts, orders, messages, convs, nextId, clock)
    }

    /** An empty database. */
    constructor ()
      ensures Valid()
      ensures users == [] && products == map[] && carts == map[] && orders == []
      ensures messages == map[] && convs == [] && nextId == 0 && clock == 0
    {
      users, products, carts, orders := [], map[], map[], [];
      messages, convs, nextId, clock := map[], [], 0, 0;
    }
  }
}
