# Shop backend business rules in Dafny

This project models the business rules of a small e-commerce REST backend (FastAPI over
SQLAlchemy): registration and login, the product catalog with its filter, paging, count
and administrator-only CRUD, per-user shopping carts, the checkout transaction that
turns a cart into an order, and user-to-user messaging with unread notifications.

The database session becomes `Db.Store`, a class whose fields are the tables:
- `users`, `orders` and the conversation records `convs` are sequences in insertion order;
- `products`, `carts` (keyed by owner) and `messages` are maps keyed by id;
- `nextId` hands out fresh ids, and `clock` is a monotone timestamp.

`Store.Valid()` is the database invariant `Db.Consistent`:
- email, user name and id are unique per account;
- products and messages are stored under their own id, and carts under their owner's id;
- every id in use (accounts, products, cart items, orders, messages, records) is below `nextId`;
- stock is never negative;
- each cart holds one item per product;
- orders are in time order with increasing ids, and records are in time order;
- every record's message is stored;
- no record goes from a user to themself.

Every handler that writes is a method `(db: Store, ...) modifies db`. Each one keeps
`Valid()` and states its whole new state and its error cases. The read-only handlers are
functions of the tables they read, or methods that change nothing:
- login;
- product listing, count and lookup;
- the user's orders and order details;
- the unread count;
- the conversation list.

Loops in the source are `while` loops proved against specification functions:
- the checkout's check and decrement loops;
- the cart's item search;
- the response-building loops.

Lemmas prove what the design promises about those functions.

Conventions:
- Money is integer cents.
- Errors are the `Types.Error` datatype. `Types.Status` maps each one to its HTTP status.
- Password hashing, password verification and token signing are function parameters.
- The caller's identity is a parameter, because token decoding is not part of this model.
- The product listing and count take `rows`, any enumeration of the product table, because SQL leaves that order unspecified.

Where the code and the design description of the system differ, the model follows the code:
- Duplicate registration is a 400, not a conflict status.
- A "conversation" id names one directed record, not an unordered pair.
- Checkout has no re-validation under concurrent transactions.

One exception: the model follows what the cart and order handlers evidently mean, not what they do as written. These handlers index the current user as a dictionary, `current_user["id_usuario"]` (backend/api/cart.py:44, 54, 104 and 140; backend/api/orders.py:22, 89 and 101). `get_current_user` (backend/dependencies.py:32-59) returns a `models.Usuario` row, which does not support indexing. As written, every cart and order request therefore fails with 500 before it reads a table. The model passes the caller's user id, as the message handlers read it (`current_user.id_usuario`).

## Model

| member | source | states |
|---|---|---|
| Schemas.ParseProduct | backend/schemas.py:10-16 | a product body is accepted iff name has 1..200 chars, brand 1..100, category 1..50, price > 0 and a given stock is >= 0; an omitted stock becomes 0; every other field is copied |
| Schemas.ParseCartAdd | backend/schemas.py:60-62 | the add quantity is accepted iff it is omitted or >= 1; an omitted quantity becomes 1 |
| Schemas.ParseCartUpdate | backend/schemas.py:64-66 | the update quantity is required and accepted iff >= 1 |
| Paging.Page | backend/api/products.py:61-62 | a page holds at most `limit` entries, entry k being entry (page-1)*limit + k of the query, and is empty past the end |
| Paging.OnItsPage | backend/api/products.py:61-62 | every entry j of a result is shown at slot j % limit of page j / limit + 1 |
| Cart.ItemIndex | backend/api/cart.py:64-68 | finds the first item of the product, and finds none iff the cart has no item for it |
| Cart.IndexOfUniqueItem | backend/api/cart.py:64-68 | with one item per product, the search finds exactly that product's item |
| Cart.ReplaceItem | backend/api/cart.py:77 | rewriting an item's quantity changes that product's quantity only and keeps one item per product |
| Cart.AppendItem | backend/api/cart.py:85-91 | appending an item for a product not in the cart adds that product only and keeps one item per product |
| Cart.AddItems | backend/api/cart.py:64-91 | the items after an add: merged into the product's item, or appended; refused with 400 naming product and stock, else one item longer exactly when the product was new (meaning proved by `Cart.AddItemsMeaning`) |
| Cart.SetQuantity | backend/api/cart.py:120-128 | the items with the product's quantity set, none when absent; the length is kept (meaning proved by `Cart.SetQuantityMeaning`) |
| Cart.RemoveItem | backend/api/cart.py:143-151 | the items without the product's item, none when absent; one item shorter (meaning proved by `Cart.RemoveItemMeaning`) |
| Cart.AddItemsMeaning | backend/api/cart.py:64-91 | adding succeeds iff stock >= quantity in cart + added, else 400 naming product and stock; on success the product's quantity is old + added, all other products are unchanged, and there is still one item per product |
| Cart.AddItemsWellFormed | backend/api/cart.py:85-91 | a successful add keeps one item per product and only the new item uses a fresh id |
| Cart.AddTwiceExample | backend/api/cart.py:70-76 | adding 2 then 3 of a product with stock 4: the second add is refused and the cart keeps its one item of 2 |
| Cart.SetQuantityMeaning | backend/api/cart.py:120-128 | setting fails iff the cart has no item for the product; otherwise that product's quantity becomes the new absolute value and all other products are unchanged |
| Cart.SetQuantityWellFormed | backend/api/cart.py:128 | setting a quantity keeps one item per product and adds no id |
| Cart.RemoveItemMeaning | backend/api/cart.py:143-151 | removal fails iff the product has no item; otherwise exactly that item is deleted and every other item stays |
| Cart.RemoveItemWellFormed | backend/api/cart.py:151 | removal keeps one item per product and adds no id |
| Cart.FindItem | backend/api/cart.py:64-68 | the search loop returns the first item of the product, as `ItemIndex` |
| Cart.GetOrCreateCart | backend/api/cart.py:16-35 | an existing cart is returned and nothing changes; otherwise one empty cart is stored for an existing user, or 404 with nothing changed |
| Cart.MergeItem | backend/api/cart.py:64-91 | merge-or-append computes exactly `AddItems` (the old + added rule, stock-checked) |
| Cart.SaveCart | backend/api/cart.py:93-94 | committing a cart stores it under its owner, advances the clock and changes no other table |
| Cart.AddToCart | backend/api/cart.py:48-96 | no cart for an unknown user (404); unknown product 404; otherwise the `AddItems` outcome, with the cart timestamp refreshed on success; stock is never changed; the invariant holds |
| Cart.UpdateCartItem | backend/api/cart.py:98-132 | checks in order: unknown product 404, stock < new quantity 400, item not in cart 404; else the quantity is set and the timestamp refreshed; stock never changes |
| Cart.RemoveFromCart | backend/api/cart.py:134-155 | 404 when the product has no item; otherwise exactly that item is removed and the timestamp refreshed; stock never changes |
| Orders.FirstProblem | backend/api/orders.py:35-41 | the error of the first item, in cart order, whose product is missing or short of stock (meaning proved by `Orders.FirstProblemMeaning`) |
| Orders.CartTotal | backend/api/orders.py:32-43 | the sum over the items of price x quantity (proved equal to the line subtotals by `Orders.LinesSumToTotal`) |
| Orders.OrderLines | backend/api/orders.py:54-65 | one order line per cart item, in cart order |
| Orders.OrderLinesSnapshot | backend/api/orders.py:58-64 | each line belongs to the order, copies its item's product and quantity, snapshots the product's current price, and has subtotal = unit price x quantity |
| Orders.AfterCheckout | backend/api/orders.py:54-56 | the product table after checkout has the same products, each stock reduced by the quantity ordered (effect proved by `Orders.CheckoutStockEffect`) |
| Orders.FirstProblemMeaning | backend/api/orders.py:35-41 | checkout is refused iff some item is not orderable, and then with the first such item's problem |
| Orders.FirstProblemOfPrefix | backend/api/orders.py:35-41 | the first problem found in a prefix of the cart is the cart's first problem |
| Orders.LinesSumToTotal | backend/api/orders.py:42-65 | the subtotals of the order lines sum to the order total |
| Orders.OrderedUnique | backend/api/orders.py:54-56 | with one item per product, the quantity ordered of a product is its item's quantity, or 0 |
| Orders.CheckoutStockEffect | backend/api/orders.py:54-56 | each ordered product's stock drops by exactly its item's quantity; products not in the cart are unchanged |
| Orders.CheckoutKeepsStockNonNegative | backend/api/orders.py:37 | the per-item stock check keeps stock >= 0 because a cart holds one item per product |
| Orders.DuplicateItemsOverdraw | backend/api/orders.py:37 | without one item per product, two items of 2 pass the per-item check against stock 3 and leave -1 |
| Orders.CheckoutExample | backend/api/orders.py:32-65 | 3 units at 500 cents with stock 10 check out to total 1500, stock 7 and one line snapshotting price 500 and subtotal 1500 |
| Orders.CheckCart | backend/api/orders.py:32-43 | the check loop fails with the first problem of the cart, else returns the sum of price x quantity |
| Orders.AfterCheckoutStep | backend/api/orders.py:54-56 | one decrement step extends the stock effect by one item |
| Orders.DecrementAndRecord | backend/api/orders.py:54-65 | the decrement loop yields the product table after checkout and one line per item with the product's price and price x quantity |
| Orders.CheckoutKeepsConsistent | backend/api/orders.py:45-69 | committing a checkout keeps the database invariant |
| Orders.CommitCheckout | backend/api/orders.py:51-69 | the commit adds the order, stores the decremented stock, empties the cart but keeps it, and keeps the database invariant; users and messaging are untouched |
| Orders.CreateOrder | backend/api/orders.py:17-82 | missing or empty cart: 400 and nothing changes; a failing item: its error and nothing changes; else one order (owner, "pendiente", total, price-snapshot lines), stock decremented, cart emptied but kept, and line subtotals summing to the total |
| Orders.UserOrders | backend/api/orders.py:90-92 | the list holds exactly the caller's orders |
| Orders.UserOrdersNewestFirst | backend/api/orders.py:90-92 | the caller's orders are listed newest first |
| Orders.FindOrder | backend/api/orders.py:102-104 | finds an order with the id, and finds none iff no order has it |
| Orders.OrderDetails | backend/api/orders.py:102-110 | 404 iff no order has the id, 403 iff the order belongs to another user, else the caller's order |
| Catalog.Lower | backend/api/products.py:28-33 | lower-casing keeps the length and maps each character |
| Catalog.LowerIdempotent | backend/api/products.py:28-33 | lower-casing an already lower-cased text changes nothing |
| Catalog.ILikeIgnoresCase | backend/api/products.py:28-33 | a search gives the same answer whatever the case of its term or of the searched text |
| Catalog.ContainsFound | backend/api/products.py:28-33 | a substring match is a contiguous occurrence |
| Catalog.OccurrenceFound | backend/api/products.py:28-33 | every contiguous occurrence is a substring match |
| Catalog.ContainsMeaning | backend/api/products.py:28-33 | `%term%` matches iff the term occurs contiguously |
| Catalog.Select | backend/api/products.py:28-41 | the reference filter keeps exactly the rows that match every given condition |
| Catalog.Where | backend/api/products.py:30-41 | one filter call keeps exactly the rows satisfying its condition |
| Catalog.HoldsAllAppend | backend/api/products.py:28-41 | adding a condition to the query conjoins it |
| Catalog.ConditionsMeaning | backend/api/products.py:28-41 | the conditions the query collects hold iff the product matches the filter: text filters only when non-empty, price bounds whenever given, both inclusive, and a missing description never matches |
| Catalog.WhereNothing | backend/api/products.py:57 | the unfiltered query returns every row |
| Catalog.WhereMore | backend/api/products.py:28-41 | one more filter narrows the query to the rows that also satisfy its condition |
| Catalog.MaybeWhere | backend/api/products.py:28-41 | a condition applied only when given equals adding it only when given |
| Catalog.WhereAllSelects | backend/api/products.py:28-41 | conditions equivalent to the filter select exactly the filter's rows |
| Catalog.ApplyProductFilters | backend/api/products.py:17-42 | the chained query keeps exactly the rows that match the filter, and never more rows than it was given |
| Catalog.FiltersAreConjunction | backend/api/products.py:17-42 | the chain of optional filters returns exactly the matching rows in their order |
| Catalog.ListProducts | backend/api/products.py:46-63 | a listed page holds at most `limit` products, all from the table and all matching the filter |
| Catalog.CountProducts | backend/api/products.py:65-79 | the count is at most the number of rows, and 0 exactly when no row matches the filter |
| Catalog.CountCoversPages | backend/api/products.py:46-79 | each of the counted products appears on its page, and pages starting past the count are empty and no others are |
| Catalog.DistinctIdsCount | backend/api/products.py:78 | distinct rows are counted once each |
| Catalog.SelectDistinct | backend/api/products.py:28-41 | filtering keeps rows distinct |
| Catalog.CountIsMatchingProducts | backend/api/products.py:65-79 | whatever order the rows come in, the count is the number of products of the table that match the filter |
| Catalog.GetProduct | backend/api/products.py:81-86 | 404 iff no product has the id, else that product |
| Catalog.NewProduct | backend/api/products.py:95 | the created product carries exactly the payload, a fresh id and the insertion time |
| Catalog.Overwrite | backend/api/products.py:113-114 | the updated product carries exactly the new payload, with the same id and insertion time |
| Catalog.OverwriteUndone | backend/api/products.py:113-114 | writing the old payload back restores the product |
| Catalog.RequireAdmin | backend/dependencies.py:65-75 | the caller passes iff its role is "admin", else 403 |
| Catalog.CreateProduct | backend/api/products.py:88-99 | non-administrator: 403 and nothing changes; else exactly one new product under a fresh id |
| Catalog.UpdateProduct | backend/api/products.py:101-118 | 403 for a non-administrator, then 404 for an unknown id, both changing nothing; else only that product is overwritten |
| Catalog.DeleteProduct | backend/api/products.py:120-133 | 403 for a non-administrator, then 404 for an unknown id; a product some order line refers to is not deleted (500, the commit violating the order lines' NOT NULL foreign key); all three change nothing; else only that product is removed |
| Messaging.NatToString | backend/api/messages.py:270 | the conversation id in the subject is written in decimal: digits that spell the id, with no leading zero |
| Messaging.UnreadSenders | backend/api/messages.py:25-28 | a user counts iff they sent the caller at least one record that is still unread |
| Messaging.UnreadNotificationCount | backend/api/messages.py:18-30 | the badge is 0 exactly when no record addressed to the user is unread |
| Messaging.UnreadCountBounded | backend/api/messages.py:25-30 | the badge counts distinct senders, so it never exceeds the number of unread records |
| Messaging.LatestIndices | backend/api/messages.py:42-59 | selects exactly the records with row number 1 in their partner's partition, in decreasing position |
| Messaging.LatestPerPartner | backend/api/messages.py:42-73 | every listed record is in the table and involves the caller |
| Messaging.PartnersDistinct | backend/api/messages.py:42-59 | no partner is listed twice |
| Messaging.LatestNewestFirst | backend/api/messages.py:71-73 | the list is newest first |
| Messaging.LastWith | backend/api/messages.py:50-53 | finds the last record with a given partner, or shows there is none |
| Messaging.LatestCoversPartners | backend/api/messages.py:42-59 | every partner is listed with a record at least as recent as any other with that partner |
| Messaging.UnreadInThreadIsFromPartner | backend/api/messages.py:88-98 | a conversation's unread count is the number of unread records its partner sent the caller |
| Messaging.GetUserConversations | backend/api/messages.py:35-110 | one summary per listed record, in list order, with the latest message view and the unread count |
| Messaging.Thread | backend/api/messages.py:213-224 | the thread holds exactly the records between the two users, in both directions |
| Messaging.ThreadSymmetric | backend/api/messages.py:216-223 | the thread is the same whichever of the two users asks |
| Messaging.ThreadNewestFirst | backend/api/messages.py:224 | the thread is newest first |
| Messaging.LatestBetween | backend/api/messages.py:125-137 | finds a record between the pair in either direction, and finds none iff there is none |
| Messaging.LatestBetweenIsNewest | backend/api/messages.py:125-137 | the record create-or-get finds is the most recent between the pair: none between them was sent later |
| Messaging.AppendedIsLatest | backend/api/messages.py:125-140 | a record just added between the pair is what the next lookup returns |
| Messaging.MarkThreadRead | backend/api/messages.py:184-197 | exactly the unread records from the partner to the caller become read; all others are unchanged |
| Messaging.MarkMessagesRead | backend/api/messages.py:199-209 | exactly the messages of the marked records get estado "leido" |
| Messaging.ReadingClearsPartner | backend/api/messages.py:184-197 | after reading, the partner no longer counts towards the badge and every other sender still does |
| Messaging.ReadingLeavesNothingUnread | backend/api/messages.py:184-197 | after reading, no unread record from the partner to the caller remains |
| Messaging.Views | backend/api/messages.py:229-240 | the response holds at most one view per record |
| Messaging.ViewsComplete | backend/api/messages.py:229-240 | when every message exists, there is exactly one view per record, in order |
| Messaging.CollectViews | backend/api/messages.py:229-242 | the response loop builds exactly `Views` |
| Messaging.SaveMessaging | backend/api/messages.py:163 | each messaging commit (here and at lines 211 and 293) stores exactly the new messages and records, advances ids and clock, keeps the invariant and changes no other table |
| Messaging.CreateOrGetConversation | backend/api/messages.py:113-171 | self gives 400; an existing record between the pair in either direction is returned with nothing changed; an unknown recipient gives 404; else one message ("leido") and one read record are added |
| Messaging.CreateOrGetTwice | backend/api/messages.py:125-140 | when the first call succeeds, a second identical call returns the same record |
| Messaging.GetConversationMessages | backend/api/messages.py:174-242 | the partner's unread records to the caller and their messages are marked read and nothing else changes; the result is one page of the pair's thread, newest first, with exactly one view per record on the page |
| Messaging.FindRecord | backend/api/messages.py:254-256 | finds the record with the id, and finds none iff no record has it |
| Messaging.SendMessage | backend/api/messages.py:245-306 | unknown conversation 404, non-participant 403, both changing nothing; else one "no_leido" message and one unread record from the caller to the other participant, returned with leido false |
| Messaging.SendingNotifies | backend/api/messages.py:283-289 | a sent message makes its sender count towards the recipient's badge |
| Messaging.SentMessageOnTop | backend/api/messages.py:283-289 | a sent message is the newest entry of the pair's thread |
| Auth.NewUser | backend/api/auth.py:38-45 | the new row stores the hash of the password (not the password), fresh id, "activo" and "cliente" |
| Auth.AppendKeepsAccountsUnique | backend/api/auth.py:23-35 | an account with a new email and user name keeps emails, user names and ids pairwise unique |
| Auth.RegisterKeepsConsistent | backend/api/auth.py:47-48 | a registration passing both checks keeps the database invariant |
| Auth.RegisterUser | backend/api/auth.py:14-51 | email taken: 400, checked first; then user name taken: 400; both change nothing; else exactly one account is appended and nothing else changes |
| Auth.FindLogin | backend/api/auth.py:65-68 | finds the first account whose user name or email is the identifier, and none iff no account has it |
| Auth.Login | backend/api/auth.py:54-85 | succeeds iff an account is found and the password verifies, else the same 401; the token carries sub = user name and user_id = id, type "bearer" |
| Auth.LoginByEmail | backend/api/auth.py:65-68 | with unique accounts, logging in by an email finds that email's account unless another account uses it as a user name |
| Auth.RegisterThenLogin | backend/api/auth.py:14-85 | a freshly registered account can log in with its user name and password |

## Left out

- Concurrency and transaction isolation: handlers run one at a time. Checkout's rollback is modelled by writing nothing on failure.
- Floating-point and DECIMAL money: prices and totals are integer cents.
- Unicode case folding in `ilike`: `Catalog.Lower` folds ASCII only.
- LIKE wildcards (`%`, `_`) inside a search term: the term is matched as plain text.
- SQL row order of the product listing: it is the `rows` parameter. A `.first()` without ORDER BY (login, conversation and order lookups) is taken in table order.
- Window-function tie-breaking: record times are strictly increasing, so ties cannot occur.
- Foreign keys and cascades, beyond the order lines' reference to their product (which `Catalog.DeleteProduct` models): the cart-item table is not among the models, so its foreign key is not known. The model lets a product in some cart be deleted. A checkout of that cart then fails with 500 (`InternalError`), as the handler's attribute access would. If the database refuses such a delete, that state never arises.
- Columns the handlers never read or write are omitted: payment method, delivery date, last access, message type, contact email, participation type.
- Participants in responses are reduced to user ids, and response serialisation is not modelled.
- Password hashing, password verification, token signing and the token's `exp` claim: they are parameters, and the clock behind `exp` is not modelled.
- Token decoding (`get_current_user`): the caller is a parameter.
- Cart.GetOrCreateCart, Cart.AddToCart, Cart.UpdateCartItem, Cart.RemoveFromCart, Orders.CreateOrder, Orders.UserOrders, Orders.OrderDetails: as written, every one of these requests fails with 500. The handler indexes the `models.Usuario` it receives from `get_current_user` as a dictionary, which raises a TypeError. The model takes the caller's id, as the code evidently intends, and does not model that failure.
- The registration body schema is not part of this model's sources. Its fields are taken to be the account's columns plus the password.
- Query and body validation (422): `page >= 1`, `1 <= limit <= 100`, and the `Schemas` constraints are preconditions of the handlers. `Schemas.Parse*` model the validation itself.
- `get_cart` (backend/api/cart.py:39-46) is `Cart.GetOrCreateCart` with no further logic.
- Cart.AddToCart, Cart.UpdateCartItem, Cart.RemoveFromCart: the cart that get-or-create commits stays stored even when the handler then fails. The contracts state this.
- Catalog.UpdateProduct: an update body that omits stock resets the stock to 0, because `Schemas.ParseProduct` fills in the default before the update.
- Catalog.ListProducts: its own contract states size and membership. The exact page contents are stated by `Catalog.CountCoversPages` and `Paging.Page`.
- Messaging.CreateOrGetTwice: it states that the second call returns the same record. That the second call also changes no table follows from `Messaging.CreateOrGetConversation`'s existing-record case; the method does not restate it.
- Auth.LoginByEmail, Auth.RegisterThenLogin: one account's user name may equal another account's email, and then login finds whichever comes first in table order. These lemmas assume that does not happen.
