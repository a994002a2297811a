# Event-sourced shopping cart, modelled in Dafny

This project models the core of an event-sourced shopping-cart service: a cart
aggregate that validates commands and records each accepted one as a domain
event, the pure fold that rebuilds the cart from its events, and the
"active carts" projection that keeps one row per cart still in progress.

- `shopping_cart.dfy` (module `CartDomain`): the immutable cart record. A
  `LineItem` is a product id, a name and a quantity; a `Cart` is an id, its
  lines in insertion order and a checked-out flag. `AddItem` merges into the
  line for the same product or appends; `RemoveItem` filters out a product;
  `FindItemByProductId` returns the first match; `CheckOut` sets the flag. All
  are functions over `seq<LineItem>`.
- `cart_events.dfy` (module `CartEvents`): the closed three-variant event union
  `ItemAdded` / `ItemRemoved` / `CartCheckedOut`, each carrying the cart id, and
  the persisted type tags.
- `cart_entity.dfy` (module `CartEntity`): each command handler is a pure
  function from the current state to an `Effect`, either `Reject(reason)` or
  `Persist(event)`. The guards run in the source's order. `ApplyEvent` and
  `Fold` rebuild the state. The class `ShoppingCartEntity` holds the current
  `state` and the append-only `log`. Its invariant is
  `state == Fold(EmptyState(entityId), log)`, and every logged event is one the
  handlers would have accepted (`ValidHistory`). The methods `AddItem`,
  `RemoveItem` and `Checkout` carry out the effect. The method
  `AddTwiceThenRemoveUnknown` is a client scenario. It adds the same product
  twice (1 + 5 gives one line of 6), then removes an unknown product, which is
  rejected with `NotFound`.
- `active_carts.dfy` (module `ActiveCarts`): the projection table is a
  `map<string, int>` from cart id to last-update time. `UpdateTable` handles
  one event. `Project` handles a stream of events. The class `ActiveCartsView`
  updates the table in place with `OnEvent`. `ListActiveCarts` returns all rows
  with the latest first, and `GetActiveCart` looks up one cart.
- `consistency.dfy` (module `CartConsistency`): relates the table to the cart.
  A cart with at least one event has a row exactly when it is not checked
  out, stamped with its last event's time.

Resolutions of points where the source is not self-consistent:

- The entity builds its events without a cart id
  (`ShoppingCartEntity.java:41`, `:58`, `:75`). The event records, however,
  require one (`ShoppingCartEvent.java:11-17`). In this model every emitted
  event carries the entity's own id, which the constructor receives.
- The checkout handler of the projection deletes "the row" without naming a key
  (`ActiveCartsView.java:28`). Here it deletes the row keyed by the event's cart
  id, which is the cart the event came from.
- The entity test expects quantities 10 and 15 from inputs 1 and 5
  (`ShoppingCartEntityTest.java:26`, `:44`). The model follows the code, which
  gives 1 and then one merged line of 6. The client scenario shows this.
- `AddItem` follows the code literally when product ids are not unique. Every
  line for the product gets the first match's quantity plus the new one.
  On the well-formed carts that commands produce there is only one such line
  (`AddItemMerges`, `HistoryInvariants`).

Exhaustiveness of event handling is enforced by Dafny itself. `ApplyEvent`,
`Emits` and `UpdateTable` all `match` on `Event`, and a missing variant is a
resolution error. Replaying the same log twice gives the same cart because
`Fold` is a function.

## Model

| member | source | states |
|---|---|---|
| `CartDomain.WithQuantity` | src/main/java/Shoppingcart/domain/ShoppingCart.java:9-13 | the new line keeps product id and name and has the given quantity |
| `CartDomain.FindItemByProductId` | src/main/java/Shoppingcart/domain/ShoppingCart.java:42-45 | empty exactly when no line has the product; otherwise a line for the product with no earlier line for it |
| `CartDomain.FindUnique` | src/main/java/Shoppingcart/domain/ShoppingCart.java:42-45 | with unique product ids, the found line is the one at the index holding the product |
| `CartDomain.AddItem` | src/main/java/Shoppingcart/domain/ShoppingCart.java:15-31 | keeps cart id and flag; an absent product is appended (earlier lines unchanged, length + 1); a present one keeps length, positions and names, changes only matching lines, whose quantity becomes first match's + added |
| `CartDomain.AddItemMerges` | src/main/java/Shoppingcart/domain/ShoppingCart.java:19-25 | with unique ids, the matching line becomes (same product, same name, old + new quantity) and every other line is unchanged |
| `CartDomain.AddItemPreservesWellFormed` | src/main/java/Shoppingcart/domain/ShoppingCart.java:15-31 | unique product ids and positive quantities survive adding a positive quantity |
| `CartDomain.WithoutProduct` | src/main/java/Shoppingcart/domain/ShoppingCart.java:35-37 | no kept line has the product; a line is kept exactly when it was there and is for another product |
| `CartDomain.WithoutProductConcat` | src/main/java/Shoppingcart/domain/ShoppingCart.java:35-37 | filtering distributes over concatenation, so kept lines stay in their original order |
| `CartDomain.WithoutAbsent` | src/main/java/Shoppingcart/domain/ShoppingCart.java:35-37 | removing an absent product returns the lines unchanged |
| `CartDomain.WithoutPresentUnique` | src/main/java/Shoppingcart/domain/ShoppingCart.java:34-40 | with unique ids, removing the product at index i gives exactly the lines before i followed by those after i |
| `CartDomain.WithoutProductPreservesWellFormed` | src/main/java/Shoppingcart/domain/ShoppingCart.java:34-40 | removal keeps product ids unique and quantities positive |
| `CartDomain.RemoveItem` | src/main/java/Shoppingcart/domain/ShoppingCart.java:34-40 | keeps cart id and flag; no line has the product afterwards; every other line is kept |
| `CartDomain.CheckOut` | src/main/java/Shoppingcart/domain/ShoppingCart.java:48-50 | the cart is checked out with the same id and lines |
| `CartEvents.TypeName` | src/main/java/Shoppingcart/domain/ShoppingCartEvent.java:10-17 | each variant has its own tag: "item-added", "item-removed", "cart-checked-out" |
| `CartEvents.TypeNameIdentifiesVariant` | src/main/java/Shoppingcart/domain/ShoppingCartEvent.java:10-16 | two events share a tag exactly when they are the same variant |
| `CartEntity.EmptyState` | src/main/java/Shoppingcart/application/ShoppingCartEntity.java:27-29 | the initial cart has the entity's id, no lines and is not checked out |
| `CartEntity.AddItemEffect` | src/main/java/Shoppingcart/application/ShoppingCartEntity.java:31-46 | a checked-out cart rejects with CheckedOut before the quantity is looked at; quantity <= 0 rejects with NonPositiveQuantity; otherwise exactly one ItemAdded with the given item |
| `CartEntity.RemoveItemEffect` | src/main/java/Shoppingcart/application/ShoppingCartEntity.java:48-63 | CheckedOut first, then NotFound when no line has the product; otherwise exactly one ItemRemoved |
| `CartEntity.CheckoutEffect` | src/main/java/Shoppingcart/application/ShoppingCartEntity.java:65-80 | AlreadyCheckedOut first, then EmptyCart; otherwise exactly one CartCheckedOut |
| `CartEntity.ApplyEvent` | src/main/java/Shoppingcart/application/ShoppingCartEntity.java:86-94 | keeps the cart id; checked out afterwards exactly when it was already or the event is the checkout; checkout leaves lines alone; a removal leaves no line for the product |
| `CartEntity.Fold` | src/main/java/Shoppingcart/application/ShoppingCartEntity.java:87-94 | replay keeps the cart id; the result is checked out exactly when the start was or some event in the log is a checkout |
| `CartEntity.FoldAppend` | src/main/java/Shoppingcart/application/ShoppingCartEntity.java:87-94 | replaying log + [e] is applying e to the replay of log |
| `CartEntity.StepInvariants` | src/main/java/Shoppingcart/application/ShoppingCartEntity.java:31-94 | an accepted event is the cart's own, is accepted only before checkout, keeps the lines well-formed, and checks out (a non-empty cart) exactly when it is the checkout |
| `CartEntity.HistoryInvariants` | src/main/java/Shoppingcart/application/ShoppingCartEntity.java:31-94 | on any history the commands produce: same cart id, unique products, positive quantities, all events for this cart, only the last event may be a checkout, checked out iff the last event is the checkout, checked-out carts are non-empty |
| `CartEntity.CheckoutIsTerminal` | src/main/java/Shoppingcart/application/ShoppingCartEntity.java:32-92 | once the log holds a checkout, the state is checked out and all three commands are rejected |
| `CartEntity.ShoppingCartEntity.constructor` | src/main/java/Shoppingcart/application/ShoppingCartEntity.java:23-29 | a new entity has an empty log and the empty state for its id |
| `CartEntity.ShoppingCartEntity.Append` | src/main/java/Shoppingcart/application/ShoppingCartEntity.java:43-45 | persisting appends exactly the event and folds it into the state, keeping state == fold of the log |
| `CartEntity.ShoppingCartEntity.AddItem` | src/main/java/Shoppingcart/application/ShoppingCartEntity.java:31-46 | a rejection replies with its reason and leaves state and log unchanged; an acceptance replies Done, appends exactly the one event and applies it |
| `CartEntity.ShoppingCartEntity.RemoveItem` | src/main/java/Shoppingcart/application/ShoppingCartEntity.java:48-63 | as AddItem, for the removal handler |
| `CartEntity.ShoppingCartEntity.Checkout` | src/main/java/Shoppingcart/application/ShoppingCartEntity.java:65-80 | as AddItem, for the checkout handler |
| `CartEntity.ShoppingCartEntity.GetCart` | src/main/java/Shoppingcart/application/ShoppingCartEntity.java:82-84 | reads only: returns the fold of the log, a well-formed cart with the entity's id; if checked out, it is non-empty and the last event is the checkout |
| `ActiveCarts.UpdateTable` | src/main/java/Shoppingcart/projections/ActiveCartsView.java:21-29 | ItemAdded and ItemRemoved upsert the event's cart row with the given time; CartCheckedOut deletes it (absent is a no-op); all other rows are unchanged |
| `ActiveCarts.UpdateTableIdempotent` | src/main/java/Shoppingcart/projections/ActiveCartsView.java:24-28 | handling the same event twice equals handling it once at the later time, and gives the same keys as handling it once |
| `ActiveCarts.Project` | src/main/java/Shoppingcart/projections/ActiveCartsView.java:21-29 | a cart with no event in the stream keeps or lacks its row as before |
| `ActiveCarts.ProjectRow` | src/main/java/Shoppingcart/projections/ActiveCartsView.java:21-29 | after any stream, a cart has a row exactly when its last event is an addition or removal, and the row holds that event's time |
| `ActiveCarts.GetActiveCart` | src/main/java/Shoppingcart/projections/ActiveCartsView.java:38-41 | at most one entry; none exactly when the cart has no row; the entry carries the cart id and its row's time |
| `ActiveCarts.LookupAgreesWithListing` | src/main/java/Shoppingcart/projections/ActiveCartsView.java:33-41 | the point lookup returns exactly the entries of the full listing with that cart id |
| `ActiveCarts.ActiveCartsView.constructor` | src/main/java/Shoppingcart/projections/ActiveCartsView.java:15-19 | the table starts empty, with no event handled |
| `ActiveCarts.ActiveCartsView.OnEvent` | src/main/java/Shoppingcart/projections/ActiveCartsView.java:21-30 | the table becomes UpdateTable of the old table, and stays the projection of every event handled so far |
| `ActiveCarts.ActiveCartsView.ListActiveCarts` | src/main/java/Shoppingcart/projections/ActiveCartsView.java:33-36 | returns every row exactly once with its time, ordered by time descending |
| `CartConsistency.ActiveRowMatchesCart` | src/main/java/Shoppingcart/projections/ActiveCartsView.java:21-29 | projecting a non-empty command-produced log gives the cart a row exactly when the cart is not checked out, stamped with the last event's time |

## Left out

- The HTTP endpoints (`ShoppingCartEndpoint.java`, `ActiveCartsEndpoint.java`) are left out. They only translate requests, and the cart endpoint replies OK even when a command is rejected.
- The framework machinery is left out: effects, entity context, component client, event delivery and the SQL text of the queries. Instead the model has an explicit log, explicit `Effect` and `Reply` values, and the queries written as a map lookup and a loop.
- Logging is left out. It has no effect on behaviour.
- The wall clock is left out. The time of a projection update is a parameter (`now`, `times`).
- Concurrency, per-cart serialisation, at-least-once delivery, log durability, persistence failures and snapshots are left out. These are guarantees of the framework, not of this code.
- Error messages are modelled as the `Rejection` enumeration, not the source's strings.
- `CartDomain.AddItem` does not model 32-bit wrap-around of the quantity sum, because quantities are unbounded integers.
- The `ActiveCartEntry` and `ActiveCartEntries` types are not part of this model. A row is modelled as (cart id, last-update time), and a query result as a sequence of rows.
- `ActiveCarts.Project` states only the unchanged-row case in its own contract. The full row characterisation is `ActiveCarts.ProjectRow`.
- Ties in `lastUpdated` may be listed in any order, as with an SQL `ORDER BY` on a non-unique column.
