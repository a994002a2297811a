/** The event-sourced cart aggregate. A command is decided against the current
    state: it is rejected with no event, or it persists exactly one event,
    which is then folded into the state. The state is always the fold of the
    event log from the empty cart. */
module CartEntity {
  import opened CartDomain
  import opened CartEvents

  /** Why a command was rejected. */
  datatype Rejection = CheckedOut | NonPositiveQuantity | NotFound | AlreadyCheckedOut | EmptyCart

  /** What a command handler decides: reject, or persist one event. */
  datatype Effect = Reject(reason: Rejection) | Persist(event: Event)

  /** What the caller of a command receives. */
  datatype Reply = Done | Error(reason: Rejection)

  /** The state of a cart before any event. */
  function EmptyState(entityId: string): (s: Cart)
    ensures s.cartId == entityId && s.items == [] && !s.checkedOut
    ensures WellFormed(s.items)
  {
    Cart(entityId, [], false)
  }

  /** Adding is refused on a checked-out cart, then for a non-positive
      quantity (in that order); otherwise the item is recorded as added. */
  function AddItemEffect(entityId: string, state: Cart, item: LineItem): (r: Effect)
    ensures r.Persist? <==> !state.checkedOut && item.quantity > 0
    ensures r.Persist? ==> r.event == ItemAdded(entityId, item)
    ensures state.checkedOut ==> r == Reject(CheckedOut)
    ensures !state.checkedOut && item.quantity <= 0 ==> r == Reject(NonPositiveQuantity)
  {
    if state.checkedOut then Reject(CheckedOut)
    else if item.quantity <= 0 then Reject(NonPositiveQuantity)
    else Persist(ItemAdded(entityId, item))
  }

  /** Removing is refused on a checked-out cart, then when no line holds the
      product; otherwise the product is recorded as removed. */
  function RemoveItemEffect(entityId: string, state: Cart, productId: string): (r: Effect)
    ensures r.Persist? <==> !state.checkedOut && HasProduct(state.items, productId)
    ensures r.Persist? ==> r.event == ItemRemoved(entityId, productId)
    ensures state.checkedOut ==> r == Reject(CheckedOut)
    ensures !state.checkedOut && !HasProduct(state.items, productId) ==> r == Reject(NotFound)
  {
    if state.checkedOut then Reject(CheckedOut)
    else if FindItemByProductId(state.items, productId).None? then Reject(NotFound)
    else Persist(ItemRemoved(entityId, productId))
  }

  /** Checking out is refused on a checked-out cart, then on an empty cart;
      otherwise the checkout is recorded. */
  function CheckoutEffect(entityId: string, state: Cart): (r: Effect)
    ensures r.Persist? <==> !state.checkedOut && |state.items| > 0
    ensures r.Persist? ==> r.event == CartCheckedOut(entityId)
    ensures state.checkedOut ==> r == Reject(AlreadyCheckedOut)
    ensures !state.checkedOut && state.items == [] ==> r == Reject(EmptyCart)
  {
    if state.checkedOut then Reject(AlreadyCheckedOut)
    else if state.items == [] then Reject(EmptyCart)
    else Persist(CartCheckedOut(entityId))
  }

  /** Folds one event into the state: each variant maps to its cart operation. */
  function ApplyEvent(state: Cart, e: Event): (r: Cart)
    ensures r.cartId == state.cartId
    ensures r.checkedOut <==> state.checkedOut || e.CartCheckedOut?
    ensures e.CartCheckedOut? ==> r.items == state.items
    ensures e.ItemRemoved? ==> !HasProduct(r.items, e.productId)
  {
    match e
    case ItemAdded(_, item) => AddItem(state, item)
    case ItemRemoved(_, productId) => RemoveItem(state, productId)
    case CartCheckedOut(_) => CheckOut(state)
  }

  /** Replays a log, oldest event first. Checkout is sticky: the result is
      checked out exactly when the start was or some event is a checkout. */
  function Fold(state: Cart, log: seq<Event>): (r: Cart)
    ensures r.cartId == state.cartId
    ensures r.checkedOut <==> state.checkedOut || exists i :: 0 <= i < |log| && log[i].CartCheckedOut?
    decreases |log|
  {
    if log == [] then state else Fold(ApplyEvent(state, log[0]), log[1..])
  }

  /** Replaying a longer log is replaying the shorter one and then the last event. */
  lemma {:induction false} FoldAppend(state: Cart, log: seq<Event>, e: Event)
    ensures Fold(state, log + [e]) == ApplyEvent(Fold(state, log), e)
    decreases |log|
  {
    if log == [] {
      assert [] + [e] == [e];
      assert [e][1..] == [];
    } else {
      assert (log + [e])[0] == log[0];
      assert (log + [e])[1..] == log[1..] + [e];
      FoldAppend(ApplyEvent(state, log[0]), log[1..], e);
    }
  }

  /** `e` is the event the cart's command handler would persist from `state`. */
  ghost predicate Emits(entityId: string, state: Cart, e: Event)
  {
    match e
    case ItemAdded(_, item) => AddItemEffect(entityId, state, item) == Persist(e)
    case ItemRemoved(_, productId) => RemoveItemEffect(entityId, state, productId) == Persist(e)
    case CartCheckedOut(_) => CheckoutEffect(entityId, state) == Persist(e)
  }

  /** Every event of the log was accepted by a command against the fold of the
      events before it. */
  ghost predicate ValidHistory(entityId: string, log: seq<Event>)
    decreases |log|
  {
    log == [] ||
    (var n := |log| - 1;
     ValidHistory(entityId, log[..n]) && Emits(entityId, Fold(EmptyState(entityId), log[..n]), log[n]))
  }

  /** One accepted event keeps the cart well-formed and belongs to the cart;
      it is accepted only on a cart not yet checked out, and it checks the
      cart out exactly when it is the checkout, which needs a non-empty cart. */
  lemma StepInvariants(entityId: string, before: Cart, e: Event)
    requires Emits(entityId, before, e)
    requires WellFormed(before.items)
    ensures e.cartId == entityId && !before.checkedOut
    ensures WellFormed(ApplyEvent(before, e).items)
    ensures ApplyEvent(before, e).checkedOut <==> e.CartCheckedOut?
    ensures ApplyEvent(before, e).checkedOut ==> |ApplyEvent(before, e).items| > 0
  {
    match e {
      case ItemAdded(_, item) =>
        AddItemPreservesWellFormed(before, item);
      case ItemRemoved(_, productId) =>
        WithoutProductPreservesWellFormed(before.items, productId);
      case CartCheckedOut(_) =>
    }
  }

  /** What every history the commands can produce guarantees: the cart keeps
      its identity, unique products and positive quantities; every event is
      this cart's; only the last event can be a checkout; the cart is checked
      out exactly when the last event is the checkout, and a checked-out cart
      is not empty. */
  lemma {:induction false} HistoryInvariants(entityId: string, log: seq<Event>)
    requires ValidHistory(entityId, log)
    ensures Fold(EmptyState(entityId), log).cartId == entityId
    ensures WellFormed(Fold(EmptyState(entityId), log).items)
    ensures forall i :: 0 <= i < |log| ==> log[i].cartId == entityId
    ensures forall i :: 0 <= i < |log| - 1 ==> !log[i].CartCheckedOut?
    ensures Fold(EmptyState(entityId), log).checkedOut <==> |log| > 0 && log[|log| - 1].CartCheckedOut?
    ensures Fold(EmptyState(entityId), log).checkedOut ==> |Fold(EmptyState(entityId), log).items| > 0
    decreases |log|
  {
    if log != [] {
      var n := |log| - 1;
      var prefix, e := log[..n], log[n];
      assert log == prefix + [e];
      HistoryInvariants(entityId, prefix);
      var before := Fold(EmptyState(entityId), prefix);
      FoldAppend(EmptyState(entityId), prefix, e);
      StepInvariants(entityId, before, e);
      forall i | 0 <= i < n ensures log[i] == prefix[i] { }
    }
  }

  /** Checkout is terminal: once any checkout is in the log, the replayed
      cart is checked out and all three commands are rejected, so no further
      event is ever appended. */
  lemma CheckoutIsTerminal(entityId: string, log: seq<Event>, i: nat, item: LineItem, productId: string)
    requires i < |log| && log[i].CartCheckedOut?
    ensures Fold(EmptyState(entityId), log).checkedOut
    ensures AddItemEffect(entityId, Fold(EmptyState(entityId), log), item) == Reject(CheckedOut)
    ensures RemoveItemEffect(entityId, Fold(EmptyState(entityId), log), productId) == Reject(CheckedOut)
    ensures CheckoutEffect(entityId, Fold(EmptyState(entityId), log)) == Reject(AlreadyCheckedOut)
  {
  }

  /** A cart aggregate: its identity, its current state and its event log. */
  class ShoppingCartEntity {
    const entityId: string
    var state: Cart
    var log: seq<Event>

    /** The state is the replay of the log, and the log is a history the
        commands could have produced. */
    ghost predicate Valid()
      reads this
    {
      state == Fold(EmptyState(entityId), log) && ValidHistory(entityId, log)
    }

    constructor (entityId: string)
      ensures Valid()
      ensures this.entityId == entityId && log == [] && state == EmptyState(entityId)
    {
      this.entityId := entityId;
      state := EmptyState(entityId);
      log := [];
    }

    /** Appends an accepted event to the log and folds it into the state. */
    method Append(e: Event)
      requires Valid() && Emits(entityId, state, e)
      modifies this
      ensures Valid()
      ensures log == old(log) + [e] && state == ApplyEvent(old(state), e)
    {
      FoldAppend(EmptyState(entityId), log, e);
      assert (log + [e])[..|log|] == log;
      log := log + [e];
      state := ApplyEvent(state, e);
    }

    method AddItem(item: LineItem) returns (reply: Reply)
      requires Valid()
      modifies this
      ensures Valid()
      ensures match AddItemEffect(entityId, old(state), item)
        case Reject(why) => reply == Error(why) && state == old(state) && log == old(log)
        case Persist(e) => reply == Done && log == old(log) + [e] && state == ApplyEvent(old(state), e)
    {
      match AddItemEffect(entityId, state, item)
      case Reject(why) =>
        reply := Error(why);
      case Persist(e) =>
        Append(e);
        reply := Done;
    }

    method RemoveItem(productId: string) returns (reply: Reply)
      requires Valid()
      modifies this
      ensures Valid()
      ensures match RemoveItemEffect(entityId, old(state), productId)
        case Reject(why) => reply == Error(why) && state == old(state) && log == old(log)
        case Persist(e) => reply == Done && log == old(log) + [e] && state == ApplyEvent(old(state), e)
    {
      match RemoveItemEffect(entityId, state, productId)
      case Reject(why) =>
        reply := Error(why);
      case Persist(e) =>
        Append(e);
        reply := Done;
    }

    method Checkout() returns (reply: Reply)
      requires Valid()
      modifies this
      ensures Valid()
      ensures match CheckoutEffect(entityId, old(state))
        case Reject(why) => reply == Error(why) && state == old(state) && log == old(log)
        case Persist(e) => reply == Done && log == old(log) + [e] && state == ApplyEvent(old(state), e)
    {
      match CheckoutEffect(entityId, state)
      case Reject(why) =>
        reply := Error(why);
      case Persist(e) =>
        Append(e);
        reply := Done;
    }

    /** The current state: the replay of the log, which is a well-formed cart
        of this entity and is never an empty checked-out cart. */
    function GetCart(): (c: Cart)
      reads this
      requires Valid()
      ensures c == Fold(EmptyState(entityId), log)
      ensures c.cartId == entityId && WellFormed(c.items)
      ensures c.checkedOut ==> |c.items| > 0 && log[|log| - 1].CartCheckedOut?
    {
      HistoryInvariants(entityId, log);
      state
    }
  }

  /** Two additions of the same product merge into one line (1 + 5 = 6), and
      the aggregate then refuses to remove a product it does not hold. */
  method AddTwiceThenRemoveUnknown()
  {
    var cart := new ShoppingCartEntity("testkit-entity-id");
    var ram := LineItem("16GB-RAM", "Hynix RAM - 16 GB", 1);
    var reply := cart.AddItem(ram);
    assert reply == Done;
    reply := cart.AddItem(WithQuantity(ram, 5));
    assert reply == Done;
    assert |cart.log| == 2;
    var c := cart.GetCart();
    AddItemMerges(AddItem(EmptyState("testkit-entity-id"), ram), WithQuantity(ram, 5), 0);
    assert c.items == [WithQuantity(ram, 6)];
    reply := cart.RemoveItem("unknown-product");
    assert reply == Error(NotFound);
  }
}
