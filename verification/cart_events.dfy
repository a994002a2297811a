/** The domain events of a cart. The union is closed: every `match` over an
    `Event` must handle all three variants, and Dafny checks that it does. */
module CartEvents {
  import opened CartDomain

  /** Each event names the cart it belongs to. An added item travels whole;
      a removal carries only the product id; a checkout carries nothing more. */
  datatype Event =
    | ItemAdded(cartId: string, item: LineItem)
    | ItemRemoved(cartId: string, productId: string)
    | CartCheckedOut(cartId: string)

  /** The tag under which an event is persisted. */
  function TypeName(e: Event): (tag: string)
    ensures e.ItemAdded? <==> tag == "item-added"
    ensures e.ItemRemoved? <==> tag == "item-removed"
    ensures e.CartCheckedOut? <==> tag == "cart-checked-out"
  {
    match e
    case ItemAdded(_, _) => "item-added"
    case ItemRemoved(_, _) => "item-removed"
    case CartCheckedOut(_) => "cart-checked-out"
  }

  /** Two events share a tag exactly when they are the same variant, so the
      persisted tag identifies the variant. */
  lemma TypeNameIdentifiesVariant(e1: Event, e2: Event)
    ensures TypeName(e1) == TypeName(e2) <==>
      (e1.ItemAdded? && e2.ItemAdded?) ||
      (e1.ItemRemoved? && e2.ItemRemoved?) ||
      (e1.CartCheckedOut? && e2.CartCheckedOut?)
  {
  }
}
