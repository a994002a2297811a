/** The shopping-cart value and its pure operations.
    A cart is an immutable record: every operation builds a new cart and
    leaves its argument as it was. */
module CartDomain {

  datatype Option<+T> = None | Some(value: T)

  /** One line of a cart: a product, its display name and how many of it.
      The product id is the line's identity within a cart. */
  datatype LineItem = LineItem(productId: string, name: string, quantity: int)

  /** A cart: its identity, its lines in insertion order, and whether it has
      been checked out. */
  datatype Cart = Cart(cartId: string, items: seq<LineItem>, checkedOut: bool)

  /** The same line with another quantity: product and name are kept. */
  function WithQuantity(li: LineItem, quantity: int): (r: LineItem)
    ensures r.productId == li.productId && r.name == li.name
    ensures r.quantity == quantity
  {
    li.(quantity := quantity)
  }

  /** Some line of `items` is for `productId`. */
  predicate HasProduct(items: seq<LineItem>, productId: string)
  {
    exists i :: 0 <= i < |items| && items[i].productId == productId
  }

  /** No two lines share a product id. */
  ghost predicate UniqueProducts(items: seq<LineItem>)
  {
    forall i, j :: 0 <= i < j < |items| ==> items[i].productId != items[j].productId
  }

  /** Every line holds a strictly positive quantity. */
  ghost predicate PositiveQuantities(items: seq<LineItem>)
  {
    forall i :: 0 <= i < |items| ==> items[i].quantity > 0
  }

  /** The data invariant of a cart's lines. */
  ghost predicate WellFormed(items: seq<LineItem>)
  {
    UniqueProducts(items) && PositiveQuantities(items)
  }

  /** The first line for `productId`, if there is one. */
  function FindItemByProductId(items: seq<LineItem>, productId: string): (r: Option<LineItem>)
    ensures r.None? <==> !HasProduct(items, productId)
    ensures r.Some? ==> r.value.productId == productId
    ensures r.Some? ==>
      exists i :: 0 <= i < |items| && items[i] == r.value &&
        forall j :: 0 <= j < i ==> items[j].productId != productId
    decreases |items|
  {
    if items == [] then None
    else if items[0].productId == productId then Some(items[0])
    else FindItemByProductId(items[1..], productId)
  }

  /** Under unique product ids, the line found is the one at the index that
      holds the product. */
  lemma FindUnique(items: seq<LineItem>, productId: string, i: nat)
    requires UniqueProducts(items)
    requires i < |items| && items[i].productId == productId
    ensures FindItemByProductId(items, productId) == Some(items[i])
  {
    var r := FindItemByProductId(items, productId);
    assert HasProduct(items, productId);
    var k :| 0 <= k < |items| && items[k] == r.value &&
      forall j :: 0 <= j < k ==> items[j].productId != productId;
    assert k == i;
  }

  /** Adds a line: merged into the line for the same product (which keeps
      its position and name), or appended at the end. */
  function AddItem(cart: Cart, item: LineItem): (r: Cart)
    ensures r.cartId == cart.cartId && r.checkedOut == cart.checkedOut
    ensures !HasProduct(cart.items, item.productId) ==> r.items == cart.items + [item]
    ensures HasProduct(cart.items, item.productId) ==>
      |r.items| == |cart.items| &&
      forall i :: 0 <= i < |cart.items| ==>
        r.items[i].productId == cart.items[i].productId &&
        r.items[i].name == cart.items[i].name &&
        (cart.items[i].productId != item.productId ==> r.items[i] == cart.items[i]) &&
        (cart.items[i].productId == item.productId ==>
          r.items[i].quantity == FindItemByProductId(cart.items, item.productId).value.quantity + item.quantity)
  {
    match FindItemByProductId(cart.items, item.productId)
    case Some(existing) =>
      var newQuantity := existing.quantity + item.quantity;
      var updated := seq(|cart.items|, i requires 0 <= i < |cart.items| =>
        if cart.items[i].productId == item.productId then WithQuantity(cart.items[i], newQuantity)
        else cart.items[i]);
      Cart(cart.cartId, updated, cart.checkedOut)
    case None =>
      Cart(cart.cartId, cart.items + [item], cart.checkedOut)
  }

  /** On a well-formed cart, adding to a present product adds the two
      quantities on that product's line and leaves every other line as it was. */
  lemma AddItemMerges(cart: Cart, item: LineItem, i: nat)
    requires UniqueProducts(cart.items)
    requires i < |cart.items| && cart.items[i].productId == item.productId
    ensures |AddItem(cart, item).items| == |cart.items|
    ensures AddItem(cart, item).items[i] ==
      LineItem(item.productId, cart.items[i].name, cart.items[i].quantity + item.quantity)
    ensures forall j :: 0 <= j < |cart.items| && j != i ==> AddItem(cart, item).items[j] == cart.items[j]
  {
    FindUnique(cart.items, item.productId, i);
    assert HasProduct(cart.items, item.productId);
  }

  /** Adding a positive quantity keeps product ids unique and quantities positive. */
  lemma AddItemPreservesWellFormed(cart: Cart, item: LineItem)
    requires WellFormed(cart.items) && item.quantity > 0
    ensures WellFormed(AddItem(cart, item).items)
  {
    var r := AddItem(cart, item).items;
    if HasProduct(cart.items, item.productId) {
      var i :| 0 <= i < |cart.items| && cart.items[i].productId == item.productId;
      AddItemMerges(cart, item, i);
    } else {
      forall j | 0 <= j < |cart.items|
        ensures r[j].productId != r[|cart.items|].productId
      {
        assert r[j] == cart.items[j];
      }
    }
  }

  /** The lines of `items` that are not for `productId`, in their original order. */
  function WithoutProduct(items: seq<LineItem>, productId: string): (r: seq<LineItem>)
    ensures |r| <= |items|
    ensures !HasProduct(r, productId)
    ensures forall li :: li in r <==> li in items && li.productId != productId
    decreases |items|
  {
    if items == [] then []
    else if items[0].productId == productId then WithoutProduct(items[1..], productId)
    else [items[0]] + WithoutProduct(items[1..], productId)
  }

  /** Filtering distributes over concatenation: the kept lines stay in order. */
  lemma {:induction false} WithoutProductConcat(a: seq<LineItem>, b: seq<LineItem>, productId: string)
    ensures WithoutProduct(a + b, productId) == WithoutProduct(a, productId) + WithoutProduct(b, productId)
    decreases |a|
  {
    if a == [] {
      assert a + b == b;
    } else {
      assert (a + b)[0] == a[0];
      assert (a + b)[1..] == a[1..] + b;
      WithoutProductConcat(a[1..], b, productId);
    }
  }

  /** Removing a product that no line holds leaves the lines as they were. */
  lemma {:induction false} WithoutAbsent(items: seq<LineItem>, productId: string)
    requires !HasProduct(items, productId)
    ensures WithoutProduct(items, productId) == items
    decreases |items|
  {
    if items != [] {
      assert items[0].productId != productId;
      assert !HasProduct(items[1..], productId) by {
        forall i | 0 <= i < |items[1..]| ensures items[1..][i].productId != productId {
          assert items[1..][i] == items[i + 1];
        }
      }
      WithoutAbsent(items[1..], productId);
      assert [items[0]] + items[1..] == items;
    }
  }

  /** A slice whose lines all hold other products has no line for `productId`. */
  lemma SliceLacksProduct(items: seq<LineItem>, productId: string, lo: nat, hi: nat)
    requires lo <= hi <= |items|
    requires forall j :: lo <= j < hi ==> items[j].productId != productId
    ensures !HasProduct(items[lo..hi], productId)
  {
    forall k | 0 <= k < hi - lo ensures items[lo..hi][k].productId != productId {
      assert items[lo..hi][k] == items[lo + k];
    }
  }

  /** With unique product ids, removing the product at index i drops exactly that line. */
  lemma WithoutPresentUnique(items: seq<LineItem>, productId: string, i: nat)
    requires UniqueProducts(items)
    requires i < |items| && items[i].productId == productId
    ensures WithoutProduct(items, productId) == items[..i] + items[i + 1..]
  {
    var pre, post := items[..i], items[i + 1..];
    assert items == pre + ([items[i]] + post);
    SliceLacksProduct(items, productId, 0, i);
    SliceLacksProduct(items, productId, i + 1, |items|);
    assert items[0..i] == pre && items[i + 1..|items|] == post;
    calc {
      WithoutProduct(items, productId);
      { WithoutProductConcat(pre, [items[i]] + post, productId); }
      WithoutProduct(pre, productId) + WithoutProduct([items[i]] + post, productId);
      { WithoutProductConcat([items[i]], post, productId); }
      WithoutProduct(pre, productId) + (WithoutProduct([items[i]], productId) + WithoutProduct(post, productId));
      { WithoutAbsent(pre, productId); WithoutAbsent(post, productId); DropsMatchingLine(items[i], productId); }
      pre + ([] + post);
    }
  }

  /** A one-line sequence for `productId` filters to nothing. */
  lemma DropsMatchingLine(li: LineItem, productId: string)
    requires li.productId == productId
    ensures WithoutProduct([li], productId) == []
  {
    assert [li][1..] == [];
  }

  /** Filtering keeps product ids unique and quantities positive. */
  lemma {:induction false} WithoutProductPreservesWellFormed(items: seq<LineItem>, productId: string)
    requires WellFormed(items)
    ensures WellFormed(WithoutProduct(items, productId))
    decreases |items|
  {
    if items != [] {
      var rest := WithoutProduct(items[1..], productId);
      assert WellFormed(items[1..]) by {
        forall i, j | 0 <= i < j < |items[1..]|
          ensures items[1..][i].productId != items[1..][j].productId
        {
          assert items[1..][i] == items[i + 1] && items[1..][j] == items[j + 1];
        }
      }
      WithoutProductPreservesWellFormed(items[1..], productId);
      if items[0].productId != productId {
        var r := [items[0]] + rest;
        forall j | 1 <= j < |r| ensures r[0].productId != r[j].productId {
          assert r[j] in items[1..];
          var k :| 0 <= k < |items[1..]| && items[1..][k] == r[j];
          assert items[1..][k] == items[k + 1];
        }
      }
    }
  }

  /** Removes every line for `productId`, keeping the other lines in order. */
  function RemoveItem(cart: Cart, productId: string): (r: Cart)
    ensures r.cartId == cart.cartId && r.checkedOut == cart.checkedOut
    ensures !HasProduct(r.items, productId)
    ensures forall li :: li in r.items <==> li in cart.items && li.productId != productId
  {
    Cart(cart.cartId, WithoutProduct(cart.items, productId), cart.checkedOut)
  }

  /** Marks the cart as checked out; identity and lines are kept. */
  function CheckOut(cart: Cart): (r: Cart)
    ensures r.checkedOut
    ensures r.cartId == cart.cartId && r.items == cart.items
  {
    cart.(checkedOut := true)
  }
}
