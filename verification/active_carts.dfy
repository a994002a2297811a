/** The active-carts projection: a table keyed by cart id, holding the time
    of each cart's last change, kept up to date one event at a time. A cart
    has a row while it is being filled and loses it at checkout. */
module ActiveCarts {
  import opened CartDomain
  import opened CartEvents

  /** One row of the table. */
  datatype ActiveCartEntry = ActiveCartEntry(cartId: string, lastUpdated: int)

  /** The table after one event handled at time `now`: an addition or removal
      writes the cart's row with that time, a checkout deletes the cart's row
      (nothing happens if there is none), and no other row changes. */
  function UpdateTable(rows: map<string, int>, e: Event, now: int): (r: map<string, int>)
    ensures !e.CartCheckedOut? ==> e.cartId in r && r[e.cartId] == now
    ensures e.CartCheckedOut? ==> e.cartId !in r
    ensures forall k :: k != e.cartId ==> (k in r <==> k in rows)
    ensures forall k :: k != e.cartId && k in rows ==> r[k] == rows[k]
  {
    match e
    case ItemAdded(cartId, _) => rows[cartId := now]
    case ItemRemoved(cartId, _) => rows[cartId := now]
    case CartCheckedOut(cartId) => rows - {cartId}
  }

  /** Handling an event again, at any later time, gives the table that
      handling it once at that time gives: the same rows, the same keys. */
  lemma UpdateTableIdempotent(rows: map<string, int>, e: Event, first: int, again: int)
    ensures UpdateTable(UpdateTable(rows, e, first), e, again) == UpdateTable(rows, e, again)
    ensures UpdateTable(UpdateTable(rows, e, first), e, again).Keys == UpdateTable(rows, e, first).Keys
  {
  }

  /** The table after handling `events` in order, the i-th at `times[i]`. */
  function Project(rows: map<string, int>, events: seq<Event>, times: seq<int>): (r: map<string, int>)
    requires |times| == |events|
    ensures forall k :: (forall i :: 0 <= i < |events| ==> events[i].cartId != k) ==>
      (k in r <==> k in rows)
    decreases |events|
  {
    if events == [] then rows
    else
      var n := |events| - 1;
      UpdateTable(Project(rows, events[..n], times[..n]), events[n], times[n])
  }

  /** The index of the last event of `events` for `cartId`, if there is one. */
  function LastIndexFor(events: seq<Event>, cartId: string): (r: Option<nat>)
    ensures r.None? <==> forall i :: 0 <= i < |events| ==> events[i].cartId != cartId
    ensures r.Some? ==> r.value < |events| && events[r.value].cartId == cartId
    ensures r.Some? ==> forall j :: r.value < j < |events| ==> events[j].cartId != cartId
    decreases |events|
  {
    if events == [] then None
    else if events[|events| - 1].cartId == cartId then Some(|events| - 1)
    else LastIndexFor(events[..|events| - 1], cartId)
  }

  /** After handling any stream of events, a cart has a row exactly when its
      last event is an addition or a removal, and the row holds that event's
      time; a cart with no event keeps whatever row it had. */
  lemma {:induction false} ProjectRow(rows: map<string, int>, events: seq<Event>, times: seq<int>, cartId: string)
    requires |times| == |events|
    ensures match LastIndexFor(events, cartId)
      case None =>
        (cartId in Project(rows, events, times) <==> cartId in rows) &&
        (cartId in rows ==> Project(rows, events, times)[cartId] == rows[cartId])
      case Some(i) =>
        (cartId in Project(rows, events, times) <==> !events[i].CartCheckedOut?) &&
        (cartId in Project(rows, events, times) ==> Project(rows, events, times)[cartId] == times[i])
    decreases |events|
  {
    if events != [] {
      var n := |events| - 1;
      ProjectRow(rows, events[..n], times[..n], cartId);
      if events[n].cartId != cartId {
        assert LastIndexFor(events, cartId) == LastIndexFor(events[..n], cartId);
        match LastIndexFor(events, cartId) {
          case None =>
          case Some(i) => assert events[..n][i] == events[i] && times[..n][i] == times[i];
        }
      }
    }
  }

  /** The rows listed as `listing`: each table row exactly once, each with its
      time, latest change first. */
  ghost predicate IsListing(rows: map<string, int>, listing: seq<ActiveCartEntry>)
  {
    && (forall i :: 0 <= i < |listing| ==>
          listing[i].cartId in rows && listing[i].lastUpdated == rows[listing[i].cartId])
    && (forall k :: k in rows ==> ActiveCartEntry(k, rows[k]) in listing)
    && (forall i, j :: 0 <= i < j < |listing| ==> listing[i].cartId != listing[j].cartId)
    && (forall i, j :: 0 <= i < j < |listing| ==> listing[i].lastUpdated >= listing[j].lastUpdated)
  }

  /** The rows for `cartId`: at most one, since the table is keyed by cart id;
      none exactly when the cart has no row. */
  function GetActiveCart(rows: map<string, int>, cartId: string): (r: seq<ActiveCartEntry>)
    ensures |r| <= 1
    ensures r == [] <==> cartId !in rows
    ensures forall i :: 0 <= i < |r| ==> r[i].cartId == cartId && r[i].lastUpdated == rows[cartId]
  {
    if cartId in rows then [ActiveCartEntry(cartId, rows[cartId])] else []
  }

  /** A lookup returns exactly the entries of the full listing that carry
      the cart id: the point query agrees with the ordered scan. */
  lemma LookupAgreesWithListing(rows: map<string, int>, listing: seq<ActiveCartEntry>, cartId: string)
    requires IsListing(rows, listing)
    ensures forall e :: e in GetActiveCart(rows, cartId) <==> e in listing && e.cartId == cartId
  {
  }

  /** The projection's table, and (as a ghost record) the events it has
      handled with their times. */
  class ActiveCartsView {
    var rows: map<string, int>
    ghost var handled: seq<Event>
    ghost var times: seq<int>

    ghost predicate Valid()
      reads this
    {
      |times| == |handled| && rows == Project(map[], handled, times)
    }

    constructor ()
      ensures Valid() && rows == map[] && handled == [] && times == []
    {
      rows := map[];
      handled := [];
      times := [];
    }

    /** Handles one event at time `now`. */
    method OnEvent(e: Event, now: int)
      requires Valid()
      modifies this
      ensures Valid()
      ensures rows == UpdateTable(old(rows), e, now)
      ensures handled == old(handled) + [e] && times == old(times) + [now]
    {
      rows := UpdateTable(rows, e, now);
      handled := handled + [e];
      times := times + [now];
      assert handled[..|handled| - 1] == old(handled) && times[..|times| - 1] == old(times);
    }

    /** Every row, latest change first. */
    method ListActiveCarts() returns (listing: seq<ActiveCartEntry>)
      ensures IsListing(rows, listing)
    {
      listing := [];
      var remaining := rows.Keys;
      while remaining != {}
        invariant remaining <= rows.Keys
        invariant forall i :: 0 <= i < |listing| ==>
          listing[i].cartId in rows && listing[i].cartId !in remaining &&
          listing[i].lastUpdated == rows[listing[i].cartId]
        invariant forall k :: k in rows && k !in remaining ==> ActiveCartEntry(k, rows[k]) in listing
        invariant forall i, j :: 0 <= i < j < |listing| ==> listing[i].cartId != listing[j].cartId
        invariant forall i, j :: 0 <= i < j < |listing| ==> listing[i].lastUpdated >= listing[j].lastUpdated
        invariant forall i, k :: 0 <= i < |listing| && k in remaining ==> listing[i].lastUpdated >= rows[k]
        decreases remaining
      {
        var newest :| newest in remaining;
        var unseen := remaining - {newest};
        while unseen != {}
          invariant newest in remaining && unseen <= remaining
          invariant forall k :: k in remaining && k !in unseen ==> rows[k] <= rows[newest]
          decreases unseen
        {
          var k :| k in unseen;
          if rows[k] > rows[newest] {
            newest := k;
          }
          unseen := unseen - {k};
        }
        listing := listing + [ActiveCartEntry(newest, rows[newest])];
        remaining := remaining - {newest};
      }
    }
  }
}
