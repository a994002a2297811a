/** How the active-carts table relates to the carts whose events it handles. */
module CartConsistency {
  import opened CartDomain
  import opened CartEvents
  import opened CartEntity
  import opened ActiveCarts

  /** For a cart whose log the commands produced and that has at least one
      event, projecting that log gives the cart a row exactly when the cart is
      not checked out, and the row holds the time of the last event. */
  lemma ActiveRowMatchesCart(entityId: string, log: seq<Event>, times: seq<int>, rows: map<string, int>)
    requires ValidHistory(entityId, log)
    requires |times| == |log| && |log| > 0
    ensures entityId in Project(rows, log, times) <==> !Fold(EmptyState(entityId), log).checkedOut
    ensures entityId in Project(rows, log, times) ==> Project(rows, log, times)[entityId] == times[|log| - 1]
  {
    HistoryInvariants(entityId, log);
    assert LastIndexFor(log, entityId) == Some(|log| - 1);
    ProjectRow(rows, log, times, entityId);
  }
}
