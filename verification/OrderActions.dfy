/**
 * What people may do to an order: the steps as documented, the steps as
 * decided, and the steps an order list offers are the same steps.
 */
module OrderActions {
  import opened Wrappers
  import opened Lots
  import opened LotInvariant
  import opened OrderLog
  import opened Sweep

  /** The order steps one by one, as their documentation draws them, with who takes each. */
  predicate Documented(from: OrderStatus, action: OrderAction, on: Standing, to: OrderStatus) {
    || (from == Pending && action == Accept && on.seller && to == Confirmed)
    || (from == Pending && action == Reject && on.seller && to == OrderStatus.Cancelled)
    || (from == Pending && action == Cancel && (on.buyer || on.seller) && to == OrderStatus.Cancelled)
    || (from == Confirmed && action == ConfirmDelivery && on.buyer && to == Completed)
    || (from == Confirmed && action == FlagDispute && on.buyer && to == Disputed)
    || (from == Confirmed && action == Cancel && (on.buyer || on.seller) && to == OrderStatus.Cancelled)
    || (from == Disputed && action == ResolveDispute && on.admin && to in {Resolved, OrderStatus.Cancelled})
  }

  /** A requested step is taken exactly when the documentation has it, and leads where it says. */
  lemma StepsAreAsDocumented(
    o: Order, l: Listing, input: ActInput, viewer: Viewer, timedOut: Option<TimedAction>, now: Time)
    ensures var r := DecideStep(o, l, input, viewer, timedOut, now);
            var on := StandingOf(viewer, o, l);
            && (r.Ok? <==> exists to :: Documented(o.status, input.action, on, to))
            && (r.Ok? ==>
                  && Documented(o.status, input.action, on, r.value.to)
                  && r.value.actorId == Some(viewer.userId)
                  && (r.value.to == OrderStatus.Cancelled <==>
                        input.action in {Reject, Cancel} || (input.action == ResolveDispute && input.cancelOrder)))
            && (r.Err? ==>
                  (r.error == Forbidden <==> forall from, to :: !Documented(from, input.action, on, to)))
  {
    var r := DecideStep(o, l, input, viewer, timedOut, now);
    var on := StandingOf(viewer, o, l);
    if r.Ok? {
      assert Documented(o.status, input.action, on, r.value.to);
    }
    if MayAct(By(input.action), on) {
      var from := SomeFrom(input.action);
      assert Documented(from, input.action, on, To(input.action));
    }
  }

  function SomeFrom(action: OrderAction): (from: OrderStatus)
    ensures from in From(action)
  {
    match action
    case Accept => Pending
    case Reject => Pending
    case Cancel => Pending
    case ConfirmDelivery => Confirmed
    case FlagDispute => Confirmed
    case ResolveDispute => Disputed
  }

  const ALL_ACTIONS: seq<OrderAction> := [Accept, Reject, Cancel, ConfirmDelivery, FlagDispute, ResolveDispute]

  function Offered(actions: seq<OrderAction>, status: OrderStatus, on: Standing): seq<OrderAction> {
    if actions == [] then []
    else
      var rest := Offered(actions[1..], status, on);
      if status in From(actions[0]) && MayAct(By(actions[0]), on) then [actions[0]] + rest else rest
  }

  /** The steps an order list offers its reader. */
  function AllowedActions(o: Order, l: Listing, viewer: Viewer): seq<OrderAction> {
    Offered(ALL_ACTIONS, o.status, StandingOf(viewer, o, l))
  }

  lemma {:induction false} OfferedAre(actions: seq<OrderAction>, status: OrderStatus, on: Standing, a: OrderAction)
    ensures a in Offered(actions, status, on) <==> a in actions && status in From(a) && MayAct(By(a), on)
  {
    if actions != [] {
      OfferedAre(actions[1..], status, on, a);
      assert actions == [actions[0]] + actions[1..];
    }
  }

  lemma EveryActionIsListed(a: OrderAction)
    ensures a in ALL_ACTIONS
  {
    match a
    case Accept => assert a == ALL_ACTIONS[0];
    case Reject => assert a == ALL_ACTIONS[1];
    case Cancel => assert a == ALL_ACTIONS[2];
    case ConfirmDelivery => assert a == ALL_ACTIONS[3];
    case FlagDispute => assert a == ALL_ACTIONS[4];
    case ResolveDispute => assert a == ALL_ACTIONS[5];
  }

  /**
   * A list read after its overdue orders are closed offers exactly the steps
   * that would be taken at that instant, on the tables as they were before.
   */
  lemma OfferedIsTaken(s: State, ids: seq<Id>, o: Id, input: ActInput, viewer: Viewer, now: Time)
    requires Inv(s) && o < |s.orders|
    requires forall q :: 0 <= q < |s.orders| && OverdueAt(s.orders[q], now) ==> q in ids
    ensures var shown := CloseAll(s, ids, now);
            && |shown.orders| == |s.orders| && |shown.listings| == |s.listings|
            && (input.action in AllowedActions(shown.orders[o], shown.listings[shown.orders[o].listingId], viewer) <==>
                  UpdateTransaction(s, o, input, viewer, now).1.Ok?)
  {
    var shown := CloseAll(s, ids, now);
    CloseAllPointwise(s, ids, now);
    QueryMatchesTimedStep(s.orders[o], now);
    assert shown.orders[o] == Closed(s.orders[o], now);
    var row := shown.orders[o];
    var l := row.listingId;
    ActPointwise(s, o, input, viewer, now);
    assert Bare(s.listings[l]) == Bare(shown.listings[l]);
    DecisionNeedsSkeletonOnly(row, s.listings[l], shown.listings[l], input, viewer,
                              TimedStep(s.orders[o], now), None, now);
    OfferedAre(ALL_ACTIONS, row.status, StandingOf(viewer, row, shown.listings[l]), input.action);
    EveryActionIsListed(input.action);
  }
}
