/**
 * The order log replays to the order: an order's recorded steps form one path
 * from "placed" to its row's status, every step inside its time limit, and a
 * sale is recorded exactly once, for exactly the sales.
 */
module OrderLog {
  import opened Wrappers
  import opened Lots
  import opened LotInvariant

  /** One order's steps, oldest first. */
  function Trail(log: seq<OrderEvent>, o: Id): seq<OrderEvent> {
    if log == [] then []
    else
      var n := |log| - 1;
      Trail(log[..n], o) + (if log[n].orderId == o then [log[n]] else [])
  }

  /** One order's selling events. */
  function Sales(history: seq<PassportEvent>, o: Id): seq<PassportEvent> {
    if history == [] then []
    else
      var n := |history| - 1;
      Sales(history[..n], o) + (if history[n].SoldTo? && history[n].orderId == o then [history[n]] else [])
  }

  predicate StatusEdge(from: OrderStatus, action: LoggedAction, to: OrderStatus) {
    match action
    case Placed => false
    case Person(a) => from in From(a) && (to == To(a) || (a.ResolveDispute? && to.Cancelled?))
    case Limit(Lapse) => from.Pending? && to.Cancelled?
    case Limit(AutoComplete) => from.Confirmed? && to.Completed?
  }

  /** The status a trail leads to, if it is a path along the transition table at all. */
  function Replay(trail: seq<OrderEvent>): Option<OrderStatus> {
    if trail == [] then None
    else
      var n := |trail| - 1;
      var e := trail[n];
      if n == 0 then (if e.action.Placed? && e.from.None? && e.to.Pending? then Some(Pending) else None)
      else
        match Replay(trail[..n])
        case None => None
        case Some(status) =>
          if e.from == Some(status) && StatusEdge(status, e.action, e.to) then Some(e.to) else None
  }

  /** Steps only go up in this order, so an order has at most three after placing. */
  function Rank(status: OrderStatus): nat {
    match status
    case Pending => 0
    case Confirmed => 1
    case Disputed => 2
    case Completed => 3
    case Resolved => 3
    case Cancelled => 3
  }

  lemma {:induction false} AtMostThreeSteps(trail: seq<OrderEvent>)
    requires Replay(trail).Some?
    ensures 1 <= |trail| <= 1 + Rank(Replay(trail).value) <= 4
  {
    if |trail| > 1 {
      AtMostThreeSteps(trail[..|trail| - 1]);
    }
  }

  /** A person's step beats the deadline it races; a time limit's does not come early. */
  predicate Timely(e: OrderEvent, o: Order) {
    match e.action
    case Placed => true
    case Person(a) =>
      && (e.from == Some(Pending) ==> e.at < ResponseDeadlineOf(o))
      && (e.from == Some(Confirmed) ==> o.disputeDeadline.Some? && e.at < o.disputeDeadline.value)
      && (a.Accept? ==> o.disputeDeadline == Some(e.at + DISPUTE_WINDOW_MS))
    case Limit(Lapse) => ResponseDeadlineOf(o) <= e.at
    case Limit(AutoComplete) => o.disputeDeadline.Some? && o.disputeDeadline.value <= e.at
  }

  ghost predicate AllTimely(trail: seq<OrderEvent>, o: Order) {
    forall i :: 0 <= i < |trail| ==> Timely(trail[i], o)
  }

  function SaleOf(s: State, o: Id): PassportEvent
    requires o < |s.orders|
  {
    var order := s.orders[o];
    SoldTo(s.listings[order.listingId].passportId, o, order.buyerId, order.quantity, order.amountPence)
  }

  ghost predicate OrderLogOk(s: State, o: Id)
    requires o < |s.orders|
  {
    var order := s.orders[o];
    && Replay(Trail(s.log, o)) == Some(order.status)
    && AllTimely(Trail(s.log, o), order)
    && Sales(s.history, o) == if IsSale(order.status) then [SaleOf(s, o)] else []
  }

  ghost predicate LogOk(s: State) {
    && (forall o :: 0 <= o < |s.orders| ==> OrderLogOk(s, o))
    && (forall o :: |s.orders| <= o ==> Trail(s.log, o) == [] && Sales(s.history, o) == [])
  }

  // ---------------------------------------------------------------------------
  // Each operation keeps it
  // ---------------------------------------------------------------------------

  lemma TrailAppend(log: seq<OrderEvent>, e: OrderEvent, o: Id)
    ensures Trail(log + [e], o) == Trail(log, o) + (if e.orderId == o then [e] else [])
  {
    assert (log + [e])[..|log|] == log;
  }

  lemma SalesAppend(history: seq<PassportEvent>, e: PassportEvent, o: Id)
    ensures Sales(history + [e], o) == Sales(history, o) + (if e.SoldTo? && e.orderId == o then [e] else [])
  {
    assert (history + [e])[..|history|] == history;
  }

  /** Rows and logs of every order but one are as they were. */
  lemma OthersLogged(s: State, t: State, except: Id)
    requires LogOk(s) && |s.listings| <= |t.listings| && |s.orders| <= |t.orders|
    requires forall l :: 0 <= l < |s.listings| ==> t.listings[l].passportId == s.listings[l].passportId
    requires forall o :: 0 <= o < |s.orders| && o != except ==> t.orders[o] == s.orders[o]
    requires forall o: Id :: o != except ==>
               Trail(t.log, o) == Trail(s.log, o) && Sales(t.history, o) == Sales(s.history, o)
    requires |t.orders| > |s.orders| ==> |t.orders| == |s.orders| + 1 && except == |s.orders|
    requires |t.orders| == |s.orders| ==> Trail(t.log, |t.orders|) == [] && Sales(t.history, |t.orders|) == []
    requires except < |t.orders| ==> OrderLogOk(t, except)
    requires except >= |t.orders| ==> Trail(t.log, except) == [] && Sales(t.history, except) == []
    ensures LogOk(t)
  {
    forall o | 0 <= o < |t.orders|
      ensures OrderLogOk(t, o)
    {
      assert o != except ==> OrderLogOk(s, o);
    }
  }

  /** Operations that write no order and record no sale. */
  lemma ListingOpKeepsLog(s: State, t: State)
    requires LogOk(s) && t.orders == s.orders && t.log == s.log && |s.listings| <= |t.listings|
    requires forall l :: 0 <= l < |s.listings| ==> t.listings[l].passportId == s.listings[l].passportId
    requires t.history == s.history || exists e: PassportEvent :: e.OfferedForSale? && t.history == s.history + [e]
    ensures LogOk(t)
  {
    if t.history != s.history {
      var e: PassportEvent :| e.OfferedForSale? && t.history == s.history + [e];
      forall o: Id ensures Sales(t.history, o) == Sales(s.history, o) {
        SalesAppend(s.history, e, o);
      }
    }
    OthersLogged(s, t, |s.orders|);
  }

  /** Settling a lot writes no order row and no log, and moves no listing to another passport. */
  lemma SettleFrame(s: State, l: Id, edited: Listing, available: int, reopen: bool)
    requires l < |s.listings| && edited.passportId == s.listings[l].passportId
    ensures var t := SettleLot(s, l, edited, available, reopen);
            && t.orders == s.orders && t.log == s.log && t.history == s.history
            && |t.listings| == |s.listings| && |t.passports| == |s.passports|
            && (forall k :: 0 <= k < |s.listings| ==> t.listings[k].passportId == s.listings[k].passportId)
  {
  }

  /** What an order step writes outside the lot. */
  lemma StepRows(s: State, o: Id, step: StepRecord)
    requires o < |s.orders|
    ensures var t := ApplyStep(s, o, step); var order := s.orders[o];
            && t.orders == s.orders[o := Moved(order, step)]
            && t.log == s.log
                 + [OrderEvent(o, step.action, Some(order.status), step.to, step.actorId, step.side, step.now)]
            && t.history == s.history + (if IsSale(step.to) then [SaleOf(t, o)] else [])
            && |t.listings| == |s.listings| && |t.passports| == |s.passports|
            && (forall k :: 0 <= k < |s.listings| ==> t.listings[k].passportId == s.listings[k].passportId)
  {
    var order := s.orders[o];
    var listing := s.listings[order.listingId];
    SettleFrame(s.(orders := s.orders[o := Moved(order, step)]), order.listingId, listing,
                Min(listing.quantity, listing.available + Returned(order, step)), false);
  }

  /** What an accepted offer writes outside the lot. */
  lemma OfferRows(s: State, input: OfferInput, buyer: Viewer, keepLast: bool, now: Time)
    requires MakeOffer(s, input, buyer, keepLast, now).Ok?
    ensures var t := MakeOffer(s, input, buyer, keepLast, now).value; var listing := s.listings[input.listingId];
            && |t.orders| == |s.orders| + 1 && t.orders[..|s.orders|] == s.orders
            && DecideOffer(listing, s.passports[listing.passportId].curated, input, buyer, keepLast, now)
                 == Ok(t.orders[|s.orders|])
            && t.log == s.log + [OrderEvent(|s.orders|, Placed, None, Pending, Some(buyer.userId), BuyerSide, now)]
            && t.history == s.history
            && |t.listings| == |s.listings| && |t.passports| == |s.passports|
            && (forall k :: 0 <= k < |s.listings| ==> t.listings[k].passportId == s.listings[k].passportId)
  {
    var listing := s.listings[input.listingId];
    var o := DecideOffer(listing, s.passports[listing.passportId].curated, input, buyer, keepLast, now).value;
    var event := OrderEvent(|s.orders|, Placed, None, Pending, Some(buyer.userId), BuyerSide, now);
    SettleFrame(s.(orders := s.orders + [o], log := s.log + [event]), input.listingId, listing,
                listing.available - o.quantity, false);
  }

  /** Replaying a trail one step further. */
  lemma ReplayAppend(trail: seq<OrderEvent>, e: OrderEvent)
    requires trail != [] && Replay(trail).Some? && e.from == Replay(trail)
    requires StatusEdge(Replay(trail).value, e.action, e.to)
    ensures Replay(trail + [e]) == Some(e.to)
  {
    assert (trail + [e])[..|trail|] == trail;
  }

  /** An order's earlier steps stay timely when it moves. */
  lemma MovedTimely(trail: seq<OrderEvent>, o: Order, step: StepRecord)
    requires OrderOk(o) && Replay(trail) == Some(o.status) && AllTimely(trail, o) && Edge(o, step)
    requires step.action.Person? ==> TimedStep(o, step.now).None?
    ensures var e := OrderEvent(0, step.action, Some(o.status), step.to, step.actorId, step.side, step.now);
            Timely(e, Moved(o, step))
    ensures AllTimely(trail, Moved(o, step))
  {
    AtMostThreeSteps(trail);
    forall i | 0 <= i < |trail|
      ensures Timely(trail[i], Moved(o, step))
    {
      assert Timely(trail[i], o);
    }
  }

  lemma OfferKeepsLog(s: State, input: OfferInput, buyer: Viewer, keepLast: bool, now: Time)
    requires LogOk(s)
    ensures var r := MakeOffer(s, input, buyer, keepLast, now); r.Ok? ==> LogOk(r.value)
  {
    var r := MakeOffer(s, input, buyer, keepLast, now);
    if r.Ok? {
      OfferRows(s, input, buyer, keepLast, now);
      var t, n := r.value, |s.orders|;
      var e := OrderEvent(n, Placed, None, Pending, Some(buyer.userId), BuyerSide, now);
      forall o: Id
        ensures Trail(t.log, o) == Trail(s.log, o) + (if o == n then [e] else [])
      {
        TrailAppend(s.log, e, o);
      }
      assert Trail(t.log, n) == [e];
      assert Timely(e, t.orders[n]);
      forall o | 0 <= o < n
        ensures t.orders[o] == s.orders[o]
      {
        assert t.orders[..n][o] == s.orders[o];
      }
      OthersLogged(s, t, n);
    }
  }

  lemma StepKeepsLog(s: State, o: Id, step: StepRecord)
    requires Inv(s) && LogOk(s) && o < |s.orders| && Edge(s.orders[o], step)
    requires step.action.Person? ==> TimedStep(s.orders[o], step.now).None?
    ensures LogOk(ApplyStep(s, o, step))
  {
    var t := ApplyStep(s, o, step);
    StepRows(s, o, step);
    StepTrails(s, o, step);
    StepIsLogged(s, o, step);
    OthersLogged(s, t, o);
  }

  /** What a step adds to the records, by order. */
  lemma StepTrails(s: State, o: Id, step: StepRecord)
    requires o < |s.orders|
    ensures var t := ApplyStep(s, o, step);
            var e := OrderEvent(o, step.action, Some(s.orders[o].status), step.to, step.actorId, step.side, step.now);
            forall q: Id ::
              && Trail(t.log, q) == Trail(s.log, q) + (if q == o then [e] else [])
              && Sales(t.history, q) == Sales(s.history, q) + (if q == o && IsSale(step.to) then [SaleOf(t, o)] else [])
  {
    var t := ApplyStep(s, o, step);
    var e := OrderEvent(o, step.action, Some(s.orders[o].status), step.to, step.actorId, step.side, step.now);
    StepRows(s, o, step);
    forall q: Id
      ensures Trail(t.log, q) == Trail(s.log, q) + (if q == o then [e] else [])
      ensures Sales(t.history, q) == Sales(s.history, q) + (if q == o && IsSale(step.to) then [SaleOf(t, o)] else [])
    {
      TrailAppend(s.log, e, q);
      if IsSale(step.to) {
        SalesAppend(s.history, SaleOf(t, o), q);
      } else {
        assert t.history == s.history;
      }
    }
  }

  /** The order that moved is still logged as it should be. */
  lemma StepIsLogged(s: State, o: Id, step: StepRecord)
    requires Inv(s) && LogOk(s) && o < |s.orders| && Edge(s.orders[o], step)
    requires step.action.Person? ==> TimedStep(s.orders[o], step.now).None?
    ensures o < |ApplyStep(s, o, step).orders| && OrderLogOk(ApplyStep(s, o, step), o)
  {
    StepRows(s, o, step);
    StepTrails(s, o, step);
    assert OrderLogOk(s, o) && OrderOk(s.orders[o]);
    LongerTrail(Trail(s.log, o), s.orders[o], o, step);
    assert !IsSale(s.orders[o].status);
  }

  /** A step on an order lengthens its path, in time. */
  lemma LongerTrail(trail: seq<OrderEvent>, o: Order, id: Id, step: StepRecord)
    requires OrderOk(o) && Replay(trail) == Some(o.status) && AllTimely(trail, o) && Edge(o, step)
    requires step.action.Person? ==> TimedStep(o, step.now).None?
    ensures var e := OrderEvent(id, step.action, Some(o.status), step.to, step.actorId, step.side, step.now);
            Replay(trail + [e]) == Some(step.to) && AllTimely(trail + [e], Moved(o, step))
  {
    var e := OrderEvent(id, step.action, Some(o.status), step.to, step.actorId, step.side, step.now);
    ReplayAppend(trail, e);
    MovedTimely(trail, o, step);
    forall i | 0 <= i < |trail + [e]|
      ensures Timely((trail + [e])[i], Moved(o, step))
    {
      if i < |trail| {
        assert Timely(trail[i], Moved(o, step));
      }
    }
  }

  /** Once a time limit has taken its step at `now`, none is due on that order at `now`. */
  lemma NothingDueAfterClosing(s: State, o: Id, now: Time)
    requires o < |s.orders|
    ensures CloseIfOverdue(s, o, now).orders
         == s.orders[o := if Due(s, o, now).None? then s.orders[o]
                          else Moved(s.orders[o], TimedRecord(Due(s, o, now).value, now))]
    ensures Due(CloseIfOverdue(s, o, now), o, now).None?
  {
  }

  lemma CloseKeepsLog(s: State, o: Id, now: Time)
    requires Inv(s) && LogOk(s)
    ensures LogOk(CloseIfOverdue(s, o, now))
  {
    if Due(s, o, now).Some? {
      StepKeepsLog(s, o, TimedRecord(Due(s, o, now).value, now));
    }
  }

  lemma ActKeepsLog(s: State, o: Id, input: ActInput, viewer: Viewer, now: Time)
    requires Inv(s) && LogOk(s)
    ensures Inv(UpdateTransaction(s, o, input, viewer, now).0)
    ensures LogOk(UpdateTransaction(s, o, input, viewer, now).0)
  {
    CloseKeeps(s, o, now);
    CloseKeepsLog(s, o, now);
    var s1, timedOut := CloseIfOverdue(s, o, now), Due(s, o, now);
    TakeStepKeeps(s1, o, input, viewer, timedOut, now);
    if TakeStep(s1, o, input, viewer, timedOut, now).Ok? {
      NothingDueAfterClosing(s, o, now);
      var listing := s1.listings[s1.orders[o].listingId];
      StepKeepsLog(s1, o, DecideStep(s1.orders[o], listing, input, viewer, timedOut, now).value);
    }
  }
}
