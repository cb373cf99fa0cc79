/**
 * Time limits: the sweep, and a person's action racing it.
 *
 * The tables under the invariant are a function of their order rows and of
 * what no order step touches (the skeleton). Closing overdue orders changes
 * order rows pointwise and keeps the skeleton, so the order of closing, and
 * what a person does in between, cannot show in the result.
 */
module Sweep {
  import opened Wrappers
  import opened Lots
  import opened LotInvariant
  import opened OrderLog

  const SWEEP_LIMIT := 500

  // ---------------------------------------------------------------------------
  // The skeleton determines the tables
  // ---------------------------------------------------------------------------

  /** A listing without what follows from its orders. */
  function Bare(l: Listing): Listing {
    if IsLive(l.status) then l.(available := 0, status := Active) else l.(available := 0)
  }

  ghost function BarePassport(s: State, p: Id): Passport
    requires p < |s.passports|
  {
    if HasLive(s, p) then s.passports[p].(status := Listed) else s.passports[p]
  }

  /** Two states that differ at most in orders, logs and what follows from the orders. */
  ghost predicate SameSkeleton(s: State, t: State) {
    && |s.listings| == |t.listings| && |s.passports| == |t.passports| && |s.orders| == |t.orders|
    && (forall l :: 0 <= l < |s.listings| ==> Bare(s.listings[l]) == Bare(t.listings[l]))
    && (forall p :: 0 <= p < |s.passports| ==> BarePassport(s, p) == BarePassport(t, p))
  }

  ghost predicate SameTables(s: State, t: State) {
    s.listings == t.listings && s.orders == t.orders && s.passports == t.passports
  }

  lemma SameLiveness(s: State, t: State)
    requires |s.listings| == |t.listings|
    requires forall l :: 0 <= l < |s.listings| ==> Bare(s.listings[l]) == Bare(t.listings[l])
    ensures forall l, p :: 0 <= l < |s.listings| ==> LiveOn(s, l, p) == LiveOn(t, l, p)
    ensures forall p :: HasLive(s, p) == HasLive(t, p)
  {
    forall l, p | 0 <= l < |s.listings|
      ensures LiveOn(s, l, p) == LiveOn(t, l, p)
    {
      assert Bare(s.listings[l]) == Bare(t.listings[l]);
    }
  }

  /** Under the invariant, order rows and skeleton leave nothing open. */
  lemma SkeletonDetermines(s: State, t: State)
    requires Inv(s) && Inv(t) && SameSkeleton(s, t) && s.orders == t.orders
    ensures SameTables(s, t)
  {
    SameLiveness(s, t);
    forall l | 0 <= l < |s.listings|
      ensures s.listings[l] == t.listings[l]
    {
      assert Bare(s.listings[l]) == Bare(t.listings[l]) && LotOk(s, l) && LotOk(t, l);
    }
    forall p | 0 <= p < |s.passports|
      ensures s.passports[p] == t.passports[p]
    {
      assert BarePassport(s, p) == BarePassport(t, p);
      if HasLive(s, p) {
        var l :| 0 <= l < |s.listings| && LiveOn(s, l, p);
        assert LotOk(s, l) && LotOk(t, l);
      }
    }
  }

  /** An order step keeps the skeleton. */
  lemma StepKeepsSkeleton(s: State, o: Id, step: StepRecord)
    requires Inv(s) && o < |s.orders|
    ensures SameSkeleton(s, ApplyStep(s, o, step))
  {
    var t := ApplyStep(s, o, step);
    StepRows(s, o, step);
    var l0 := s.orders[o].listingId;
    forall l | 0 <= l < |s.listings|
      ensures Bare(s.listings[l]) == Bare(t.listings[l])
    {
    }
    SameLiveness(s, t);
    forall p | 0 <= p < |s.passports|
      ensures BarePassport(s, p) == BarePassport(t, p)
    {
      if s.passports[p] != t.passports[p] {
        assert LiveOn(s, l0, p);
      }
    }
  }

  // ---------------------------------------------------------------------------
  // Closing overdue orders
  // ---------------------------------------------------------------------------

  /** An order row once its time limit, if one has passed, has taken its step. */
  function Closed(o: Order, now: Time): Order {
    match TimedStep(o, now)
    case None => o
    case Some(timed) => o.(status := TimedTo(timed))
  }

  /** The record a time limit leaves on an order, if it takes a step. */
  function ClosingEvents(o: Order, id: Id, now: Time): seq<OrderEvent> {
    match TimedStep(o, now)
    case None => []
    case Some(timed) => [OrderEvent(id, Limit(timed), Some(o.status), TimedTo(timed), None, TimeLimit, now)]
  }

  /** Close the given orders, one transaction each, in the given sequence. */
  function CloseAll(s: State, ids: seq<Id>, now: Time): State {
    if ids == [] then s else CloseIfOverdue(CloseAll(s, ids[..|ids| - 1], now), ids[|ids| - 1], now)
  }

  /** The orders rows after closing the given ones, whatever their sequence. */
  ghost predicate ClosedPointwise(s: State, t: State, ids: seq<Id>, now: Time) {
    && |t.orders| == |s.orders|
    && (forall o :: 0 <= o < |s.orders| ==>
          && t.orders[o] == (if o in ids then Closed(s.orders[o], now) else s.orders[o])
          && Trail(t.log, o) == Trail(s.log, o) + (if o in ids then ClosingEvents(s.orders[o], o, now) else []))
  }

  lemma CloseOne(s: State, o: Id, now: Time)
    requires Inv(s)
    ensures var t := CloseIfOverdue(s, o, now);
            Inv(t) && SameSkeleton(s, t) && ClosedPointwise(s, t, [o], now)
  {
    CloseKeeps(s, o, now);
    var due := Due(s, o, now);
    if due.Some? {
      var step := TimedRecord(due.value, now);
      StepRows(s, o, step);
      StepKeepsSkeleton(s, o, step);
      var order := s.orders[o];
      forall q: Id | q < |s.orders|
        ensures Trail(CloseIfOverdue(s, o, now).log, q)
             == Trail(s.log, q) + (if q == o then ClosingEvents(order, o, now) else [])
      {
        TrailAppend(s.log, OrderEvent(o, step.action, Some(order.status), step.to, None, TimeLimit, now), q);
      }
    }
  }

  /** Closing any orders keeps the invariant and the skeleton, and changes order rows pointwise. */
  lemma {:induction false} CloseAllPointwise(s: State, ids: seq<Id>, now: Time)
    requires Inv(s)
    ensures var t := CloseAll(s, ids, now);
            Inv(t) && SameSkeleton(s, t) && ClosedPointwise(s, t, ids, now)
  {
    if ids != [] {
      var n := |ids| - 1;
      var m := CloseAll(s, ids[..n], now);
      CloseAllPointwise(s, ids[..n], now);
      CloseOne(m, ids[n], now);
      var t := CloseIfOverdue(m, ids[n], now);
      SkeletonTransitive(s, m, t);
      assert ids == ids[..n] + [ids[n]];
      ClosedOneMore(s, m, t, ids[..n], ids[n], now);
    }
  }

  /** Closing an order already closed changes nothing more. */
  lemma ClosedOneMore(s: State, m: State, t: State, ids: seq<Id>, last: Id, now: Time)
    requires ClosedPointwise(s, m, ids, now) && ClosedPointwise(m, t, [last], now)
    ensures ClosedPointwise(s, t, ids + [last], now)
  {
    forall o | 0 <= o < |s.orders|
      ensures t.orders[o] == (if o in ids + [last] then Closed(s.orders[o], now) else s.orders[o])
      ensures Trail(t.log, o) == Trail(s.log, o) + (if o in ids + [last] then ClosingEvents(s.orders[o], o, now) else [])
    {
      if o in ids && o == last {
        assert ClosingEvents(Closed(s.orders[o], now), o, now) == [];
      }
    }
  }

  /** Confluence: whichever sequence closes the same orders, the tables and every order's record come out the same. */
  lemma SweepIsConfluent(s: State, ids: seq<Id>, others: seq<Id>, now: Time)
    requires Inv(s) && forall o :: 0 <= o < |s.orders| ==> (o in ids <==> o in others)
    ensures SameTables(CloseAll(s, ids, now), CloseAll(s, others, now))
    ensures forall o :: 0 <= o < |s.orders| ==>
              Trail(CloseAll(s, ids, now).log, o) == Trail(CloseAll(s, others, now).log, o)
  {
    CloseAllPointwise(s, ids, now);
    CloseAllPointwise(s, others, now);
    SkeletonDetermines(CloseAll(s, ids, now), CloseAll(s, others, now));
  }

  /** The query's condition for overdue orders, as SQL evaluates it: a null date compares as unknown. */
  predicate OverdueAt(o: Order, now: Time) {
    || (o.status.Pending? && (if o.responseDeadline.Some? then o.responseDeadline.value
                              else o.createdAt + RESPONSE_WINDOW_MS) <= now)
    || (o.status.Confirmed? && o.disputeDeadline.Some? && o.disputeDeadline.value <= now)
  }

  /** The query selects exactly the orders the sweep closes, and a closed one is not selected again. */
  lemma QueryMatchesTimedStep(o: Order, now: Time)
    ensures OverdueAt(o, now) <==> TimedStep(o, now).Some?
    ensures OverdueAt(o, now) <==> Closed(o, now) != o
    ensures !OverdueAt(Closed(o, now), now)
  {
  }

  // ---------------------------------------------------------------------------
  // A person's action and the time limits
  // ---------------------------------------------------------------------------

  ghost predicate CoversOrders(s: State, ids: seq<Id>) {
    forall o :: 0 <= o < |s.orders| ==> o in ids
  }

  /** The step a person's action takes on closed rows. */
  function ActStep(s: State, o: Id, input: ActInput, viewer: Viewer, now: Time): Result<StepRecord, Refusal>
    requires o < |s.orders|
  {
    var order := Closed(s.orders[o], now);
    DecideStep(order, s.listings[order.listingId], input, viewer, TimedStep(s.orders[o], now), now)
  }

  /** Standing and step depend on the listing only through its organisation. */
  lemma DecisionNeedsSkeletonOnly(o: Order, l: Listing, k: Listing, input: ActInput, viewer: Viewer,
                                  timedOut: Option<TimedAction>, late: Option<TimedAction>, now: Time)
    requires Bare(l) == Bare(k)
    ensures DecideStep(o, l, input, viewer, timedOut, now).Ok? == DecideStep(o, k, input, viewer, late, now).Ok?
    ensures DecideStep(o, l, input, viewer, timedOut, now).Ok? ==>
              DecideStep(o, l, input, viewer, timedOut, now) == DecideStep(o, k, input, viewer, late, now)
  {
  }

  lemma SkeletonTransitive(s: State, t: State, u: State)
    requires SameSkeleton(s, t) && SameSkeleton(t, u)
    ensures SameSkeleton(s, u)
  {
  }

  lemma SkeletonSymmetric(s: State, t: State)
    requires SameSkeleton(s, t)
    ensures SameSkeleton(t, s)
  {
  }

  /** A person's step on an order nothing is due on moves that row, to one nothing is due on. */
  lemma TakePointwise(s: State, o: Id, input: ActInput, viewer: Viewer, timedOut: Option<TimedAction>, now: Time)
    requires Inv(s) && o < |s.orders| && !OverdueAt(s.orders[o], now)
    ensures var r := TakeStep(s, o, input, viewer, timedOut, now);
            var step := DecideStep(s.orders[o], s.listings[s.orders[o].listingId], input, viewer, timedOut, now);
            && r.Ok? == step.Ok?
            && (r.Ok? ==>
                  && Inv(r.value) && SameSkeleton(s, r.value)
                  && r.value.orders == s.orders[o := Moved(s.orders[o], step.value)]
                  && !OverdueAt(r.value.orders[o], now))
  {
    var r := TakeStep(s, o, input, viewer, timedOut, now);
    if r.Ok? {
      TakeStepKeeps(s, o, input, viewer, timedOut, now);
      var step := DecideStep(s.orders[o], s.listings[s.orders[o].listingId], input, viewer, timedOut, now).value;
      StepRows(s, o, step);
      StepKeepsSkeleton(s, o, step);
    }
  }

  /** The order row an action leaves. */
  function ActedRow(s: State, o: Id, input: ActInput, viewer: Viewer, now: Time): Order
    requires o < |s.orders|
  {
    var step := ActStep(s, o, input, viewer, now);
    var order := Closed(s.orders[o], now);
    if step.Ok? then Moved(order, step.value) else order
  }

  /**
   * What an action leaves: the invariant, the skeleton, one order row moved, and no
   * limit due on it at that instant.
   */
  lemma ActPointwise(s: State, o: Id, input: ActInput, viewer: Viewer, now: Time)
    requires Inv(s) && o < |s.orders|
    ensures var t := UpdateTransaction(s, o, input, viewer, now).0;
            && Inv(t) && SameSkeleton(s, t)
            && t.orders == s.orders[o := ActedRow(s, o, input, viewer, now)]
            && !OverdueAt(t.orders[o], now)
    ensures UpdateTransaction(s, o, input, viewer, now).1.Ok? == ActStep(s, o, input, viewer, now).Ok?
  {
    CloseOne(s, o, now);
    var s1, timedOut := CloseIfOverdue(s, o, now), Due(s, o, now);
    var l := s.orders[o].listingId;
    assert s1.orders == s.orders[o := Closed(s.orders[o], now)];
    assert Bare(s.listings[l]) == Bare(s1.listings[l]);
    DecisionNeedsSkeletonOnly(s1.orders[o], s.listings[l], s1.listings[l], input, viewer, timedOut, timedOut, now);
    QueryMatchesTimedStep(s.orders[o], now);
    TakePointwise(s1, o, input, viewer, timedOut, now);
    var r := TakeStep(s1, o, input, viewer, timedOut, now);
    if r.Ok? {
      SkeletonTransitive(s, s1, r.value);
    }
  }

  /** The row an action leaves is the same whether or not the other limits took their steps first. */
  lemma ActedRowAfterClosing(s: State, c: State, o: Id, input: ActInput, viewer: Viewer, now: Time)
    requires o < |s.orders| && SameSkeleton(s, c) && c.orders[o] == Closed(s.orders[o], now)
    ensures ActStep(s, o, input, viewer, now).Ok? == ActStep(c, o, input, viewer, now).Ok?
    ensures ActedRow(s, o, input, viewer, now) == ActedRow(c, o, input, viewer, now)
  {
    QueryMatchesTimedStep(s.orders[o], now);
    var l := s.orders[o].listingId;
    assert Bare(s.listings[l]) == Bare(c.listings[l]);
    DecisionNeedsSkeletonOnly(Closed(s.orders[o], now), s.listings[l], c.listings[l], input, viewer,
                              TimedStep(s.orders[o], now), TimedStep(c.orders[o], now), now);
  }

  /** The square closes: the rows agree, nothing being due on the moved one, and with the skeleton they fix the rest. */
  lemma SquareCloses(s: State, c: State, first: State, last: State, closed: State, ids: seq<Id>,
                     o: Id, row: Order, now: Time)
    requires o < |s.orders| && CoversOrders(s, ids) && Inv(closed) && Inv(last) && !OverdueAt(row, now)
    requires SameSkeleton(s, c) && ClosedPointwise(s, c, ids, now)
    requires SameSkeleton(s, first) && first.orders == s.orders[o := row]
    requires SameSkeleton(c, last) && last.orders == c.orders[o := row]
    requires SameSkeleton(first, closed) && ClosedPointwise(first, closed, ids, now)
    ensures SameTables(closed, last)
  {
    forall q | 0 <= q < |s.orders|
      ensures closed.orders[q] == last.orders[q]
    {
      QueryMatchesTimedStep(first.orders[q], now);
    }
    SkeletonSymmetric(s, first);
    SkeletonSymmetric(first, closed);
    SkeletonTransitive(closed, first, s);
    SkeletonTransitive(closed, s, c);
    SkeletonTransitive(closed, c, last);
    SkeletonDetermines(closed, last);
  }

  /** Whether an action succeeds, and the row it leaves, do not depend on the other limits' steps. */
  lemma ActsAlike(s: State, c: State, ids: seq<Id>, o: Id, input: ActInput, viewer: Viewer, now: Time)
    requires Inv(s) && Inv(c) && o < |s.orders| && CoversOrders(s, ids)
    requires SameSkeleton(s, c) && ClosedPointwise(s, c, ids, now)
    ensures var first := UpdateTransaction(s, o, input, viewer, now);
            var last := UpdateTransaction(c, o, input, viewer, now);
            var row := ActedRow(s, o, input, viewer, now);
            && first.1.Ok? == last.1.Ok? && Inv(first.0) && Inv(last.0) && !OverdueAt(row, now)
            && SameSkeleton(s, first.0) && first.0.orders == s.orders[o := row]
            && SameSkeleton(c, last.0) && last.0.orders == c.orders[o := row]
  {
    ActPointwise(s, o, input, viewer, now);
    ActPointwise(c, o, input, viewer, now);
    ActedRowAfterClosing(s, c, o, input, viewer, now);
  }

  /**
   * A person's action commutes with the time limits: it succeeds exactly when
   * it succeeds after every overdue order is closed at that instant, and
   * closing them before or after gives the same tables.
   */
  lemma ActionCommutesWithLimits(s: State, ids: seq<Id>, o: Id, input: ActInput, viewer: Viewer, now: Time)
    requires Inv(s) && CoversOrders(s, ids)
    ensures var first := UpdateTransaction(s, o, input, viewer, now);
            var last := UpdateTransaction(CloseAll(s, ids, now), o, input, viewer, now);
            && first.1.Ok? == last.1.Ok?
            && SameTables(CloseAll(first.0, ids, now), last.0)
  {
    var c := CloseAll(s, ids, now);
    CloseAllPointwise(s, ids, now);
    if o < |s.orders| {
      var first := UpdateTransaction(s, o, input, viewer, now).0;
      ActsAlike(s, c, ids, o, input, viewer, now);
      CloseAllPointwise(first, ids, now);
      SquareCloses(s, c, first, UpdateTransaction(c, o, input, viewer, now).0, CloseAll(first, ids, now), ids,
                   o, ActedRow(s, o, input, viewer, now), now);
    }
  }
}
