/**
 * Whole runs of the marketplace: any sequence of requests, in any order, each
 * one committing or being refused.
 */
module Runs {
  import opened Wrappers
  import opened Lots
  import opened LotInvariant
  import opened OrderLog

  datatype Request =
    | Register(organisationId: Id, curated: bool)
    | AttachPhoto(passportId: Id)
    | Create(listing: CreateInput, sellerId: Id, organisationId: Id)
    | Edit(listingId: Id, edit: EditInput, organisationId: Id, now: Time)
    | Withdraw(listingId: Id, organisationId: Id)
    | Offer(offer: OfferInput, buyer: Viewer, keepLast: bool, now: Time)
    | Act(orderId: Id, act: ActInput, viewer: Viewer, now: Time)
    | CloseOrder(orderId: Id, now: Time)
    | Expire(listingId: Id, now: Time)

  /** The bounds the request schemas check before a service function is called. */
  predicate Valid(r: Request) {
    match r
    case Create(listing, _, _) => ValidCreate(listing)
    case Edit(_, edit, _, _) => ValidEdit(edit)
    case Offer(offer, _, _, _) => ValidOffer(offer)
    case _ => true
  }

  function Commit(s: State, r: Result<State, Refusal>): State { if r.Ok? then r.value else s }

  function Next(s: State, r: Request): State {
    match r
    case Register(organisationId, curated) =>
      s.(passports := s.passports + [Passport(organisationId, Free, 0, curated)])
    case AttachPhoto(p) =>
      if p < |s.passports| then
        s.(passports := s.passports[p := s.passports[p].(photos := s.passports[p].photos + 1)])
      else s
    case Create(listing, sellerId, organisationId) => Commit(s, CreateListing(s, listing, sellerId, organisationId))
    case Edit(l, edit, organisationId, now) => Commit(s, UpdateListing(s, l, edit, organisationId, now))
    case Withdraw(l, organisationId) => Commit(s, CancelListing(s, l, organisationId))
    case Offer(offer, buyer, keepLast, now) => Commit(s, MakeOffer(s, offer, buyer, keepLast, now))
    case Act(o, act, viewer, now) => UpdateTransaction(s, o, act, viewer, now).0
    case CloseOrder(o, now) => CloseIfOverdue(s, o, now)
    case Expire(l, now) => ExpireListing(s, l, now)
  }

  /** A new passport is off the market and without photos; a photo is one more on its passport. */
  lemma PassportRequests(s: State, organisationId: Id, curated: bool, p: Id)
    ensures var t := Next(s, Register(organisationId, curated));
            && t.passports == s.passports + [Passport(organisationId, Free, 0, curated)]
            && t == s.(passports := t.passports)
    ensures var t := Next(s, AttachPhoto(p));
            && |t.passports| == |s.passports| && t == s.(passports := t.passports)
            && forall q :: 0 <= q < |s.passports| ==>
                 t.passports[q] == if q == p then s.passports[q].(photos := s.passports[q].photos + 1) else s.passports[q]
  {
  }

  function Run(s: State, rs: seq<Request>): State {
    if rs == [] then s else Next(Run(s, rs[..|rs| - 1]), rs[|rs| - 1])
  }

  /** Nothing listed or ordered yet; passports may exist, none of them on the market. */
  ghost predicate Start(s: State) {
    && s.listings == [] && s.orders == [] && s.log == [] && s.history == []
    && forall p :: 0 <= p < |s.passports| ==> !OnMarket(s.passports[p].status)
  }

  lemma StartsWell(s: State)
    requires Start(s)
    ensures Inv(s) && LogOk(s)
  {
  }

  /** A passport's own changes leave lots and logs alone. */
  lemma PassportOpKeeps(s: State, t: State)
    requires Inv(s) && LogOk(s)
    requires t == s.(passports := t.passports) && |s.passports| <= |t.passports|
    requires forall p :: 0 <= p < |s.passports| ==> t.passports[p].status == s.passports[p].status
    requires forall p :: |s.passports| <= p < |t.passports| ==> !OnMarket(t.passports[p].status)
    ensures Inv(t) && LogOk(t)
  {
    assert forall l, p :: 0 <= l < |s.listings| ==> LiveOn(s, l, p) == LiveOn(t, l, p);
    assert forall l :: 0 <= l < |s.listings| ==> LotOk(s, l) ==> LotOk(t, l);
    assert forall o :: 0 <= o < |s.orders| ==> OrderLogOk(s, o) ==> OrderLogOk(t, o);
  }

  /** Every request, committed or refused, keeps both invariants. */
  lemma NextKeeps(s: State, r: Request)
    requires Inv(s) && LogOk(s) && Valid(r)
    ensures Inv(Next(s, r)) && LogOk(Next(s, r))
  {
    var t := Next(s, r);
    match r
    case Register(_, _) => PassportOpKeeps(s, t);
    case AttachPhoto(p) =>
      if p < |s.passports| {
        PassportOpKeeps(s, t);
      }
    case Create(listing, sellerId, organisationId) =>
      CreateKeeps(s, listing, sellerId, organisationId);
      ListingOpKeepsLog(s, t);
    case Edit(l, edit, organisationId, now) =>
      EditKeeps(s, l, edit, organisationId, now);
      ListingOpKeepsLog(s, t);
    case Withdraw(l, organisationId) =>
      CancelKeeps(s, l, organisationId);
      ListingOpKeepsLog(s, t);
    case Offer(offer, buyer, keepLast, now) =>
      OfferKeeps(s, offer, buyer, keepLast, now);
      OfferKeepsLog(s, offer, buyer, keepLast, now);
    case Act(o, act, viewer, now) => ActKeepsLog(s, o, act, viewer, now);
    case CloseOrder(o, now) =>
      CloseKeeps(s, o, now);
      CloseKeepsLog(s, o, now);
    case Expire(l, now) =>
      ExpireKeeps(s, l, now);
      ListingOpKeepsLog(s, t);
  }

  /** Safety of the marketplace over every run. */
  lemma {:induction false} EveryRunKeeps(s: State, rs: seq<Request>)
    requires Start(s) && forall i :: 0 <= i < |rs| ==> Valid(rs[i])
    ensures Inv(Run(s, rs)) && LogOk(Run(s, rs))
  {
    if rs == [] {
      StartsWell(s);
    } else {
      var n := |rs| - 1;
      EveryRunKeeps(s, rs[..n]);
      NextKeeps(Run(s, rs[..n]), rs[n]);
    }
  }

  // ---------------------------------------------------------------------------
  // What follows for one lot and one order
  // ---------------------------------------------------------------------------

  lemma {:induction false} TakenSplits(orders: seq<Order>, l: Id)
    ensures Taken(orders, l) == Sum(orders, l, UnitsHeld) + Sum(orders, l, UnitsSold)
  {
    if orders != [] {
      TakenSplits(orders[..|orders| - 1], l);
    }
  }

  /** In every run, what a lot has sold, holds and still offers is its quantity. */
  lemma StockIsConserved(s: State, rs: seq<Request>, l: Id)
    requires Start(s) && (forall i :: 0 <= i < |rs| ==> Valid(rs[i])) && l < |Run(s, rs).listings|
    ensures var t := Run(s, rs);
            t.listings[l].quantity
              == Sum(t.orders, l, UnitsSold) + Sum(t.orders, l, UnitsHeld) + t.listings[l].available
  {
    EveryRunKeeps(s, rs);
    assert LotOk(Run(s, rs), l);
    TakenSplits(Run(s, rs).orders, l);
  }

  /** In every run, an order's recorded steps replay to its status, and there are at most four of them. */
  lemma LogReplays(s: State, rs: seq<Request>, o: Id)
    requires Start(s) && (forall i :: 0 <= i < |rs| ==> Valid(rs[i])) && o < |Run(s, rs).orders|
    ensures var t := Run(s, rs);
            && Replay(Trail(t.log, o)) == Some(t.orders[o].status)
            && 1 <= |Trail(t.log, o)| <= 4
            && |Sales(t.history, o)| == if IsSale(t.orders[o].status) then 1 else 0
  {
    EveryRunKeeps(s, rs);
    assert OrderLogOk(Run(s, rs), o);
    AtMostThreeSteps(Trail(Run(s, rs).log, o));
  }

  /**
   * No accepting, rejecting or cancelling at or after the response deadline; no
   * confirming, flagging or cancelling at or after the problem deadline.
   */
  lemma StepsBeatDeadlines(s: State, rs: seq<Request>, o: Id, i: nat)
    requires Start(s) && (forall i :: 0 <= i < |rs| ==> Valid(rs[i])) && o < |Run(s, rs).orders|
    requires i < |Trail(Run(s, rs).log, o)| && Trail(Run(s, rs).log, o)[i].action.Person?
    ensures var e := Trail(Run(s, rs).log, o)[i]; var order := Run(s, rs).orders[o];
            && (e.from == Some(Pending) ==> e.at < ResponseDeadlineOf(order))
            && (e.from == Some(Confirmed) ==> order.disputeDeadline.Some? && e.at < order.disputeDeadline.value)
  {
    EveryRunKeeps(s, rs);
    assert OrderLogOk(Run(s, rs), o);
    assert Timely(Trail(Run(s, rs).log, o)[i], Run(s, rs).orders[o]);
  }

  /** The columns of an order that no step changes. */
  predicate SameTerms(a: Order, b: Order) {
    && a.listingId == b.listingId && a.buyerId == b.buyerId && a.sellerId == b.sellerId
    && a.quantity == b.quantity && a.amountPence == b.amountPence
    && a.responseDeadline == b.responseDeadline && a.createdAt == b.createdAt
  }

  /** An order's terms never change, and only an offer adds one, at the price the listing asks then. */
  lemma TermsStand(s: State, r: Request)
    ensures |s.orders| <= |Next(s, r).orders| <= |s.orders| + 1
    ensures forall o :: 0 <= o < |s.orders| ==> SameTerms(s.orders[o], Next(s, r).orders[o])
    ensures |Next(s, r).orders| > |s.orders| ==>
              && r.Offer? && r.offer.listingId < |s.listings|
              && var o := Next(s, r).orders[|s.orders|];
              o.listingId == r.offer.listingId && o.amountPence == s.listings[o.listingId].pricePence * o.quantity
  {
    match r
    case Offer(offer, buyer, keepLast, now) =>
      if MakeOffer(s, offer, buyer, keepLast, now).Ok? {
        OfferRows(s, offer, buyer, keepLast, now);
        assert forall o :: 0 <= o < |s.orders| ==> Next(s, r).orders[..|s.orders|][o] == s.orders[o];
      }
    case Act(o, act, viewer, now) => ActTerms(s, o, act, viewer, now);
    case CloseOrder(o, now) => CloseTerms(s, o, now);
    case _ =>
  }

  lemma ActTerms(s: State, o: Id, act: ActInput, viewer: Viewer, now: Time)
    ensures var t := UpdateTransaction(s, o, act, viewer, now).0;
            |t.orders| == |s.orders| && forall q :: 0 <= q < |s.orders| ==> SameTerms(s.orders[q], t.orders[q])
  {
    CloseTerms(s, o, now);
    var s1 := CloseIfOverdue(s, o, now);
    if TakeStep(s1, o, act, viewer, Due(s, o, now), now).Ok? {
      var listing := s1.listings[s1.orders[o].listingId];
      StepRows(s1, o, DecideStep(s1.orders[o], listing, act, viewer, Due(s, o, now), now).value);
    }
  }

  lemma CloseTerms(s: State, o: Id, now: Time)
    ensures |CloseIfOverdue(s, o, now).orders| == |s.orders|
    ensures forall q :: 0 <= q < |s.orders| ==> SameTerms(s.orders[q], CloseIfOverdue(s, o, now).orders[q])
  {
    if Due(s, o, now).Some? {
      StepRows(s, o, TimedRecord(Due(s, o, now).value, now));
    }
  }

  /**
   * In every run, an order's amount is still the price the listing asked when
   * it was placed, times its quantity, whatever price edits came since.
   */
  lemma {:induction false} AmountIsPriceAtOrdering(s: State, rs: seq<Request>, o: Id) returns (k: nat)
    requires Start(s) && (forall i :: 0 <= i < |rs| ==> Valid(rs[i])) && o < |Run(s, rs).orders|
    ensures k < |rs| && rs[k].Offer? && |Run(s, rs[..k]).orders| == o
    ensures var order := Run(s, rs).orders[o]; var placed := Run(s, rs[..k]);
            && order.listingId < |placed.listings|
            && order.amountPence == placed.listings[order.listingId].pricePence * order.quantity
            && 1 <= order.amountPence <= MAX_AMOUNT_PENCE
  {
    EveryRunKeeps(s, rs);
    assert OrderOk(Run(s, rs).orders[o]);
    var n := |rs| - 1;
    TermsStand(Run(s, rs[..n]), rs[n]);
    if o < |Run(s, rs[..n]).orders| {
      k := AmountIsPriceAtOrdering(s, rs[..n], o);
      assert rs[..n][..k] == rs[..k];
    } else {
      k := n;
    }
  }

  // ---------------------------------------------------------------------------
  // The minimum order is not kept by every edit
  // ---------------------------------------------------------------------------

  predicate MinimumOk(l: Listing) { 1 <= l.minOrderQuantity <= l.quantity }

  /** An edit is checked against the minimum only when it carries one; this is exactly when the rule survives. */
  lemma MinimumSurvivesEdit(s: State, l: Id, input: EditInput, organisationId: Id, now: Time)
    requires Inv(s) && ValidEdit(input) && l < |s.listings| && MinimumOk(s.listings[l])
    requires UpdateListing(s, l, input, organisationId, now).Ok?
    ensures MinimumOk(UpdateListing(s, l, input, organisationId, now).value.listings[l])
       <==> (input.minOrderQuantity.Some? || input.quantity.None?
             || s.listings[l].minOrderQuantity <= input.quantity.value)
  {
  }

  const UNLISTED: State := Tables([], [], [Passport(7, Free, 1, false)], [], [])
  const LIST_TEN := Create(CreateInput(0, 100, 10, 5, None), 1, 7)
  const CUT_TO_THREE := Edit(0, EditInput(None, Some(3), None, None), 7, 0)

  lemma ListTen(s: State)
    requires s.listings == [] && s.passports == [Passport(7, Free, 1, false)]
    ensures Next(s, LIST_TEN).listings == [Listing(0, 7, 1, 100, 10, 10, 5, Active, None)]
  {
  }

  lemma CutToThree(s: State)
    requires s.listings == [Listing(0, 7, 1, 100, 10, 10, 5, Active, None)]
    ensures var t := Next(s, CUT_TO_THREE);
            |t.listings| == 1 && t.listings[0].quantity == 3 && t.listings[0].minOrderQuantity == 5
  {
  }

  lemma TwoRequests(s: State, a: Request, b: Request)
    ensures Run(s, [a, b]) == Next(Next(s, a), b)
  {
    assert [a, b][..1] == [a] && [a][..0] == [];
    assert Run(s, [a]) == Next(Run(s, []), a);
  }

  /** A lot of ten sold five at a time, cut to three: its minimum order is more than the lot. */
  lemma ShrinkBreaksMinimum()
    ensures Start(UNLISTED) && Valid(LIST_TEN) && Valid(CUT_TO_THREE)
    ensures var t := Run(UNLISTED, [LIST_TEN, CUT_TO_THREE]); |t.listings| == 1 && !MinimumOk(t.listings[0])
  {
    ListTen(UNLISTED);
    CutToThree(Next(UNLISTED, LIST_TEN));
    TwoRequests(UNLISTED, LIST_TEN, CUT_TO_THREE);
  }
}
