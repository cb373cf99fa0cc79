/**
 * What each request does to the tables and who may make it, column by column:
 * every condition here is on the rows' own columns and every number is
 * written out.
 */
module Effects {
  import opened Wrappers
  import opened Lots
  import opened LotInvariant

  // ---------------------------------------------------------------------------
  // The tables between requests
  // ---------------------------------------------------------------------------

  ghost predicate HasOpenOrder(orders: seq<Order>, l: Id) {
    exists o :: 0 <= o < |orders| && orders[o].listingId == l && orders[o].status in {Pending, Confirmed, Disputed}
  }

  /** Units ordered of a listing by orders in these statuses. */
  function Units(orders: seq<Order>, l: Id, statuses: set<OrderStatus>): int {
    if orders == [] then 0
    else
      var o := orders[|orders| - 1];
      Units(orders[..|orders| - 1], l, statuses) + (if o.listingId == l && o.status in statuses then o.quantity else 0)
  }

  const HOLDING: set<OrderStatus> := {Pending, Confirmed, Disputed}
  const BOUGHT: set<OrderStatus> := {Completed, Resolved}

  lemma {:induction false} SumsAre(orders: seq<Order>, l: Id)
    ensures OpenCount(orders, l) > 0 <==> HasOpenOrder(orders, l)
    ensures Sum(orders, l, UnitsHeld) == Units(orders, l, HOLDING)
    ensures Sum(orders, l, UnitsSold) == Units(orders, l, BOUGHT)
    ensures Taken(orders, l) == Units(orders, l, HOLDING) + Units(orders, l, BOUGHT)
  {
    if orders != [] {
      var n := |orders| - 1;
      SumsAre(orders[..n], l);
      if HasOpenOrder(orders[..n], l) {
        var o :| 0 <= o < n && orders[..n][o].listingId == l && orders[..n][o].status in {Pending, Confirmed, Disputed};
        assert orders[o].listingId == l;
      }
    }
  }

  /** A listing between requests: its stock, its status, and its passport's. */
  ghost predicate Stands(s: State, l: Id)
    requires l < |s.listings|
  {
    var lot := s.listings[l];
    var passport := s.passports[lot.passportId].status;
    && 1 <= lot.pricePence <= 2_000_000_000 && 1 <= lot.minOrderQuantity && 0 <= lot.available
    && lot.quantity == lot.available + Units(s.orders, l, HOLDING) + Units(s.orders, l, BOUGHT)
    && (lot.status.Active? ==> 1 <= lot.available && passport.Listed?)
    && (lot.status.Reserved? ==> lot.available == 0 && HasOpenOrder(s.orders, l) && passport.Reserved?)
    && (lot.status.Sold? ==> lot.available == 0 && !HasOpenOrder(s.orders, l) && passport.Sold?)
    && (lot.status.Expired? || lot.status.Cancelled? ==> !HasOpenOrder(s.orders, l))
  }

  predicate OffMarket(status: ListingStatus) { status == Expired || status == ListingStatus.Cancelled }

  predicate SaysOnMarket(status: PassportStatus) {
    status in {Listed, PassportStatus.Reserved, PassportStatus.Sold}
  }

  /** No two listings of a material are live, and a material said to be on the market is. */
  lemma EveryListingStands(s: State)
    requires Inv(s)
    ensures forall l :: 0 <= l < |s.listings| ==> Stands(s, l)
    ensures forall k, l :: 0 <= k < l < |s.listings| && s.listings[k].passportId == s.listings[l].passportId ==>
              OffMarket(s.listings[k].status) || OffMarket(s.listings[l].status)
    ensures forall p :: 0 <= p < |s.passports| && SaysOnMarket(s.passports[p].status) ==>
              exists l :: 0 <= l < |s.listings| && s.listings[l].passportId == p && !OffMarket(s.listings[l].status)
  {
    forall l | 0 <= l < |s.listings|
      ensures Stands(s, l)
    {
      assert LotOk(s, l);
      SumsAre(s.orders, l);
    }
    forall k, l | 0 <= k < l < |s.listings| && s.listings[k].passportId == s.listings[l].passportId
      ensures OffMarket(s.listings[k].status) || OffMarket(s.listings[l].status)
    {
      var p := s.listings[k].passportId;
      assert LiveOn(s, k, p) && LiveOn(s, l, p) ==> k == l;
    }
    forall p | 0 <= p < |s.passports| && SaysOnMarket(s.passports[p].status)
      ensures exists l :: 0 <= l < |s.listings| && s.listings[l].passportId == p && !OffMarket(s.listings[l].status)
    {
      assert OnMarket(s.passports[p].status) && HasLive(s, p);
      var l :| 0 <= l < |s.listings| && LiveOn(s, l, p);
      assert s.listings[l].passportId == p;
    }
  }

  /** Only the status of passport `p` may differ. */
  ghost predicate OnlyStatusOf(before: seq<Passport>, after: seq<Passport>, p: Id) {
    && |after| == |before|
    && (forall q :: 0 <= q < |before| && q != p ==> after[q] == before[q])
    && (p < |before| ==> after[p] == before[p].(status := after[p].status))
  }

  /** Only row `l` may differ. */
  ghost predicate OnlyListing(before: seq<Listing>, after: seq<Listing>, l: Id) {
    |after| == |before| && forall k :: 0 <= k < |before| && k != l ==> after[k] == before[k]
  }

  // ---------------------------------------------------------------------------
  // Listings
  // ---------------------------------------------------------------------------

  /** A material is listed when it is the organisation's, photographed, off the market and not decommissioned. */
  lemma ListingIsCreatedWhen(s: State, input: CreateInput, sellerId: Id, organisationId: Id)
    ensures var r := CreateListing(s, input, sellerId, organisationId); var p := input.passportId;
            && (r.Ok? <==>
                  && p < |s.passports| && s.passports[p].organisationId == organisationId && s.passports[p].photos > 0
                  && s.passports[p].status in {Draft, Free, Installed})
            && (r.Err? ==>
                  && (r.error == NotFound <==> p >= |s.passports|)
                  && (r.error == Forbidden <==> p < |s.passports| && s.passports[p].organisationId != organisationId)
                  && r.error in {NotFound, Forbidden, Conflict})
            && (r.Ok? ==>
                  var t := r.value;
                  && t.listings == s.listings
                       + [Listing(p, organisationId, sellerId, input.pricePence, input.quantity, input.quantity,
                                  input.minOrderQuantity, Active, input.expiresAt)]
                  && OnlyStatusOf(s.passports, t.passports, p) && t.passports[p].status.Listed?
                  && t.history == s.history + [OfferedForSale(p, |s.listings|)]
                  && t.orders == s.orders && t.log == s.log)
  {
  }

  /** A listing created within the schema's bounds leaves every listing standing. */
  lemma CreatedListingStands(s: State, input: CreateInput, sellerId: Id, organisationId: Id)
    requires Inv(s) && CreateListing(s, input, sellerId, organisationId).Ok?
    requires 1 <= input.pricePence <= 2_000_000_000 && 1 <= input.minOrderQuantity <= input.quantity
    ensures var t := CreateListing(s, input, sellerId, organisationId).value;
            forall k :: 0 <= k < |t.listings| ==> Stands(t, k)
  {
    CreateKeeps(s, input, sellerId, organisationId);
    EveryListingStands(CreateListing(s, input, sellerId, organisationId).value);
  }

  /** The date a listing has once an edit is made. */
  function DateAfter(lot: Listing, input: EditInput): Option<Time> {
    match input.expiresAt
    case None => lot.expiresAt
    case Some(date) => date
  }

  function QuantityAfter(lot: Listing, input: EditInput): int {
    match input.quantity
    case None => lot.quantity
    case Some(quantity) => quantity
  }

  /** What a reader is told is expired. */
  predicate ShownExpired(lot: Listing, now: Time) {
    lot.status.Expired? || (lot.status.Active? && lot.expiresAt.Some? && lot.expiresAt.value <= now)
  }

  /** The conditions of an edit that are about the listing alone. */
  predicate Editable(lot: Listing, passport: PassportStatus, input: EditInput, now: Time) {
    && lot.status in {Active, ListingStatus.Reserved, Expired}
    && lot.quantity - lot.available <= QuantityAfter(lot, input)
    && (input.minOrderQuantity.Some? ==> input.minOrderQuantity.value <= QuantityAfter(lot, input))
    && (ShownExpired(lot, now) ==> DateAfter(lot, input).Some? ==> now < DateAfter(lot, input).value)
    && (lot.status.Expired? ==> lot.quantity - lot.available < QuantityAfter(lot, input) && passport.Free?)
  }

  /** The row an edit leaves, but for its status: each column is the request's where it gives one. */
  ghost predicate EditedTo(lot: Listing, input: EditInput, row: Listing) {
    && row.passportId == lot.passportId && row.organisationId == lot.organisationId && row.sellerId == lot.sellerId
    && (input.pricePence.Some? ==> row.pricePence == input.pricePence.value)
    && (input.pricePence.None? ==> row.pricePence == lot.pricePence)
    && row.quantity == QuantityAfter(lot, input)
    && row.quantity - row.available == lot.quantity - lot.available
    && (input.minOrderQuantity.Some? ==> row.minOrderQuantity == input.minOrderQuantity.value)
    && (input.minOrderQuantity.None? ==> row.minOrderQuantity == lot.minOrderQuantity)
    && row.expiresAt == DateAfter(lot, input)
  }

  /** The tables an edit of row `l` leaves. */
  ghost predicate EditEffect(s: State, l: Id, input: EditInput, t: State)
    requires l < |s.listings|
  {
    && OnlyListing(s.listings, t.listings, l) && l < |t.listings| && EditedTo(s.listings[l], input, t.listings[l])
    && OnlyStatusOf(s.passports, t.passports, s.listings[l].passportId)
    && t.orders == s.orders && t.log == s.log && t.history == s.history
  }

  lemma ListingIsEditedWhen(s: State, l: Id, input: EditInput, organisationId: Id, now: Time)
    requires Inv(s)
    ensures var r := UpdateListing(s, l, input, organisationId, now);
            && (r.Ok? <==>
                  && l < |s.listings| && s.listings[l].organisationId == organisationId
                  && Editable(s.listings[l], s.passports[s.listings[l].passportId].status, input, now))
            && (r.Ok? ==> EditEffect(s, l, input, r.value))
  {
    if l < |s.listings| {
      assert LotOk(s, l);
    }
  }

  /** An edit that passes the schema's checks leaves every listing standing. */
  lemma EditedListingStands(s: State, l: Id, input: EditInput, organisationId: Id, now: Time)
    requires Inv(s) && UpdateListing(s, l, input, organisationId, now).Ok?
    requires input.pricePence.Some? ==> 1 <= input.pricePence.value <= 2_000_000_000
    requires input.quantity.Some? ==> 1 <= input.quantity.value
    requires input.minOrderQuantity.Some? ==> 1 <= input.minOrderQuantity.value
    ensures var t := UpdateListing(s, l, input, organisationId, now).value;
            forall k :: 0 <= k < |t.listings| ==> Stands(t, k)
    ensures IsLive(UpdateListing(s, l, input, organisationId, now).value.listings[l].status)
  {
    EditKeeps(s, l, input, organisationId, now);
    EveryListingStands(UpdateListing(s, l, input, organisationId, now).value);
  }

  /** Why an edit is refused. */
  lemma EditIsRefusedFor(s: State, l: Id, input: EditInput, organisationId: Id, now: Time)
    requires Inv(s) && UpdateListing(s, l, input, organisationId, now).Err?
    ensures var why := UpdateListing(s, l, input, organisationId, now).error;
            && (why == NotFound <==> l >= |s.listings|)
            && (why == Forbidden <==> l < |s.listings| && s.listings[l].organisationId != organisationId)
            && why in {NotFound, Forbidden, Conflict, Invalid, MaterialRelisted}
            && (why == Invalid ==> input.minOrderQuantity.Some? && l < |s.listings|
                                   && input.minOrderQuantity.value > QuantityAfter(s.listings[l], input))
            && (why == MaterialRelisted ==>
                  l < |s.listings| && s.listings[l].status.Expired?
                  && s.passports[s.listings[l].passportId].status !in {Free, Decommissioned})
            && (why == Conflict && l < |s.listings|
                && s.listings[l].status in {Active, ListingStatus.Reserved, Expired}
                && s.listings[l].quantity - s.listings[l].available <= QuantityAfter(s.listings[l], input) ==>
                  ShownExpired(s.listings[l], now))
  {
  }

  /** A listing leaves the market. */
  ghost predicate ClosedTo(s: State, l: Id, status: ListingStatus, t: State)
    requires l < |s.listings|
  {
    && OnlyListing(s.listings, t.listings, l) && t.listings[l] == s.listings[l].(status := status)
    && OnlyStatusOf(s.passports, t.passports, s.listings[l].passportId)
    && t.passports[s.listings[l].passportId].status.Free?
    && t.orders == s.orders && t.log == s.log && t.history == s.history
  }

  lemma ListingIsCancelledWhen(s: State, l: Id, organisationId: Id)
    ensures var r := CancelListing(s, l, organisationId);
            && (r.Ok? <==>
                  && l < |s.listings| && s.listings[l].organisationId == organisationId
                  && s.listings[l].status in {Active, ListingStatus.Reserved} && !HasOpenOrder(s.orders, l))
            && (r.Err? ==>
                  && (r.error == NotFound <==> l >= |s.listings|)
                  && (r.error == Forbidden <==> l < |s.listings| && s.listings[l].organisationId != organisationId)
                  && r.error in {NotFound, Forbidden, Conflict})
            && (r.Ok? ==> ClosedTo(s, l, ListingStatus.Cancelled, r.value))
  {
    SumsAre(s.orders, l);
  }

  lemma ListingExpiresWhen(s: State, l: Id, now: Time)
    ensures var t := ExpireListing(s, l, now);
            if l < |s.listings| && s.listings[l].status.Active? && s.listings[l].expiresAt.Some?
               && s.listings[l].expiresAt.value <= now && !HasOpenOrder(s.orders, l)
            then ClosedTo(s, l, Expired, t) else t == s
  {
    SumsAre(s.orders, l);
  }

  // ---------------------------------------------------------------------------
  // Steps on an order
  // ---------------------------------------------------------------------------

  /** The user who listed the lot, and whoever sells for its organisation. */
  predicate Sells(viewer: Viewer, order: Order, lot: Listing) {
    || viewer.userId == order.sellerId
    || (viewer.organisationId == Some(lot.organisationId) && viewer.role in {HubAdmin, HubStaff, Supplier})
  }

  predicate Buys(viewer: Viewer, order: Order) { viewer.userId == order.buyerId }

  /** Who each step is for. */
  predicate IsFor(action: OrderAction, viewer: Viewer, order: Order, lot: Listing) {
    match action
    case Accept => Sells(viewer, order, lot)
    case Reject => Sells(viewer, order, lot)
    case Cancel => Buys(viewer, order) || Sells(viewer, order, lot)
    case ConfirmDelivery => Buys(viewer, order)
    case FlagDispute => Buys(viewer, order)
    case ResolveDispute => viewer.role == PlatformAdmin
  }

  /** The statuses each step is for. */
  predicate Ripe(action: OrderAction, status: OrderStatus) {
    match action
    case Accept => status == Pending
    case Reject => status == Pending
    case Cancel => status == Pending || status == Confirmed
    case ConfirmDelivery => status == Confirmed
    case FlagDispute => status == Confirmed
    case ResolveDispute => status == Disputed
  }

  function Outcome(input: ActInput): OrderStatus {
    match input.action
    case Accept => Confirmed
    case Reject => OrderStatus.Cancelled
    case Cancel => OrderStatus.Cancelled
    case ConfirmDelivery => Completed
    case FlagDispute => Disputed
    case ResolveDispute => if input.cancelOrder then OrderStatus.Cancelled else Resolved
  }

  /** The side the record shows: a buyer who also sells counts as the buyer. */
  function SideOf(action: OrderAction, viewer: Viewer, order: Order): ActorSide {
    if action == ResolveDispute then PlatformSide else if Buys(viewer, order) then BuyerSide else SellerSide
  }

  /** Past 72 hours unanswered, or past the problem window. */
  predicate Overdue(o: Order, now: Time) {
    || (o.status == Pending && o.responseDeadline.Some? && o.responseDeadline.value <= now)
    || (o.status == Pending && o.responseDeadline.None? && o.createdAt + 259_200_000 <= now)
    || (o.status == Confirmed && o.disputeDeadline.Some? && o.disputeDeadline.value <= now)
  }

  /** What a step of order `o` from its row's status to `to` leaves: accepting opens 48 hours to report a problem. */
  ghost predicate StepEffect(s: State, o: Id, action: LoggedAction, to: OrderStatus, actorId: Option<Id>,
                             side: ActorSide, now: Time, t: State)
    requires o < |s.orders|
  {
    var order, l := s.orders[o], s.orders[o].listingId;
    var lot := s.listings[l];
    && |t.orders| == |s.orders| && (forall q :: 0 <= q < |s.orders| && q != o ==> t.orders[q] == s.orders[q])
    && t.orders[o] == order.(status := to, disputeDeadline := if to == Confirmed then Some(now + 172_800_000)
                                                              else order.disputeDeadline)
    && t.log == s.log + [OrderEvent(o, action, Some(order.status), to, actorId, side, now)]
    && t.history == s.history
         + (if to == Completed || to == Resolved
            then [SoldTo(lot.passportId, o, order.buyerId, order.quantity, order.amountPence)] else [])
    && OnlyListing(s.listings, t.listings, l)
    && t.listings[l] == lot.(available := if to == OrderStatus.Cancelled then lot.available + order.quantity
                                          else lot.available,
                             status := t.listings[l].status)
    && OnlyStatusOf(s.passports, t.passports, lot.passportId)
  }

  lemma StepHasItsEffect(s: State, o: Id, step: StepRecord)
    requires Inv(s) && o < |s.orders| && Edge(s.orders[o], step)
    ensures StepEffect(s, o, step.action, step.to, step.actorId, step.side, step.now, ApplyStep(s, o, step))
  {
    StepKeeps(s, o, step);
  }

  /** What the clock alone does. */
  lemma LimitsTakeTheirStep(s: State, o: Id, now: Time)
    requires Inv(s) && o < |s.orders|
    ensures var t := CloseIfOverdue(s, o, now);
            if !Overdue(s.orders[o], now) then t == s
            else if s.orders[o].status == Pending
            then StepEffect(s, o, Limit(Lapse), OrderStatus.Cancelled, None, TimeLimit, now, t)
            else StepEffect(s, o, Limit(AutoComplete), Completed, None, TimeLimit, now, t)
  {
    var due := Due(s, o, now);
    if due.Some? {
      StepHasItsEffect(s, o, TimedRecord(due.value, now));
    }
  }

  /** A step a person asks for on an order that is not overdue. */
  ghost predicate ActEffect(s: State, o: Id, input: ActInput, viewer: Viewer, now: Time, t: State)
    requires o < |s.orders|
  {
    StepEffect(s, o, Person(input.action), Outcome(input), Some(viewer.userId),
               SideOf(input.action, viewer, s.orders[o]), now, t)
  }

  predicate Allowed(s: State, o: Id, input: ActInput, viewer: Viewer)
    requires o < |s.orders|
  {
    IsFor(input.action, viewer, s.orders[o], s.listings[s.orders[o].listingId])
  }

  lemma StepIsTakenWhen(s: State, o: Id, input: ActInput, viewer: Viewer, now: Time)
    requires Inv(s) && o < |s.orders| && !Overdue(s.orders[o], now)
    ensures var (t, r) := UpdateTransaction(s, o, input, viewer, now);
            && (r.Ok? <==> Allowed(s, o, input, viewer) && Ripe(input.action, s.orders[o].status))
            && (r.Ok? ==> r.value == t && ActEffect(s, o, input, viewer, now, t))
            && (r.Err? ==> t == s && r.error == if Allowed(s, o, input, viewer) then Conflict else Forbidden)
  {
    var r := TakeStep(s, o, input, viewer, None, now);
    if r.Ok? {
      var order := s.orders[o];
      var step := DecideStep(order, s.listings[order.listingId], input, viewer, None, now).value;
      StepHasItsEffect(s, o, step);
    }
  }

  /** On an overdue order only the limit's step is taken: whoever asks for whatever is refused. */
  lemma OverdueStepIsRefused(s: State, o: Id, input: ActInput, viewer: Viewer, now: Time)
    requires Inv(s) && o < |s.orders| && Overdue(s.orders[o], now)
    ensures var (t, r) := UpdateTransaction(s, o, input, viewer, now);
            var limit := if s.orders[o].status == Pending then Lapse else AutoComplete;
            && t == CloseIfOverdue(s, o, now) && r.Err?
            && r.error == if Allowed(s, o, input, viewer) then TimedOut(limit) else Forbidden
  {
    LimitsTakeTheirStep(s, o, now);
    var c := CloseIfOverdue(s, o, now);
    var l := s.orders[o].listingId;
    ClosedRowRefuses(c.orders[o], c.listings[l], input, viewer, Due(s, o, now).value, now);
    assert IsFor(input.action, viewer, c.orders[o], c.listings[l]) == Allowed(s, o, input, viewer);
  }

  lemma ClosedRowRefuses(order: Order, lot: Listing, input: ActInput, viewer: Viewer, limit: TimedAction, now: Time)
    requires order.status in {OrderStatus.Cancelled, Completed}
    ensures DecideStep(order, lot, input, viewer, Some(limit), now)
         == Err(if IsFor(input.action, viewer, order, lot) then TimedOut(limit) else Forbidden)
  {
  }

  lemma NoSuchOrder(s: State, o: Id, input: ActInput, viewer: Viewer, now: Time)
    requires o >= |s.orders|
    ensures UpdateTransaction(s, o, input, viewer, now) == (s, Err(NotFound))
  {
  }
}
