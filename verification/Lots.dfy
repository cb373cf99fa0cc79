/**
 * Listings, orders and passports of the marketplace, as the service functions
 * change them.
 *
 * A table is a sequence of rows and a row's id is its position: the modelled
 * operations insert and update rows and never delete one. Every function below
 * is one database transaction: it yields the tables after the commit, or the
 * refusal that rolled it back.
 */
module Lots {
  import opened Wrappers

  type Id = nat

  /** Milliseconds. */
  type Time = int

  const MAX_AMOUNT_PENCE := 2_000_000_000
  const HOUR_MS := 60 * 60 * 1000
  const RESPONSE_WINDOW_MS := 72 * HOUR_MS
  const DISPUTE_WINDOW_MS := 48 * HOUR_MS

  // ---------------------------------------------------------------------------
  // Rows
  // ---------------------------------------------------------------------------

  datatype ListingStatus = Active | Reserved | Sold | Expired | Cancelled

  datatype OrderStatus = Pending | Confirmed | Disputed | Completed | Resolved | Cancelled

  /** `Free` is the status the source calls "active". */
  datatype PassportStatus = Draft | Free | Listed | Reserved | Sold | Installed | Decommissioned

  datatype Listing = Listing(
    passportId: Id, organisationId: Id, sellerId: Id,
    pricePence: int, quantity: int, available: int, minOrderQuantity: int,
    status: ListingStatus, expiresAt: Option<Time>)

  datatype Order = Order(
    listingId: Id, buyerId: Id, sellerId: Id, quantity: int, amountPence: int,
    status: OrderStatus, disputeDeadline: Option<Time>, responseDeadline: Option<Time>, createdAt: Time)

  datatype Passport = Passport(organisationId: Id, status: PassportStatus, photos: nat, curated: bool)

  datatype OrderAction = Accept | Reject | Cancel | ConfirmDelivery | FlagDispute | ResolveDispute

  /** What happens to an order with time alone. */
  datatype TimedAction = Lapse | AutoComplete

  datatype LoggedAction = Placed | Person(action: OrderAction) | Limit(timed: TimedAction)

  datatype ActorSide = BuyerSide | SellerSide | PlatformSide | TimeLimit

  datatype OrderEvent = OrderEvent(
    orderId: Id, action: LoggedAction, from: Option<OrderStatus>, to: OrderStatus,
    actorId: Option<Id>, side: ActorSide, at: Time)

  datatype PassportEvent =
    | OfferedForSale(passportId: Id, listingId: Id)
    | SoldTo(passportId: Id, orderId: Id, buyerId: Id, quantity: int, amountPence: int)

  datatype Tables = Tables(
    listings: seq<Listing>, orders: seq<Order>, passports: seq<Passport>,
    log: seq<OrderEvent>, history: seq<PassportEvent>)

  ghost predicate ForeignKeys(s: Tables) {
    && (forall l :: 0 <= l < |s.listings| ==> s.listings[l].passportId < |s.passports|)
    && (forall o :: 0 <= o < |s.orders| ==> s.orders[o].listingId < |s.listings|)
  }

  /** What the database can hold at all: its foreign keys are enforced. */
  type State = s: Tables | ForeignKeys(s) witness Tables([], [], [], [], [])

  datatype Role = HubAdmin | HubStaff | Supplier | BuyerRole | Inspector | PlatformAdmin

  datatype Viewer = Viewer(userId: Id, role: Role, organisationId: Option<Id>)

  datatype Refusal = NotFound | Forbidden | Conflict | Invalid | MaterialRelisted | TimedOut(timed: TimedAction)

  // ---------------------------------------------------------------------------
  // A lot's status
  // ---------------------------------------------------------------------------

  predicate IsLive(status: ListingStatus) { status.Active? || status.Reserved? || status.Sold? }

  predicate IsOpen(status: OrderStatus) { status.Pending? || status.Confirmed? || status.Disputed? }

  predicate IsSale(status: OrderStatus) { status.Completed? || status.Resolved? }

  /** Everything but a cancelled order counts against its lot. */
  predicate Takes(status: OrderStatus) { !status.Cancelled? }

  function LotStatus(available: int, open: nat): ListingStatus {
    if available > 0 then Active else if open > 0 then ListingStatus.Reserved else ListingStatus.Sold
  }

  function PassportStatusFor(status: ListingStatus): PassportStatus
    requires IsLive(status)
  {
    match status
    case Active => Listed
    case Reserved => PassportStatus.Reserved
    case Sold => PassportStatus.Sold
  }

  /** What is counted over a listing's orders. */
  datatype Measure = OpenOrders | UnitsTaken | UnitsHeld | UnitsSold

  function Share(o: Order, l: Id, m: Measure): (r: int)
    ensures m.OpenOrders? ==> 0 <= r <= 1
  {
    if o.listingId != l then 0
    else match m
      case OpenOrders => if IsOpen(o.status) then 1 else 0
      case UnitsTaken => if Takes(o.status) then o.quantity else 0
      case UnitsHeld => if IsOpen(o.status) then o.quantity else 0
      case UnitsSold => if IsSale(o.status) then o.quantity else 0
  }

  function Sum(orders: seq<Order>, l: Id, m: Measure): (r: int)
    ensures m.OpenOrders? ==> 0 <= r
  {
    if orders == [] then 0
    else Sum(orders[..|orders| - 1], l, m) + Share(orders[|orders| - 1], l, m)
  }

  function OpenCount(orders: seq<Order>, l: Id): nat { Sum(orders, l, OpenOrders) }

  function Taken(orders: seq<Order>, l: Id): int { Sum(orders, l, UnitsTaken) }

  /**
   * Settling: status and passport are worked out from the stock and the open
   * orders, which the order rows already reflect. `edited` carries whatever
   * else changes in the listing's row.
   */
  function SettleLot(s: State, l: Id, edited: Listing, available: int, reopen: bool): (t: State)
    requires l < |s.listings| && edited.passportId == s.listings[l].passportId
  {
    var before := s.listings[l];
    var live := reopen || IsLive(before.status);
    var status := if live then LotStatus(available, OpenCount(s.orders, l)) else before.status;
    var s1 := s.(listings := s.listings[l := edited.(available := available, status := status)]);
    if live && (reopen || status != before.status)
    then SetPassportStatus(s1, before.passportId, PassportStatusFor(status))
    else s1
  }

  function SetPassportStatus(s: State, p: Id, status: PassportStatus): (t: State)
    requires p < |s.passports|
  {
    s.(passports := s.passports[p := s.passports[p].(status := status)])
  }

  // ---------------------------------------------------------------------------
  // Listings
  // ---------------------------------------------------------------------------

  datatype CreateInput = CreateInput(
    passportId: Id, pricePence: int, quantity: int, minOrderQuantity: int, expiresAt: Option<Time>)

  /** The request schema's bounds. */
  predicate ValidCreate(input: CreateInput) {
    && 1 <= input.pricePence <= MAX_AMOUNT_PENCE
    && 1 <= input.minOrderQuantity <= input.quantity
  }

  function CreateListing(s: State, input: CreateInput, sellerId: Id, organisationId: Id): Result<State, Refusal> {
    if input.passportId >= |s.passports| then Err(NotFound)
    else
      var p := s.passports[input.passportId];
      if p.organisationId != organisationId then Err(Forbidden)
      else if p.status.Listed? || p.status.Reserved? || p.status.Sold? then Err(Conflict)
      else if p.status.Decommissioned? then Err(Conflict)
      else if p.photos == 0 then Err(Conflict)
      else
        var row := Listing(input.passportId, organisationId, sellerId, input.pricePence, input.quantity,
                           input.quantity, input.minOrderQuantity, Active, input.expiresAt);
        var s1 := s.(listings := s.listings + [row],
                     history := s.history + [OfferedForSale(input.passportId, |s.listings|)]);
        Ok(SetPassportStatus(s1, input.passportId, Listed))
  }

  /** Absent fields are left alone; `expiresAt: Some(None)` clears the date. */
  datatype EditInput = EditInput(
    pricePence: Option<int>, quantity: Option<int>, minOrderQuantity: Option<int>, expiresAt: Option<Option<Time>>)

  predicate ValidEdit(input: EditInput) {
    && (input.pricePence.Some? ==> 1 <= input.pricePence.value <= MAX_AMOUNT_PENCE)
    && (input.quantity.Some? ==> 1 <= input.quantity.value)
    && (input.minOrderQuantity.Some? ==> 1 <= input.minOrderQuantity.value)
  }

  /** The status a reader is shown: from its date on, expired, whatever the row still says. */
  function ListingStatusAt(l: Listing, now: Time): ListingStatus {
    if l.status.Active? && l.expiresAt.Some? && l.expiresAt.value <= now then Expired else l.status
  }

  /** The edited row and its stock, or why the edit is refused; the passport is read only when reopening. */
  function DecideEdit(current: Listing, passport: PassportStatus, input: EditInput, now: Time)
    : Result<(Listing, int), Refusal>
  {
    if !(current.status.Active? || current.status.Reserved? || current.status.Expired?) then Err(Conflict)
    else
      var committed := current.quantity - current.available;
      if input.quantity.Some? && input.quantity.value < committed then Err(Conflict)
      else
        var quantity := input.quantity.GetOr(current.quantity);
        var available := if input.quantity.Some? then quantity - committed else current.available;
        if input.minOrderQuantity.Some? && input.minOrderQuantity.value > quantity then Err(Invalid)
        else
          var expiresAt := input.expiresAt.GetOr(current.expiresAt);
          if ListingStatusAt(current, now).Expired? && expiresAt.Some? && expiresAt.value <= now then Err(Conflict)
          else if current.status.Expired? && available < 1 then Err(Conflict)
          else if current.status.Expired? && passport.Decommissioned? then Err(Conflict)
          else if current.status.Expired? && !passport.Free? then Err(MaterialRelisted)
          else
            Ok((current.(pricePence := input.pricePence.GetOr(current.pricePence),
                         quantity := quantity,
                         minOrderQuantity := input.minOrderQuantity.GetOr(current.minOrderQuantity),
                         expiresAt := expiresAt),
                available))
  }

  function UpdateListing(s: State, l: Id, input: EditInput, organisationId: Id, now: Time): Result<State, Refusal> {
    if l >= |s.listings| then Err(NotFound)
    else if s.listings[l].organisationId != organisationId then Err(Forbidden)
    else
      match DecideEdit(s.listings[l], s.passports[s.listings[l].passportId].status, input, now)
      case Err(why) => Err(why)
      case Ok(edit) => Ok(SettleLot(s, l, edit.0, edit.1, s.listings[l].status.Expired?))
  }

  function CancelListing(s: State, l: Id, organisationId: Id): Result<State, Refusal> {
    if l >= |s.listings| then Err(NotFound)
    else if s.listings[l].organisationId != organisationId then Err(Forbidden)
    else if !(s.listings[l].status.Active? || s.listings[l].status.Reserved?) then Err(Conflict)
    else if OpenCount(s.orders, l) > 0 then Err(Conflict)
    else Ok(CloseListing(s, l, ListingStatus.Cancelled))
  }

  /** Take a listing off the marketplace and release its material. */
  function CloseListing(s: State, l: Id, status: ListingStatus): (t: State)
    requires l < |s.listings|
  {
    var s1 := s.(listings := s.listings[l := s.listings[l].(status := status)]);
    SetPassportStatus(s1, s.listings[l].passportId, Free)
  }

  predicate PastDate(l: Listing, now: Time) { l.status.Active? && l.expiresAt.Some? && l.expiresAt.value <= now }

  /** One listing of the sweep: a listing with open orders waits for them. */
  function ExpireListing(s: State, l: Id, now: Time): State {
    if l < |s.listings| && PastDate(s.listings[l], now) && OpenCount(s.orders, l) == 0
    then CloseListing(s, l, Expired)
    else s
  }

  // ---------------------------------------------------------------------------
  // Placing an order
  // ---------------------------------------------------------------------------

  function OrderableQuantity(available: int, curated: bool, keepLastCuratedUnit: bool): int {
    if keepLastCuratedUnit && curated then (if available > 1 then available - 1 else 0) else available
  }

  function Min(a: int, b: int): int { if a <= b then a else b }

  /** `quantity` defaults to the listing's minimum order. */
  datatype OfferInput = OfferInput(listingId: Id, quantity: Option<int>)

  predicate ValidOffer(input: OfferInput) { input.quantity.Some? ==> 1 <= input.quantity.value }

  /** The order row an offer inserts, or why it is refused. */
  function DecideOffer(
    listing: Listing, curated: bool, input: OfferInput, buyer: Viewer, keepLast: bool, now: Time)
    : Result<Order, Refusal>
  {
    if !listing.status.Active? then Err(Conflict)
    else if listing.sellerId == buyer.userId || buyer.organisationId == Some(listing.organisationId)
    then Err(Forbidden)
    else if listing.expiresAt.Some? && listing.expiresAt.value < now then Err(Conflict)
    else
      var orderable := OrderableQuantity(listing.available, curated, keepLast);
      if orderable < listing.available && orderable < 1 then Err(Conflict)
      else
        var quantity := if input.quantity.Some? then input.quantity.value
                             else Min(listing.minOrderQuantity, orderable);
        if orderable < listing.available && quantity > orderable then Err(Conflict)
        else if quantity > listing.available then Err(Conflict)
        else if quantity < listing.minOrderQuantity && quantity < orderable then Err(Invalid)
        else if listing.pricePence * quantity > MAX_AMOUNT_PENCE then Err(Invalid)
        else
          Ok(Order(input.listingId, buyer.userId, listing.sellerId, quantity, listing.pricePence * quantity,
                   Pending, None, Some(now + RESPONSE_WINDOW_MS), now))
  }

  function MakeOffer(s: State, input: OfferInput, buyer: Viewer, keepLast: bool, now: Time): Result<State, Refusal> {
    if input.listingId >= |s.listings| then Err(NotFound)
    else
      var listing := s.listings[input.listingId];
      match DecideOffer(listing, s.passports[listing.passportId].curated, input, buyer, keepLast, now)
      case Err(why) => Err(why)
      case Ok(order) =>
        var event := OrderEvent(|s.orders|, Placed, None, Pending, Some(buyer.userId), BuyerSide, now);
        var s1 := s.(orders := s.orders + [order], log := s.log + [event]);
        Ok(SettleLot(s1, input.listingId, listing, listing.available - order.quantity, false))
  }

  // ---------------------------------------------------------------------------
  // The order steps
  // ---------------------------------------------------------------------------

  datatype OrderSide = Buyer | Seller | Party | Platform

  /** Who may take which step from which statuses. */
  function From(action: OrderAction): set<OrderStatus> {
    match action
    case Accept => {Pending}
    case Reject => {Pending}
    case Cancel => {Pending, Confirmed}
    case ConfirmDelivery => {Confirmed}
    case FlagDispute => {Confirmed}
    case ResolveDispute => {Disputed}
  }

  function To(action: OrderAction): OrderStatus {
    match action
    case Accept => Confirmed
    case Reject => OrderStatus.Cancelled
    case Cancel => OrderStatus.Cancelled
    case ConfirmDelivery => Completed
    case FlagDispute => Disputed
    case ResolveDispute => Resolved
  }

  function By(action: OrderAction): OrderSide {
    match action
    case Accept => Seller
    case Reject => Seller
    case Cancel => Party
    case ConfirmDelivery => Buyer
    case FlagDispute => Buyer
    case ResolveDispute => Platform
  }

  datatype Standing = Standing(buyer: bool, seller: bool, admin: bool)

  predicate SellsFor(viewer: Viewer, order: Order, listing: Listing) {
    || order.sellerId == viewer.userId
    || (viewer.organisationId == Some(listing.organisationId)
        && (viewer.role.HubAdmin? || viewer.role.HubStaff? || viewer.role.Supplier?))
  }

  function StandingOf(viewer: Viewer, order: Order, listing: Listing): Standing {
    Standing(order.buyerId == viewer.userId, SellsFor(viewer, order, listing), viewer.role.PlatformAdmin?)
  }

  predicate MayAct(side: OrderSide, on: Standing) {
    match side
    case Buyer => on.buyer
    case Seller => on.seller
    case Party => on.buyer || on.seller
    case Platform => on.admin
  }

  function ResponseDeadlineOf(o: Order): Time {
    o.responseDeadline.GetOr(o.createdAt + RESPONSE_WINDOW_MS)
  }

  /** What the clock alone does to an order by `now`. */
  function TimedStep(o: Order, now: Time): Option<TimedAction> {
    if o.status.Pending? && ResponseDeadlineOf(o) <= now then Some(Lapse)
    else if o.status.Confirmed? && o.disputeDeadline.Some? && o.disputeDeadline.value <= now then Some(AutoComplete)
    else None
  }

  function TimedTo(timed: TimedAction): OrderStatus {
    match timed
    case Lapse => OrderStatus.Cancelled
    case AutoComplete => Completed
  }

  datatype StepRecord = StepRecord(
    action: LoggedAction, to: OrderStatus, actorId: Option<Id>, side: ActorSide, now: Time)

  /** The order row after a step. */
  function Moved(o: Order, step: StepRecord): Order {
    var deadline := if step.to.Confirmed? then Some(step.now + DISPUTE_WINDOW_MS) else o.disputeDeadline;
    o.(status := step.to, disputeDeadline := deadline)
  }

  function Returned(o: Order, step: StepRecord): int { if step.to.Cancelled? then o.quantity else 0 }

  /** Move an order one step: the row, the lot's stock and status, and both histories. */
  function ApplyStep(s: State, o: Id, step: StepRecord): (t: State)
    requires o < |s.orders|
  {
    var order := s.orders[o];
    var listing := s.listings[order.listingId];
    var s1 := s.(orders := s.orders[o := Moved(order, step)]);
    var s2 := SettleLot(s1, order.listingId, listing,
                        Min(listing.quantity, listing.available + Returned(order, step)), false);
    var sale := if IsSale(step.to)
                then [SoldTo(listing.passportId, o, order.buyerId, order.quantity, order.amountPence)] else [];
    var event := OrderEvent(o, step.action, Some(order.status), step.to, step.actorId, step.side, step.now);
    s2.(history := s2.history + sale, log := s2.log + [event])
  }

  function TimedRecord(timed: TimedAction, now: Time): StepRecord {
    StepRecord(Limit(timed), TimedTo(timed), None, TimeLimit, now)
  }

  function Due(s: State, o: Id, now: Time): Option<TimedAction> {
    if o < |s.orders| then TimedStep(s.orders[o], now) else None
  }

  function CloseIfOverdue(s: State, o: Id, now: Time): State {
    match Due(s, o, now)
    case None => s
    case Some(timed) => ApplyStep(s, o, TimedRecord(timed, now))
  }

  datatype ActInput = ActInput(action: OrderAction, cancelOrder: bool)

  /** The step a person asks for on the rows as locked, or why it is refused. */
  function DecideStep(
    order: Order, listing: Listing, input: ActInput, viewer: Viewer, timedOut: Option<TimedAction>, now: Time)
    : Result<StepRecord, Refusal>
  {
    var on := StandingOf(viewer, order, listing);
    if !MayAct(By(input.action), on) then Err(Forbidden)
    else if order.status !in From(input.action) then
      if timedOut.Some? then Err(TimedOut(timedOut.value)) else Err(Conflict)
    else
      var to := if input.action.ResolveDispute? && input.cancelOrder then OrderStatus.Cancelled else To(input.action);
      var side := if on.admin && By(input.action).Platform? then PlatformSide
                  else if on.buyer then BuyerSide else SellerSide;
      Ok(StepRecord(Person(input.action), to, Some(viewer.userId), side, now))
  }

  /** The second transaction of `updateTransaction`: a person's step on the locked rows. */
  function TakeStep(s: State, o: Id, input: ActInput, viewer: Viewer, timedOut: Option<TimedAction>, now: Time)
    : Result<State, Refusal>
  {
    if o >= |s.orders| then Err(NotFound)
    else
      match DecideStep(s.orders[o], s.listings[s.orders[o].listingId], input, viewer, timedOut, now)
      case Err(why) => Err(why)
      case Ok(step) => Ok(ApplyStep(s, o, step))
  }

  /** A time limit that has passed takes its step, and keeps it, before the person's. */
  function UpdateTransaction(s: State, o: Id, input: ActInput, viewer: Viewer, now: Time)
    : (State, Result<State, Refusal>)
  {
    var s1 := CloseIfOverdue(s, o, now);
    var r := TakeStep(s1, o, input, viewer, Due(s, o, now), now);
    (if r.Ok? then r.value else s1, r)
  }
}
