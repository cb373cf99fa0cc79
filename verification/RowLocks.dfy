/**
 * The same transactions running at once, one step at a time, on row locks.
 *
 * A process is one database transaction: it locks and reads rows, counts open
 * orders without a lock, and writes everything at its commit. A locked row is
 * read as last committed, and the count sees committed rows and the process's
 * own order write. Every interleaving comes out as the serial run in the order
 * the transactions finish, and none can get stuck.
 */
module RowLocks {
  import opened Wrappers
  import opened Lots
  import opened LotInvariant

  datatype Tx =
    | OfferTx(offer: OfferInput, buyer: Viewer, keepLast: bool, now: Time)
    | EditTx(listingId: Id, edit: EditInput, organisationId: Id, now: Time)
    | CloseTx(orderId: Id, now: Time)
    | StepTx(orderId: Id, act: ActInput, viewer: Viewer, timedOut: Option<TimedAction>, now: Time)
    | ExpireTx(listingId: Id, now: Time)

  /** The transaction on its own. */
  function Serial(s: State, tx: Tx): Result<State, Refusal> {
    match tx
    case OfferTx(offer, buyer, keepLast, now) => MakeOffer(s, offer, buyer, keepLast, now)
    case EditTx(l, edit, organisationId, now) => UpdateListing(s, l, edit, organisationId, now)
    case CloseTx(o, now) => Ok(CloseIfOverdue(s, o, now))
    case StepTx(o, act, viewer, timedOut, now) => TakeStep(s, o, act, viewer, timedOut, now)
    case ExpireTx(l, now) => Ok(ExpireListing(s, l, now))
  }

  function SerialCommit(s: State, tx: Tx): State {
    var r := Serial(s, tx);
    if r.Ok? then r.value else s
  }

  // ---------------------------------------------------------------------------
  // What a transaction writes, from the rows it has read
  // ---------------------------------------------------------------------------

  datatype OrderWrite = NoWrite | Insert(order: Order) | Replace(id: Id, order: Order)

  function Overlay(orders: seq<Order>, w: OrderWrite): seq<Order> {
    match w
    case NoWrite => orders
    case Insert(o) => orders + [o]
    case Replace(id, o) => if id < |orders| then orders[id := o] else orders
  }

  datatype Plan =
    | Refuse
    | Nothing
    | Settle(write: OrderWrite, edited: Listing, available: int, reopen: bool,
             events: seq<OrderEvent>, sales: seq<PassportEvent>)
    | ExpireIfIdle

  function StepPlan(o: Id, order: Order, listing: Listing, step: StepRecord): Plan {
    Settle(Replace(o, Moved(order, step)), listing,
           Min(listing.quantity, listing.available + Returned(order, step)), false,
           [OrderEvent(o, step.action, Some(order.status), step.to, step.actorId, step.side, step.now)],
           if IsSale(step.to)
           then [SoldTo(listing.passportId, o, order.buyerId, order.quantity, order.amountPence)] else [])
  }

  /** `order` is the row an order transaction locked; `passport` the status an edit read under its lock. */
  function PlanOf(tx: Tx, order: Option<Order>, listing: Listing, passport: PassportStatus, curated: bool): Plan {
    match tx
    case OfferTx(offer, buyer, keepLast, now) =>
      (match DecideOffer(listing, curated, offer, buyer, keepLast, now)
       case Err(_) => Refuse
       case Ok(o) =>
         Settle(Insert(o), listing, listing.available - o.quantity, false,
                [OrderEvent(0, Placed, None, Pending, Some(buyer.userId), BuyerSide, now)], []))
    case EditTx(_, edit, organisationId, now) =>
      if listing.organisationId != organisationId then Refuse
      else
        (match DecideEdit(listing, passport, edit, now)
         case Err(_) => Refuse
         case Ok(e) => Settle(NoWrite, e.0, e.1, listing.status.Expired?, [], []))
    case CloseTx(o, now) =>
      if order.None? || TimedStep(order.value, now).None? then Nothing
      else StepPlan(o, order.value, listing, TimedRecord(TimedStep(order.value, now).value, now))
    case StepTx(o, act, viewer, timedOut, now) =>
      if order.None? then Refuse
      else
        (match DecideStep(order.value, listing, act, viewer, timedOut, now)
         case Err(_) => Refuse
         case Ok(step) => StepPlan(o, order.value, listing, step))
    case ExpireTx(_, now) => if PastDate(listing, now) then ExpireIfIdle else Nothing
  }

  function WriteOf(plan: Plan): OrderWrite { if plan.Settle? then plan.write else NoWrite }

  /** The listing row the plan writes, given the count of open orders it read. */
  function RowAfter(plan: Plan, before: Listing, open: nat): Listing {
    match plan
    case Settle(_, edited, available, reopen, _, _) =>
      edited.(available := available,
              status := if reopen || IsLive(before.status) then LotStatus(available, open) else before.status)
    case ExpireIfIdle => if open == 0 then before.(status := Expired) else before
    case _ => before
  }

  /** The passport status the plan writes, if it writes one. */
  function PassportAfter(plan: Plan, before: Listing, open: nat): Option<PassportStatus> {
    match plan
    case Settle(_, _, available, reopen, _, _) =>
      var status := LotStatus(available, open);
      if reopen || (IsLive(before.status) && status != before.status) then Some(PassportStatusFor(status)) else None
    case ExpireIfIdle => if open == 0 then Some(Free) else None
    case _ => None
  }

  predicate FitsListing(plan: Plan, s: State, l: Id)
    requires l < |s.listings|
  {
    plan.Settle? ==>
      && plan.edited.passportId == s.listings[l].passportId
      && (plan.write.Insert? ==> plan.write.order.listingId == l)
      && (plan.write.Replace? ==>
            plan.write.id < |s.orders| && s.orders[plan.write.id].listingId == l && plan.write.order.listingId == l)
  }

  /** One listing row written, and its passport's status if that is written too. */
  function Written(s: State, l: Id, row: Listing, status: Option<PassportStatus>): State
    requires l < |s.listings| && row.passportId == s.listings[l].passportId
  {
    var s1 := s.(listings := s.listings[l := row]);
    match status
    case None => s1
    case Some(value) => SetPassportStatus(s1, row.passportId, value)
  }

  /** The commit: all of the plan's writes at once. A new order takes the next id. */
  function Apply(s: State, l: Id, plan: Plan, open: nat): State
    requires l < |s.listings| && FitsListing(plan, s, l)
  {
    var before := s.listings[l];
    var events := if !plan.Settle? then []
                  else if plan.write.Insert? && |plan.events| == 1 then [plan.events[0].(orderId := |s.orders|)]
                  else plan.events;
    var sales := if plan.Settle? then plan.sales else [];
    var s1 := s.(orders := Overlay(s.orders, WriteOf(plan)), log := s.log + events, history := s.history + sales);
    Written(s1, l, RowAfter(plan, before, open), PassportAfter(plan, before, open))
  }

  /** Settling a lot is writing the row and status a plan computes from the count. */
  lemma SettleAsWrites(s: State, l: Id, plan: Plan)
    requires l < |s.listings| && plan.Settle? && plan.edited.passportId == s.listings[l].passportId
    ensures var before := s.listings[l]; var open := OpenCount(s.orders, l);
            SettleLot(s, l, plan.edited, plan.available, plan.reopen)
              == Written(s, l, RowAfter(plan, before, open), PassportAfter(plan, before, open))
  {
  }

  /** An order transaction's order, and the listing every transaction locks. */
  function OrderOf(tx: Tx): Option<Id> { if tx.CloseTx? || tx.StepTx? then Some(tx.orderId) else None }

  function ListingOf(tx: Tx, order: Option<Order>): Id {
    match tx
    case OfferTx(offer, _, _, _) => offer.listingId
    case EditTx(l, _, _, _) => l
    case ExpireTx(l, _) => l
    case _ => if order.Some? then order.value.listingId else 0
  }

  /** An edit locks the passport only to reopen, and only when nothing else refuses it. */
  predicate ReadsPassport(tx: Tx, listing: Listing) {
    && tx.EditTx? && listing.organisationId == tx.organisationId && listing.status.Expired?
    && DecideEdit(listing, Free, tx.edit, tx.now).Ok?
  }

  /** The rows a transaction has read are the committed ones. */
  ghost predicate Current(
    s: State, tx: Tx, order: Option<Order>, listing: Listing, passport: PassportStatus, curated: bool)
  {
    && (OrderOf(tx).Some? <==> order.Some?)
    && (order.Some? ==> OrderOf(tx).value < |s.orders| && order.value == s.orders[OrderOf(tx).value])
    && var l := ListingOf(tx, order);
    && l < |s.listings| && listing == s.listings[l]
    && curated == s.passports[listing.passportId].curated
    && (ReadsPassport(tx, listing) ==> passport == s.passports[listing.passportId].status)
  }

  lemma StepCommit(s: State, o: Id, step: StepRecord)
    requires o < |s.orders|
    ensures var l := s.orders[o].listingId; var plan := StepPlan(o, s.orders[o], s.listings[l], step);
            && FitsListing(plan, s, l)
            && ApplyStep(s, o, step) == Apply(s, l, plan, OpenCount(Overlay(s.orders, plan.write), l))
  {
    var l := s.orders[o].listingId;
    var plan := StepPlan(o, s.orders[o], s.listings[l], step);
    var s1 := s.(orders := s.orders[o := Moved(s.orders[o], step)]);
    SettleAsWrites(s1, l, plan);
    var t := ApplyStep(s, o, step);
    assert t.log == s.log + plan.events && t.history == s.history + plan.sales;
  }

  lemma OfferCommit(s: State, tx: Tx)
    requires tx.OfferTx? && tx.offer.listingId < |s.listings|
    ensures var l := tx.offer.listingId; var row := s.listings[l]; var p := s.passports[row.passportId];
            var plan := PlanOf(tx, None, row, p.status, p.curated);
            && FitsListing(plan, s, l) && (Serial(s, tx).Ok? <==> plan.Settle?) && (plan.Settle? || plan.Refuse?)
            && (plan.Settle? ==>
                  Serial(s, tx).value == Apply(s, l, plan, OpenCount(Overlay(s.orders, plan.write), l)))
  {
    var l := tx.offer.listingId;
    var row := s.listings[l];
    var plan := PlanOf(tx, None, row, s.passports[row.passportId].status, s.passports[row.passportId].curated);
    if plan.Settle? {
      var event := OrderEvent(|s.orders|, Placed, None, Pending, Some(tx.buyer.userId), BuyerSide, tx.now);
      assert plan.events[0].(orderId := |s.orders|) == event;
      var s1 := s.(orders := s.orders + [plan.write.order], log := s.log + [event]);
      SettleAsWrites(s1, l, plan);
      assert s1.history + [] == s1.history;
    }
  }

  lemma NoWriteIsNothing(s: State, l: Id, plan: Plan, open: nat)
    requires l < |s.listings| && (plan.Refuse? || plan.Nothing? || (plan.ExpireIfIdle? && open > 0))
    ensures FitsListing(plan, s, l) && Apply(s, l, plan, open) == s
  {
    assert s.log + [] == s.log && s.history + [] == s.history && s.listings[l := s.listings[l]] == s.listings;
  }

  lemma EditCommit(s: State, tx: Tx)
    requires tx.EditTx? && tx.listingId < |s.listings|
    ensures var l := tx.listingId; var row := s.listings[l]; var p := s.passports[row.passportId];
            var plan := PlanOf(tx, None, row, p.status, p.curated);
            && FitsListing(plan, s, l) && (Serial(s, tx).Ok? <==> plan.Settle?) && (plan.Settle? || plan.Refuse?)
            && (plan.Settle? ==>
                  Serial(s, tx).value == Apply(s, l, plan, OpenCount(Overlay(s.orders, plan.write), l)))
  {
    var l := tx.listingId;
    var row := s.listings[l];
    var plan := PlanOf(tx, None, row, s.passports[row.passportId].status, s.passports[row.passportId].curated);
    if plan.Settle? {
      SettleAsWrites(s, l, plan);
      assert s.log + [] == s.log && s.history + [] == s.history;
    }
  }

  lemma ExpireCommit(s: State, tx: Tx)
    requires tx.ExpireTx? && tx.listingId < |s.listings|
    ensures var l := tx.listingId; var row := s.listings[l]; var p := s.passports[row.passportId];
            var plan := PlanOf(tx, None, row, p.status, p.curated);
            FitsListing(plan, s, l) && SerialCommit(s, tx) == Apply(s, l, plan, OpenCount(s.orders, l))
  {
    var l := tx.listingId;
    var row := s.listings[l];
    var plan := PlanOf(tx, None, row, s.passports[row.passportId].status, s.passports[row.passportId].curated);
    if plan.Nothing? || OpenCount(s.orders, l) > 0 {
      NoWriteIsNothing(s, l, plan, OpenCount(s.orders, l));
    } else {
      assert s.log + [] == s.log && s.history + [] == s.history;
    }
  }

  /** Committing the plan with a true count is the transaction on its own. */
  ghost predicate CommitsAlone(s: State, tx: Tx, l: Id, plan: Plan)
    requires l < |s.listings|
  {
    && FitsListing(plan, s, l)
    && (Serial(s, tx).Ok? <==> !plan.Refuse?)
    && SerialCommit(s, tx) == Apply(s, l, plan, OpenCount(Overlay(s.orders, WriteOf(plan)), l))
  }

  lemma EditCommitsAlone(s: State, tx: Tx, listing: Listing, passport: PassportStatus, curated: bool)
    requires tx.EditTx? && Current(s, tx, None, listing, passport, curated)
    ensures CommitsAlone(s, tx, tx.listingId, PlanOf(tx, None, listing, passport, curated))
  {
    var plan := PlanOf(tx, None, listing, passport, curated);
    EditNeedsPassportOnlyToReopen(listing, passport, s.passports[listing.passportId].status, tx.edit, tx.now);
    EditCommit(s, tx);
    if plan.Refuse? {
      NoWriteIsNothing(s, tx.listingId, plan, OpenCount(s.orders, tx.listingId));
    }
  }

  lemma OfferCommitsAlone(s: State, tx: Tx, listing: Listing, passport: PassportStatus, curated: bool)
    requires tx.OfferTx? && Current(s, tx, None, listing, passport, curated)
    ensures CommitsAlone(s, tx, tx.offer.listingId, PlanOf(tx, None, listing, passport, curated))
  {
    var l, plan := tx.offer.listingId, PlanOf(tx, None, listing, passport, curated);
    OfferCommit(s, tx);
    if plan.Refuse? {
      NoWriteIsNothing(s, l, plan, OpenCount(Overlay(s.orders, WriteOf(plan)), l));
    }
  }

  lemma ExpireCommitsAlone(s: State, tx: Tx, listing: Listing, passport: PassportStatus, curated: bool)
    requires tx.ExpireTx? && Current(s, tx, None, listing, passport, curated)
    ensures CommitsAlone(s, tx, tx.listingId, PlanOf(tx, None, listing, passport, curated))
  {
    ExpireCommit(s, tx);
  }

  lemma CloseCommitsAlone(s: State, tx: Tx, order: Order, listing: Listing, passport: PassportStatus, curated: bool)
    requires tx.CloseTx? && Current(s, tx, Some(order), listing, passport, curated)
    ensures CommitsAlone(s, tx, order.listingId, PlanOf(tx, Some(order), listing, passport, curated))
  {
    var l, plan := order.listingId, PlanOf(tx, Some(order), listing, passport, curated);
    var due := TimedStep(order, tx.now);
    if due.Some? {
      StepCommit(s, tx.orderId, TimedRecord(due.value, tx.now));
    } else {
      NoWriteIsNothing(s, l, plan, OpenCount(Overlay(s.orders, WriteOf(plan)), l));
    }
  }

  lemma StepCommitsAlone(s: State, tx: Tx, order: Order, listing: Listing, passport: PassportStatus, curated: bool)
    requires tx.StepTx? && Current(s, tx, Some(order), listing, passport, curated)
    ensures CommitsAlone(s, tx, order.listingId, PlanOf(tx, Some(order), listing, passport, curated))
  {
    var l, plan := order.listingId, PlanOf(tx, Some(order), listing, passport, curated);
    var step := DecideStep(order, listing, tx.act, tx.viewer, tx.timedOut, tx.now);
    if step.Ok? {
      StepCommit(s, tx.orderId, step.value);
    } else {
      NoWriteIsNothing(s, l, plan, OpenCount(Overlay(s.orders, WriteOf(plan)), l));
    }
  }

  /** A commit from current rows and a true count is the serial transaction. */
  lemma CommitIsSerial(s: State, tx: Tx, order: Option<Order>, listing: Listing, passport: PassportStatus, curated: bool)
    requires Current(s, tx, order, listing, passport, curated)
    ensures CommitsAlone(s, tx, ListingOf(tx, order), PlanOf(tx, order, listing, passport, curated))
  {
    match tx
    case OfferTx(_, _, _, _) => OfferCommitsAlone(s, tx, listing, passport, curated);
    case EditTx(_, _, _, _) => EditCommitsAlone(s, tx, listing, passport, curated);
    case ExpireTx(_, _) => ExpireCommitsAlone(s, tx, listing, passport, curated);
    case CloseTx(_, _) => CloseCommitsAlone(s, tx, order.value, listing, passport, curated);
    case StepTx(_, _, _, _, _) => StepCommitsAlone(s, tx, order.value, listing, passport, curated);
  }

  lemma EditNeedsPassportOnlyToReopen(l: Listing, p: PassportStatus, q: PassportStatus, edit: EditInput, now: Time)
    ensures !l.status.Expired? ==> DecideEdit(l, p, edit, now) == DecideEdit(l, q, edit, now)
    ensures DecideEdit(l, Free, edit, now).Err? ==> DecideEdit(l, p, edit, now).Err? && DecideEdit(l, q, edit, now).Err?
  {
  }
}
