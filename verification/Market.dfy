/**
 * The service functions as they run: each one reads and writes rows in place,
 * and is proved to leave the tables the transaction it specifies would.
 */
module Market {
  import opened Wrappers
  import Lots
  import opened LotInvariant
  import Effects
  import opened Sweep
  import opened SweepBatch

  type Id = Lots.Id
  type Time = Lots.Time

  /** How many of these orders the seller has not answered. */
  ghost function PendingAmong(s: Lots.State, ids: seq<Id>): nat {
    if ids == [] then 0
    else
      var o := ids[|ids| - 1];
      PendingAmong(s, ids[..|ids| - 1]) + (if o < |s.orders| && s.orders[o].status.Pending? then 1 else 0)
  }

  /** An order selected once is still due when its turn comes. */
  lemma NextIsStillDue(s: Lots.State, due: seq<Id>, i: nat, now: Time)
    requires Inv(s) && Distinct(due) && i < |due| && forall o :: o in due ==> o in OverdueSet(s, now)
    ensures due[i] < |s.orders|
    ensures Lots.Due(CloseAll(s, due[..i], now), due[i], now)
         == Some(if s.orders[due[i]].status.Pending? then Lots.Lapse else Lots.AutoComplete)
  {
    CloseAllPointwise(s, due[..i], now);
    assert due[i] in due && due[i] in OverdueSet(s, now) && due[i] !in due[..i];
  }

  /** A listing selected once is expired on its turn exactly when it was expirable to begin with. */
  lemma NextIsStillExpirable(s: Lots.State, stale: seq<Id>, i: nat, now: Time)
    requires Inv(s) && Distinct(stale) && i < |stale|
    ensures stale[i] in Expirable(ExpireAll(s, stale[..i], now), now) <==> stale[i] in Expirable(s, now)
  {
    ExpireAllPointwise(s, stale[..i], now);
    assert stale[i] !in stale[..i];
  }

  lemma ExpireOneMore(s: Lots.State, stale: seq<Id>, i: nat, now: Time)
    requires i < |stale|
    ensures ExpireAll(s, stale[..i + 1], now) == Lots.ExpireListing(ExpireAll(s, stale[..i], now), stale[i], now)
  {
    assert stale[..i + 1][..i] == stale[..i];
  }

  lemma OneMoreMember(ids: seq<Id>, i: nat, wanted: set<Id>)
    requires Distinct(ids) && i < |ids|
    ensures |Members(ids[..i + 1]) * wanted| == |Members(ids[..i]) * wanted| + if ids[i] in wanted then 1 else 0
  {
    assert ids[..i + 1] == ids[..i] + [ids[i]] && ids[i] !in ids[..i];
    assert Members(ids[..i + 1]) * wanted == Members(ids[..i]) * wanted + if ids[i] in wanted then {ids[i]} else {};
  }

  /** What the overdue query selects is due, and as many as closing them takes off the overdue orders. */
  lemma SelectedAreDue(s: Lots.State, scan: seq<Id>, now: Time, limit: nat)
    requires Inv(s) && ScanOf(scan, |s.orders|)
    ensures var ids := Limit(OverdueIds(s, scan, now), limit);
            && Distinct(ids) && (forall o :: o in ids ==> o in OverdueSet(s, now))
            && |ids| == |OverdueSet(s, now)| - |OverdueSet(CloseBatch(s, scan, now, limit), now)|
  {
    var due := OverdueIds(s, scan, now);
    OverdueQuery(s, scan, now);
    CloseBatchProgress(s, scan, now, limit);
    DistinctCounts(due);
    assert Members(due) == OverdueSet(s, now);
  }

  /** Expiring a batch touches no order, and takes the batch's expirable listings off the expirable ones. */
  lemma ExpiredAreCounted(s: Lots.State, scan: seq<Id>, now: Time, limit: nat)
    requires Inv(s) && ScanOf(scan, |s.listings|)
    ensures var ids, t := Limit(PastDateIds(s, scan, now), limit), ExpireBatch(s, scan, now, limit);
            && Distinct(ids) && Inv(t) && OverdueSet(t, now) == OverdueSet(s, now)
            && |Members(ids) * Expirable(s, now)| == |Expirable(s, now)| - |Expirable(t, now)|
  {
    var ids, t := Limit(PastDateIds(s, scan, now), limit), ExpireBatch(s, scan, now, limit);
    PastDateQuery(s, scan, now);
    ExpireBatchEffect(s, scan, now, limit);
    assert Expirable(s, now) == Expirable(t, now) + Members(ids) * Expirable(s, now);
  }

  class Marketplace {
    var listings: seq<Lots.Listing>
    var orders: seq<Lots.Order>
    var passports: seq<Lots.Passport>
    var log: seq<Lots.OrderEvent>
    var history: seq<Lots.PassportEvent>

    ghost predicate Valid()
      reads this
    {
      Lots.ForeignKeys(Lots.Tables(listings, orders, passports, log, history))
    }

    ghost function State(): Lots.State
      requires Valid()
      reads this
    {
      Lots.Tables(listings, orders, passports, log, history)
    }

    constructor (passports: seq<Lots.Passport>)
      ensures Valid() && State() == Lots.Tables([], [], passports, [], [])
    {
      this.passports := passports;
      listings, orders, log, history := [], [], [], [];
    }

    /** The count query of a lot's open orders. */
    method CountOpen(l: Id) returns (open: nat)
      ensures open == Lots.OpenCount(orders, l)
    {
      open := 0;
      for i := 0 to |orders|
        invariant open == Lots.OpenCount(orders[..i], l)
      {
        if orders[i].listingId == l && Lots.IsOpen(orders[i].status) {
          open := open + 1;
        }
        assert orders[..i + 1][..i] == orders[..i];
      }
      assert orders[..|orders|] == orders;
    }

    method SettleLot(l: Id, edited: Lots.Listing, available: int, reopen: bool)
      requires Valid() && l < |listings| && edited.passportId == listings[l].passportId
      modifies this`listings, this`passports
      ensures Valid() && State() == Lots.SettleLot(old(State()), l, edited, available, reopen)
    {
      var before := listings[l];
      var open := CountOpen(l);
      var live := reopen || Lots.IsLive(before.status);
      var status := before.status;
      if live {
        status := Lots.LotStatus(available, open);
      }
      listings := listings[l := edited.(available := available, status := status)];
      if live && (reopen || status != before.status) {
        var p := before.passportId;
        passports := passports[p := passports[p].(status := Lots.PassportStatusFor(status))];
      }
    }

    method CreateListing(input: Lots.CreateInput, sellerId: Id, organisationId: Id)
      returns (r: Result<Id, Lots.Refusal>)
      requires Valid()
      modifies this`listings, this`passports, this`history
      ensures Valid()
      ensures match Lots.CreateListing(old(State()), input, sellerId, organisationId)
              case Err(why) => r == Err(why) && State() == old(State())
              case Ok(t) => r == Ok(old(|listings|)) && State() == t
    {
      var p := input.passportId;
      if p >= |passports| { return Err(Lots.NotFound); }
      if passports[p].organisationId != organisationId { return Err(Lots.Forbidden); }
      var status := passports[p].status;
      if status.Listed? || status.Reserved? || status.Sold? { return Err(Lots.Conflict); }
      if status.Decommissioned? { return Err(Lots.Conflict); }
      if passports[p].photos == 0 { return Err(Lots.Conflict); }
      var l := |listings|;
      listings := listings + [Lots.Listing(p, organisationId, sellerId, input.pricePence, input.quantity,
                                           input.quantity, input.minOrderQuantity, Lots.Active, input.expiresAt)];
      passports := passports[p := passports[p].(status := Lots.Listed)];
      history := history + [Lots.OfferedForSale(p, l)];
      return Ok(l);
    }

    /** What an edit changes of the row it locked, and the stock it leaves. */
    static method EditRow(current: Lots.Listing, status: Lots.PassportStatus, input: Lots.EditInput, now: Time)
      returns (r: Result<(Lots.Listing, int), Lots.Refusal>)
      ensures r == Lots.DecideEdit(current, status, input, now)
      // What orders hold or have bought stays as it is, and there must be room for it.
      ensures var committed := current.quantity - current.available;
              var quantity := input.quantity.GetOr(current.quantity);
              && (r.Ok? <==>
                    && (current.status.Active? || current.status.Reserved? || current.status.Expired?)
                    && (input.quantity.Some? ==> committed <= quantity)
                    && (input.minOrderQuantity.Some? ==> input.minOrderQuantity.value <= quantity)
                    && (Lots.ListingStatusAt(current, now).Expired? ==>
                          var until := input.expiresAt.GetOr(current.expiresAt); until.Some? ==> now < until.value)
                    && (current.status.Expired? ==> committed < quantity && status.Free?))
              && (r.Ok? ==>
                    && r.value.0.quantity == quantity && r.value.0.quantity - r.value.1 == committed
                    && Effects.EditedTo(current, input, r.value.0.(available := r.value.1))
                    && r.value.0.status == current.status)
    {
      if !(current.status.Active? || current.status.Reserved? || current.status.Expired?) {
        return Err(Lots.Conflict);
      }
      var changes, available := current, current.available;
      if input.pricePence.Some? {
        changes := changes.(pricePence := input.pricePence.value);
      }
      if input.quantity.Some? {
        // Only what the new quantity leaves beyond the committed units goes back on offer.
        var committed := current.quantity - current.available;
        if input.quantity.value < committed { return Err(Lots.Conflict); }
        changes := changes.(quantity := input.quantity.value);
        available := input.quantity.value - committed;
      }
      if input.minOrderQuantity.Some? {
        if input.minOrderQuantity.value > changes.quantity { return Err(Lots.Invalid); }
        changes := changes.(minOrderQuantity := input.minOrderQuantity.value);
      }
      if input.expiresAt.Some? {
        changes := changes.(expiresAt := input.expiresAt.value);
      }
      if Lots.ListingStatusAt(current, now).Expired? {
        if changes.expiresAt.Some? && changes.expiresAt.value <= now { return Err(Lots.Conflict); }
      }
      if current.status.Expired? {
        if available < 1 { return Err(Lots.Conflict); }
        if status.Decommissioned? { return Err(Lots.Conflict); }
        if !status.Free? { return Err(Lots.MaterialRelisted); }
      }
      return Ok((changes, available));
    }

    method UpdateListing(l: Id, input: Lots.EditInput, organisationId: Id, now: Time)
      returns (r: Result<Lots.Listing, Lots.Refusal>)
      requires Valid()
      modifies this`listings, this`passports
      ensures Valid()
      ensures match Lots.UpdateListing(old(State()), l, input, organisationId, now)
              case Err(why) => r == Err(why) && State() == old(State())
              case Ok(t) => State() == t && l < |listings| && r == Ok(listings[l])
      ensures Inv(old(State())) ==>
                && (r.Ok? <==>
                      && l < |old(listings)| && old(listings)[l].organisationId == organisationId
                      && Effects.Editable(old(listings)[l], old(passports)[old(listings)[l].passportId].status, input, now))
                && (r.Ok? ==> Effects.EditEffect(old(State()), l, input, State()))
    {
      if Inv(State()) {
        Effects.ListingIsEditedWhen(State(), l, input, organisationId, now);
      }
      if l >= |listings| { return Err(Lots.NotFound); }
      var current := listings[l];
      if current.organisationId != organisationId { return Err(Lots.Forbidden); }
      var edit := EditRow(current, passports[current.passportId].status, input, now);
      if edit.Err? { return Err(edit.error); }
      SettleLot(l, edit.value.0, edit.value.1, current.status.Expired?);
      return Ok(listings[l]);
    }

    method CancelListing(l: Id, organisationId: Id) returns (r: Result<(), Lots.Refusal>)
      requires Valid()
      modifies this`listings, this`passports
      ensures Valid()
      ensures match Lots.CancelListing(old(State()), l, organisationId)
              case Err(why) => r == Err(why) && State() == old(State())
              case Ok(t) => r == Ok(()) && State() == t
    {
      if l >= |listings| { return Err(Lots.NotFound); }
      if listings[l].organisationId != organisationId { return Err(Lots.Forbidden); }
      if !(listings[l].status.Active? || listings[l].status.Reserved?) { return Err(Lots.Conflict); }
      var open := CountOpen(l);
      if open > 0 { return Err(Lots.Conflict); }
      var p := listings[l].passportId;
      listings := listings[l := listings[l].(status := Lots.ListingStatus.Cancelled)];
      passports := passports[p := passports[p].(status := Lots.Free)];
      return Ok(());
    }

    /** The order row an offer inserts for the listing it locked. */
    static method OrderRow(listing: Lots.Listing, curated: bool, input: Lots.OfferInput, buyer: Lots.Viewer,
                           keepLast: bool, now: Time)
      returns (r: Result<Lots.Order, Lots.Refusal>)
      ensures r == Lots.DecideOffer(listing, curated, input, buyer, keepLast, now)
      // On a lot with stock, an order is for the minimum or more, or for all that may be ordered.
      ensures 1 <= listing.available && 1 <= listing.minOrderQuantity && Lots.ValidOffer(input) ==>
                var most := listing.available - if keepLast && curated then 1 else 0;
                var size := input.quantity.GetOr(Lots.Min(listing.minOrderQuantity, most));
                && (r.Ok? <==>
                      && listing.status.Active? && (listing.expiresAt.Some? ==> now <= listing.expiresAt.value)
                      && listing.sellerId != buyer.userId && buyer.organisationId != Some(listing.organisationId)
                      && 1 <= size <= most && (size >= listing.minOrderQuantity || size == most)
                      && listing.pricePence * size <= Lots.MAX_AMOUNT_PENCE)
                && (r.Ok? ==>
                      && r.value.quantity == size && r.value.amountPence == listing.pricePence * size
                      && r.value.status.Pending? && r.value.buyerId == buyer.userId
                      && r.value.responseDeadline == Some(now + Lots.RESPONSE_WINDOW_MS))
    {
      if !listing.status.Active? { return Err(Lots.Conflict); }
      if listing.sellerId == buyer.userId || buyer.organisationId == Some(listing.organisationId) {
        return Err(Lots.Forbidden);
      }
      if listing.expiresAt.Some? && listing.expiresAt.value < now { return Err(Lots.Conflict); }
      var available := listing.available;
      var orderable := Lots.OrderableQuantity(available, curated, keepLast);
      if orderable < available && orderable < 1 { return Err(Lots.Conflict); }
      var quantity := Lots.Min(listing.minOrderQuantity, orderable);
      if input.quantity.Some? {
        quantity := input.quantity.value;
      }
      if orderable < available && quantity > orderable { return Err(Lots.Conflict); }
      if quantity > available { return Err(Lots.Conflict); }
      // Fewer than the minimum is refused, unless nothing beyond it could have been asked for.
      if quantity < listing.minOrderQuantity && quantity < orderable { return Err(Lots.Invalid); }
      var amountPence := listing.pricePence * quantity;
      if amountPence > Lots.MAX_AMOUNT_PENCE { return Err(Lots.Invalid); }
      return Ok(Lots.Order(input.listingId, buyer.userId, listing.sellerId, quantity, amountPence, Lots.Pending, None,
                           Some(now + Lots.RESPONSE_WINDOW_MS), now));
    }

    method MakeOffer(input: Lots.OfferInput, buyer: Lots.Viewer, keepLast: bool, now: Time)
      returns (r: Result<Id, Lots.Refusal>)
      requires Valid()
      modifies this
      ensures Valid()
      ensures match Lots.MakeOffer(old(State()), input, buyer, keepLast, now)
              case Err(why) => r == Err(why) && State() == old(State())
              case Ok(t) => r == Ok(old(|orders|)) && State() == t
    {
      var l := input.listingId;
      if l >= |listings| { return Err(Lots.NotFound); }
      var listing := listings[l];
      var order := OrderRow(listing, passports[listing.passportId].curated, input, buyer, keepLast, now);
      if order.Err? { return Err(order.error); }
      var o := |orders|;
      orders := orders + [order.value];
      log := log + [Lots.OrderEvent(o, Lots.Placed, None, Lots.Pending, Some(buyer.userId), Lots.BuyerSide, now)];
      SettleLot(l, listing, listing.available - order.value.quantity, false);
      return Ok(o);
    }

    method ApplyStep(o: Id, step: Lots.StepRecord)
      requires Valid() && o < |orders|
      modifies this
      ensures Valid() && State() == Lots.ApplyStep(old(State()), o, step)
    {
      var order := orders[o];
      var listing := listings[order.listingId];
      var moved := order.(status := step.to);
      if step.to.Confirmed? {
        moved := moved.(disputeDeadline := Some(step.now + Lots.DISPUTE_WINDOW_MS));
      }
      orders := orders[o := moved];
      // Stock returns to the lot on a cancellation, before its status is worked out again.
      var returned := 0;
      if step.to.Cancelled? {
        returned := order.quantity;
      }
      SettleLot(order.listingId, listing, Lots.Min(listing.quantity, listing.available + returned), false);
      if Lots.IsSale(step.to) {
        history := history
          + [Lots.SoldTo(listing.passportId, o, order.buyerId, order.quantity, order.amountPence)];
      }
      log := log
        + [Lots.OrderEvent(o, step.action, Some(order.status), step.to, step.actorId, step.side, step.now)];
    }

    method CloseIfOverdue(o: Id, now: Time) returns (taken: Option<Lots.TimedAction>)
      requires Valid()
      modifies this
      ensures Valid() && State() == Lots.CloseIfOverdue(old(State()), o, now)
      ensures taken == Lots.Due(old(State()), o, now)
    {
      if o >= |orders| { return None; }
      taken := Lots.TimedStep(orders[o], now);
      if taken.Some? {
        ApplyStep(o, Lots.TimedRecord(taken.value, now));
      }
    }

    method UpdateTransaction(o: Id, input: Lots.ActInput, viewer: Lots.Viewer, now: Time)
      returns (r: Result<Lots.Order, Lots.Refusal>)
      requires Valid()
      modifies this
      ensures Valid()
      ensures State() == Lots.UpdateTransaction(old(State()), o, input, viewer, now).0
      ensures match Lots.UpdateTransaction(old(State()), o, input, viewer, now).1
              case Err(why) => r == Err(why)
              case Ok(t) => o < |orders| && r == Ok(orders[o])
      ensures Inv(old(State())) && o < |old(orders)| && !Effects.Overdue(old(orders)[o], now) ==>
                && (r.Ok? <==>
                      Effects.Allowed(old(State()), o, input, viewer) && Effects.Ripe(input.action, old(orders)[o].status))
                && (r.Ok? ==> Effects.ActEffect(old(State()), o, input, viewer, now, State()))
    {
      if Inv(State()) && o < |orders| && !Effects.Overdue(orders[o], now) {
        Effects.StepIsTakenWhen(State(), o, input, viewer, now);
      }
      // The clock first: its step, if due, counts even when the person's is refused.
      var timedOut := CloseIfOverdue(o, now);
      if o >= |orders| { return Err(Lots.NotFound); }
      var order := orders[o];
      var listing := listings[order.listingId];
      var on := Lots.StandingOf(viewer, order, listing);
      var required := Lots.By(input.action);
      if !Lots.MayAct(required, on) { return Err(Lots.Forbidden); }
      if order.status !in Lots.From(input.action) {
        if timedOut.Some? { return Err(Lots.TimedOut(timedOut.value)); }
        return Err(Lots.Conflict);
      }
      var to := Lots.To(input.action);
      if input.action.ResolveDispute? && input.cancelOrder {
        to := Lots.OrderStatus.Cancelled;
      }
      var side := Lots.SellerSide;
      if on.admin && required.Platform? {
        side := Lots.PlatformSide;
      } else if on.buyer {
        side := Lots.BuyerSide;
      }
      ApplyStep(o, Lots.StepRecord(Lots.Person(input.action), to, Some(viewer.userId), side, now));
      return Ok(orders[o]);
    }

    /** The transaction the sweep runs for one listing past its date. */
    method ExpireListing(l: Id, now: Time) returns (expired: bool)
      requires Valid()
      modifies this`listings, this`passports
      ensures Valid() && State() == Lots.ExpireListing(old(State()), l, now)
      ensures expired == (l in Expirable(old(State()), now))
    {
      if l >= |listings| { return false; }
      var listing := listings[l];
      if !listing.status.Active? { return false; }
      if listing.expiresAt.None? || listing.expiresAt.value > now { return false; }
      var open := CountOpen(l);
      if open > 0 { return false; }
      listings := listings[l := listing.(status := Lots.Expired)];
      var p := listing.passportId;
      passports := passports[p := passports[p].(status := Lots.Free)];
      return true;
    }

    /** The overdue query: rows in the order the scan meets them, up to the limit. */
    method SelectOverdue(scan: seq<Id>, now: Time, limit: nat) returns (ids: seq<Id>)
      requires Valid()
      ensures ids == Limit(OverdueIds(State(), scan, now), limit)
    {
      ids := [];
      for i := 0 to |scan|
        invariant ids == OverdueIds(State(), scan[..i], now)
      {
        if scan[i] < |orders| && OverdueAt(orders[scan[i]], now) {
          ids := ids + [scan[i]];
        }
        assert scan[..i + 1][..i] == scan[..i];
      }
      assert scan[..|scan|] == scan;
      if |ids| > limit {
        ids := ids[..limit];
      }
    }

    method SelectPastDate(scan: seq<Id>, now: Time, limit: nat) returns (ids: seq<Id>)
      requires Valid()
      ensures ids == Limit(PastDateIds(State(), scan, now), limit)
    {
      ids := [];
      for i := 0 to |scan|
        invariant ids == PastDateIds(State(), scan[..i], now)
      {
        if scan[i] < |listings| && Lots.PastDate(listings[scan[i]], now) {
          ids := ids + [scan[i]];
        }
        assert scan[..i + 1][..i] == scan[..i];
      }
      assert scan[..|scan|] == scan;
      if |ids| > limit {
        ids := ids[..limit];
      }
    }

    /** The sweep's first loop: close every selected order, counting what was done. */
    method CloseSelected(due: seq<Id>, now: Time) returns (lapsed: nat, completed: nat)
      requires Valid() && Inv(State()) && Distinct(due)
      requires forall o :: o in due ==> o in OverdueSet(State(), now)
      modifies this
      ensures Valid() && State() == CloseAll(old(State()), due, now)
      ensures lapsed + completed == |due|
      ensures lapsed == PendingAmong(old(State()), due)
    {
      lapsed, completed := 0, 0;
      ghost var before := State();
      for i := 0 to |due|
        invariant Valid() && State() == CloseAll(before, due[..i], now)
        invariant lapsed + completed == i && lapsed == PendingAmong(before, due[..i])
      {
        NextIsStillDue(before, due, i, now);
        var taken := CloseIfOverdue(due[i], now);
        assert due[..i + 1][..i] == due[..i];
        if taken == Some(Lots.Lapse) {
          lapsed := lapsed + 1;
        }
        if taken == Some(Lots.AutoComplete) {
          completed := completed + 1;
        }
      }
      assert due[..|due|] == due;
    }

    /** The sweep's second loop: expire every selected listing no open order holds. */
    method ExpireSelected(stale: seq<Id>, now: Time) returns (expired: nat)
      requires Valid() && Inv(State()) && Distinct(stale)
      modifies this`listings, this`passports
      ensures Valid() && State() == ExpireAll(old(State()), stale, now)
      ensures expired == |Members(stale) * Expirable(old(State()), now)|
    {
      expired := 0;
      ghost var before := State();
      for i := 0 to |stale|
        invariant Valid() && State() == ExpireAll(before, stale[..i], now)
        invariant expired == |Members(stale[..i]) * Expirable(before, now)|
      {
        NextIsStillExpirable(before, stale, i, now);
        ExpireOneMore(before, stale, i, now);
        OneMoreMember(stale, i, Expirable(before, now));
        var done := ExpireListing(stale[i], now);
        if done {
          expired := expired + 1;
        }
      }
      assert stale[..|stale|] == stale;
    }

    /** The sweep: first the overdue orders, then the listings past their date. */
    method SweepOrderLifecycle(orderScan: seq<Id>, listingScan: seq<Id>, now: Time)
      returns (lapsed: nat, completed: nat, expiredListings: nat)
      requires Valid() && Inv(State()) && ScanOf(orderScan, |orders|) && ScanOf(listingScan, |listings|)
      modifies this
      ensures Valid() && Inv(State())
      ensures State() == SweepOnce(old(State()), orderScan, listingScan, now, SWEEP_LIMIT)
      ensures lapsed + completed == |OverdueSet(old(State()), now)| - |OverdueSet(State(), now)|
      ensures expiredListings == |Expirable(CloseBatch(old(State()), orderScan, now, SWEEP_LIMIT), now)|
                                 - |Expirable(State(), now)|
      ensures var late := |LateOrders(old(State()), now)|;
              && |LateOrders(State(), now)| == (if late <= 500 then 0 else late - 500)
              && (late <= 500 && |PastTheirDate(AllClosed(old(State()), orderScan, now), now)| <= 500 ==>
                    LateOrders(State(), now) == {} && Removable(State(), now) == {})
    {
      SweepDoes(State(), orderScan, listingScan, now, SWEEP_LIMIT);
      var due := SelectOverdue(orderScan, now, SWEEP_LIMIT);
      SelectedAreDue(State(), orderScan, now, SWEEP_LIMIT);
      CloseBatchProgress(State(), orderScan, now, SWEEP_LIMIT);
      lapsed, completed := CloseSelected(due, now);
      ghost var closed := State();
      assert closed == CloseBatch(old(State()), orderScan, now, SWEEP_LIMIT);
      var stale := SelectPastDate(listingScan, now, SWEEP_LIMIT);
      ExpiredAreCounted(closed, listingScan, now, SWEEP_LIMIT);
      expiredListings := ExpireSelected(stale, now);
    }
  }
}
