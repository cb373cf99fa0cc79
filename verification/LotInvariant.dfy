/**
 * What every run of the marketplace keeps: stock, statuses and passports agree
 * with the orders, whatever sequence of operations produced them.
 */
module LotInvariant {
  import opened Wrappers
  import opened Lots

  // ---------------------------------------------------------------------------
  // Sums over a listing's orders
  // ---------------------------------------------------------------------------

  lemma SumAppend(orders: seq<Order>, o: Order, l: Id, m: Measure)
    ensures Sum(orders + [o], l, m) == Sum(orders, l, m) + Share(o, l, m)
  {
    assert (orders + [o])[..|orders|] == orders;
  }

  lemma {:induction false} SumUpdate(orders: seq<Order>, i: nat, o: Order, l: Id, m: Measure)
    requires i < |orders|
    ensures Sum(orders[i := o], l, m) == Sum(orders, l, m) - Share(orders[i], l, m) + Share(o, l, m)
  {
    var n := |orders| - 1;
    if i == n {
      assert orders[i := o][..n] == orders[..n];
    } else {
      SumUpdate(orders[..n], i, o, l, m);
      assert orders[i := o][..n] == orders[..n][i := o];
    }
  }

  lemma {:induction false} OneOpenCounts(orders: seq<Order>, i: nat)
    requires i < |orders| && IsOpen(orders[i].status)
    ensures OpenCount(orders, orders[i].listingId) >= 1
  {
    var n := |orders| - 1;
    if i < n {
      OneOpenCounts(orders[..n], i);
    }
  }

  /** An order counts once among those that hold stock, and never more than it takes. */
  lemma {:induction false} TakenCoversOrder(orders: seq<Order>, i: nat)
    requires i < |orders| && Takes(orders[i].status)
    requires forall j :: 0 <= j < |orders| ==> 0 <= orders[j].quantity
    ensures Taken(orders, orders[i].listingId) >= orders[i].quantity
  {
    var n := |orders| - 1;
    TakenNotNegative(orders[..n], orders[i].listingId);
    if i < n {
      TakenCoversOrder(orders[..n], i);
    }
  }

  lemma {:induction false} TakenNotNegative(orders: seq<Order>, l: Id)
    requires forall j :: 0 <= j < |orders| ==> 0 <= orders[j].quantity
    ensures Taken(orders, l) >= 0
  {
    if orders != [] {
      TakenNotNegative(orders[..|orders| - 1], l);
    }
  }

  lemma {:induction false} NoOrdersNoSum(orders: seq<Order>, l: Id, m: Measure)
    requires forall i :: 0 <= i < |orders| ==> orders[i].listingId != l
    ensures Sum(orders, l, m) == 0
  {
    if orders != [] {
      NoOrdersNoSum(orders[..|orders| - 1], l, m);
    }
  }

  // ---------------------------------------------------------------------------
  // The invariant
  // ---------------------------------------------------------------------------

  /** The stock equation, and a status that is exactly what stock and open orders imply. */
  ghost predicate LotOk(s: State, l: Id)
    requires l < |s.listings|
  {
    var lot := s.listings[l];
    && 1 <= lot.pricePence <= MAX_AMOUNT_PENCE
    && 1 <= lot.minOrderQuantity
    && 0 <= lot.available <= lot.quantity && 1 <= lot.quantity
    && lot.available == lot.quantity - Taken(s.orders, l)
    && (if IsLive(lot.status) then
          && lot.status == LotStatus(lot.available, OpenCount(s.orders, l))
          && s.passports[lot.passportId].status == PassportStatusFor(lot.status)
        else OpenCount(s.orders, l) == 0)
  }

  predicate LiveOn(s: State, l: Id, p: Id)
    requires l < |s.listings|
  {
    IsLive(s.listings[l].status) && s.listings[l].passportId == p
  }

  ghost predicate HasLive(s: State, p: Id) {
    exists l :: 0 <= l < |s.listings| && LiveOn(s, l, p)
  }

  ghost predicate OneLivePerPassport(s: State) {
    forall k, l, p :: 0 <= k < |s.listings| && 0 <= l < |s.listings| && LiveOn(s, k, p) && LiveOn(s, l, p) ==> k == l
  }

  predicate OnMarket(status: PassportStatus) { status.Listed? || status.Reserved? || status.Sold? }

  ghost predicate PassportsFollow(s: State) {
    forall p :: 0 <= p < |s.passports| && OnMarket(s.passports[p].status) ==> HasLive(s, p)
  }

  ghost predicate OrderOk(o: Order) {
    && 1 <= o.quantity
    && 1 <= o.amountPence <= MAX_AMOUNT_PENCE
    && o.amountPence % o.quantity == 0
    && (o.status.Pending? ==> o.disputeDeadline.None?)
    && (o.status.Confirmed? || o.status.Disputed? || IsSale(o.status) ==> o.disputeDeadline.Some?)
  }

  ghost predicate OrdersOk(s: State) {
    forall o :: 0 <= o < |s.orders| ==> OrderOk(s.orders[o])
  }

  ghost predicate LotsOkExcept(s: State, except: set<Id>) {
    forall l :: 0 <= l < |s.listings| && l !in except ==> LotOk(s, l)
  }

  ghost predicate Inv(s: State) {
    LotsOkExcept(s, {}) && OneLivePerPassport(s) && PassportsFollow(s) && OrdersOk(s)
  }

  // ---------------------------------------------------------------------------
  // Settling a lot restores the invariant
  // ---------------------------------------------------------------------------

  /** Changing one row cannot make two listings of one passport live, unless another was live already. */
  lemma OneLiveStands(s: State, t: State, l: Id)
    requires OneLivePerPassport(s) && |s.listings| <= |t.listings| && l < |t.listings|
    requires forall k, p :: 0 <= k < |t.listings| && k != l && LiveOn(t, k, p) ==> k < |s.listings| && LiveOn(s, k, p)
    requires forall k, p :: 0 <= k < |t.listings| && k != l && LiveOn(t, l, p) ==> !LiveOn(t, k, p)
    ensures OneLivePerPassport(t)
  {
  }

  /**
   * The order rows are written and the lot is not: everything else still
   * agrees. Settling with the stock the orders leave restores the whole
   * invariant. Reopening needs the material to be free.
   */
  lemma SettleRestores(s: State, l: Id, edited: Listing, available: int, reopen: bool)
    requires l < |s.listings| && edited.passportId == s.listings[l].passportId
    requires LotsOkExcept(s, {l}) && OneLivePerPassport(s) && PassportsFollow(s) && OrdersOk(s)
    requires 1 <= edited.pricePence <= MAX_AMOUNT_PENCE && 1 <= edited.minOrderQuantity && 1 <= edited.quantity
    requires 0 <= available <= edited.quantity && available == edited.quantity - Taken(s.orders, l)
    requires var before := s.listings[l];
             if IsLive(before.status) then s.passports[before.passportId].status == PassportStatusFor(before.status)
             else OpenCount(s.orders, l) == 0
                  && (reopen ==> !OnMarket(s.passports[before.passportId].status))
    ensures Inv(SettleLot(s, l, edited, available, reopen))
    ensures SettleLot(s, l, edited, available, reopen).orders == s.orders
  {
    var t := SettleLot(s, l, edited, available, reopen);
    var p := s.listings[l].passportId;
    var live := reopen || IsLive(s.listings[l].status);
    forall k | 0 <= k < |t.listings|
      ensures LotOk(t, k)
      ensures live && k != l ==> !LiveOn(t, k, p)
    {
      if k != l {
        assert LotOk(s, k);
        if live && LiveOn(s, k, p) {
          assert OnMarket(s.passports[p].status);
          assert LiveOn(s, l, p);
        }
      }
    }
    assert forall k, q :: 0 <= k < |t.listings| && k != l ==> LiveOn(t, k, q) == LiveOn(s, k, q);
    OneLiveStands(s, t, l);
    forall q | 0 <= q < |t.passports| && OnMarket(t.passports[q].status)
      ensures HasLive(t, q)
    {
      if live && q == p {
        assert LiveOn(t, l, p);
      } else {
        assert OnMarket(s.passports[q].status);
        var k :| 0 <= k < |s.listings| && LiveOn(s, k, q);
        assert LiveOn(t, k, q);
      }
    }
  }

  /** Closing a listing nobody has an open order on frees its passport and nothing else. */
  lemma CloseListingKeeps(s: State, l: Id, status: ListingStatus)
    requires Inv(s) && l < |s.listings| && IsLive(s.listings[l].status) && !IsLive(status)
    requires OpenCount(s.orders, l) == 0
    ensures Inv(CloseListing(s, l, status))
  {
    var t := CloseListing(s, l, status);
    var p := s.listings[l].passportId;
    assert LiveOn(s, l, p);
    forall k | 0 <= k < |t.listings|
      ensures LotOk(t, k)
    {
      assert LotOk(s, k);
      assert k != l ==> !LiveOn(s, k, p);
    }
    assert forall k, q :: 0 <= k < |t.listings| && k != l ==> LiveOn(t, k, q) == LiveOn(s, k, q);
    OneLiveStands(s, t, l);
    forall q | 0 <= q < |t.passports| && OnMarket(t.passports[q].status)
      ensures HasLive(t, q)
    {
      var k :| 0 <= k < |s.listings| && LiveOn(s, k, q);
      assert LiveOn(t, k, q);
    }
  }

  // ---------------------------------------------------------------------------
  // Each operation
  // ---------------------------------------------------------------------------

  lemma CreateKeeps(s: State, input: CreateInput, sellerId: Id, organisationId: Id)
    requires Inv(s) && ValidCreate(input)
    ensures var r := CreateListing(s, input, sellerId, organisationId); r.Ok? ==> Inv(r.value)
  {
    var r := CreateListing(s, input, sellerId, organisationId);
    if r.Ok? {
      var t, n, p := r.value, |s.listings|, input.passportId;
      NoOrdersNoSum(s.orders, n, UnitsTaken);
      NoOrdersNoSum(s.orders, n, OpenOrders);
      forall l | 0 <= l < n
        ensures LotOk(t, l) && !LiveOn(t, l, p)
      {
        assert LotOk(s, l);
      }
      assert LotOk(t, n);
      assert forall k, q :: 0 <= k < n ==> LiveOn(t, k, q) == LiveOn(s, k, q);
      OneLiveStands(s, t, n);
      forall q | 0 <= q < |t.passports| && OnMarket(t.passports[q].status)
        ensures HasLive(t, q)
      {
        if q == p {
          assert LiveOn(t, n, p);
        } else {
          var k :| 0 <= k < |s.listings| && LiveOn(s, k, q);
          assert LiveOn(t, k, q);
        }
      }
    }
  }

  lemma EditKeeps(s: State, l: Id, input: EditInput, organisationId: Id, now: Time)
    requires Inv(s) && ValidEdit(input)
    ensures var r := UpdateListing(s, l, input, organisationId, now); r.Ok? ==> Inv(r.value)
  {
    var r := UpdateListing(s, l, input, organisationId, now);
    if r.Ok? {
      var before := s.listings[l];
      assert LotOk(s, l);
      var edit := DecideEdit(before, s.passports[before.passportId].status, input, now).value;
      SettleRestores(s, l, edit.0, edit.1, before.status.Expired?);
    }
  }

  lemma CancelKeeps(s: State, l: Id, organisationId: Id)
    requires Inv(s)
    ensures var r := CancelListing(s, l, organisationId); r.Ok? ==> Inv(r.value)
  {
    if CancelListing(s, l, organisationId).Ok? {
      CloseListingKeeps(s, l, ListingStatus.Cancelled);
    }
  }

  lemma ExpireKeeps(s: State, l: Id, now: Time)
    requires Inv(s)
    ensures Inv(ExpireListing(s, l, now))
  {
    if l < |s.listings| && PastDate(s.listings[l], now) && OpenCount(s.orders, l) == 0 {
      CloseListingKeeps(s, l, Expired);
    }
  }

  lemma TotalIsUnitPrice(price: int, quantity: int)
    requires 1 <= price && 1 <= quantity
    ensures (price * quantity) % quantity == 0 && 1 <= price * quantity
  {
    var total := price * quantity;
    var d, r := total / quantity, total % quantity;
    assert total == quantity * d + r;
    assert (price - d) * quantity == r;
    assert price - d >= 1 ==> (price - d) * quantity >= quantity;
    assert price - d <= -1 ==> (price - d) * quantity <= -quantity;
    assert price * quantity >= 1 * quantity;
  }

  /** What an accepted offer takes: at least one unit, at most what is left. */
  lemma OfferQuantity(listing: Listing, curated: bool, input: OfferInput, buyer: Viewer, keepLast: bool, now: Time)
    requires ValidOffer(input)
    requires 1 <= listing.minOrderQuantity && 1 <= listing.available && 1 <= listing.pricePence
    requires DecideOffer(listing, curated, input, buyer, keepLast, now).Ok?
    ensures var o := DecideOffer(listing, curated, input, buyer, keepLast, now).value;
            1 <= o.quantity <= listing.available && OrderOk(o) && o.amountPence == listing.pricePence * o.quantity
  {
    var o := DecideOffer(listing, curated, input, buyer, keepLast, now).value;
    TotalIsUnitPrice(listing.pricePence, o.quantity);
  }

  /** Changing one listing's orders leaves every other lot in order. */
  lemma OtherLotsStand(s: State, t: State, l: Id)
    requires LotsOkExcept(s, {}) && t.listings == s.listings && t.passports == s.passports
    requires forall k, m :: 0 <= k < |s.listings| && k != l ==> Sum(t.orders, k, m) == Sum(s.orders, k, m)
    ensures LotsOkExcept(t, {l})
  {
    forall k | 0 <= k < |t.listings| && k != l
      ensures LotOk(t, k)
    {
      assert LotOk(s, k);
    }
  }

  lemma OfferKeeps(s: State, input: OfferInput, buyer: Viewer, keepLast: bool, now: Time)
    requires Inv(s) && ValidOffer(input)
    ensures var r := MakeOffer(s, input, buyer, keepLast, now); r.Ok? ==> Inv(r.value)
  {
    if MakeOffer(s, input, buyer, keepLast, now).Ok? {
      var l := input.listingId;
      var listing := s.listings[l];
      assert LotOk(s, l);
      var curated := s.passports[listing.passportId].curated;
      OfferQuantity(listing, curated, input, buyer, keepLast, now);
      var o := DecideOffer(listing, curated, input, buyer, keepLast, now).value;
      var event := OrderEvent(|s.orders|, Placed, None, Pending, Some(buyer.userId), BuyerSide, now);
      var s1 := s.(orders := s.orders + [o], log := s.log + [event]);
      forall k, m
        ensures Sum(s1.orders, k, m) == Sum(s.orders, k, m) + Share(o, k, m)
      {
        SumAppend(s.orders, o, k, m);
      }
      OtherLotsStand(s, s1, l);
      SameListings(s, s1);
      SettleRestores(s1, l, listing, listing.available - o.quantity, false);
    }
  }

  lemma SameListings(s: State, t: State)
    requires t.listings == s.listings && t.passports == s.passports
    ensures OneLivePerPassport(s) ==> OneLivePerPassport(t)
    ensures PassportsFollow(s) ==> PassportsFollow(t)
    ensures forall p :: HasLive(s, p) == HasLive(t, p)
  {
    assert forall l, p :: 0 <= l < |s.listings| ==> LiveOn(s, l, p) == LiveOn(t, l, p);
  }

  /** The steps an order in `status` can take at all. */
  ghost predicate Edge(o: Order, step: StepRecord) {
    match step.action
    case Placed => false
    case Person(action) =>
      o.status in From(action) && (step.to == To(action) || (action.ResolveDispute? && step.to.Cancelled?))
    case Limit(timed) => step.to == TimedTo(timed) && TimedStep(o, step.now) == Some(timed)
  }

  lemma StepKeeps(s: State, o: Id, step: StepRecord)
    requires Inv(s) && o < |s.orders| && Edge(s.orders[o], step)
    ensures Inv(ApplyStep(s, o, step))
    ensures ApplyStep(s, o, step).orders == s.orders[o := Moved(s.orders[o], step)]
    // The clamp at the lot's quantity never bites.
    ensures var order := s.orders[o]; var listing := s.listings[order.listingId];
            listing.available + Returned(order, step) <= listing.quantity
  {
    var order := s.orders[o];
    var l := order.listingId;
    var listing := s.listings[l];
    var s1 := s.(orders := s.orders[o := Moved(order, step)]);
    MovedRow(s, o, step);
    SettleRestores(s1, l, listing, listing.available + Returned(order, step), false);
    var s2 := SettleLot(s1, l, listing, listing.available + Returned(order, step), false);
    LogsDoNotMatter(s2, ApplyStep(s, o, step));
  }

  /**
   * An order row moved a step, and its lot still to settle: everyone else is in order,
   * and the lot's stock is known.
   */
  lemma MovedRow(s: State, o: Id, step: StepRecord)
    requires Inv(s) && o < |s.orders| && Edge(s.orders[o], step)
    ensures var order := s.orders[o]; var l := order.listingId; var listing := s.listings[l];
            var s1 := s.(orders := s.orders[o := Moved(order, step)]);
            && LotsOkExcept(s1, {l}) && OneLivePerPassport(s1) && PassportsFollow(s1) && OrdersOk(s1)
            && 1 <= listing.pricePence <= MAX_AMOUNT_PENCE && 1 <= listing.minOrderQuantity && 1 <= listing.quantity
            && Taken(s1.orders, l) == Taken(s.orders, l) - Returned(order, step)
            && 0 <= listing.available == listing.quantity - Taken(s.orders, l)
            && listing.available + Returned(order, step) <= listing.quantity
            && IsLive(listing.status) && s.passports[listing.passportId].status == PassportStatusFor(listing.status)
  {
    var order := s.orders[o];
    var l := order.listingId;
    var moved := Moved(order, step);
    var s1 := s.(orders := s.orders[o := moved]);
    assert LotOk(s, l) && OrderOk(order);
    OneOpenCounts(s.orders, o);
    MovedShares(s.orders, o, moved);
    OtherLotsStand(s, s1, l);
    SameListings(s, s1);
    TakenCoversOrder(s.orders, o);
  }

  lemma MovedShares(orders: seq<Order>, o: Id, moved: Order)
    requires o < |orders| && moved.listingId == orders[o].listingId
    ensures forall k, m :: Sum(orders[o := moved], k, m) == Sum(orders, k, m) - Share(orders[o], k, m) + Share(moved, k, m)
    ensures forall k, m :: k != moved.listingId ==> Sum(orders[o := moved], k, m) == Sum(orders, k, m)
  {
    forall k, m
      ensures Sum(orders[o := moved], k, m) == Sum(orders, k, m) - Share(orders[o], k, m) + Share(moved, k, m)
    {
      SumUpdate(orders, o, moved, k, m);
    }
  }

  lemma LogsDoNotMatter(s: State, t: State)
    requires Inv(s) && t.listings == s.listings && t.orders == s.orders && t.passports == s.passports
    ensures Inv(t)
  {
    SameListings(s, t);
    assert forall l :: 0 <= l < |s.listings| ==> LotOk(s, l) ==> LotOk(t, l);
  }

  lemma CloseKeeps(s: State, o: Id, now: Time)
    requires Inv(s)
    ensures Inv(CloseIfOverdue(s, o, now))
  {
    if Due(s, o, now).Some? {
      StepKeeps(s, o, TimedRecord(Due(s, o, now).value, now));
    }
  }

  lemma TakeStepKeeps(s: State, o: Id, input: ActInput, viewer: Viewer, timedOut: Option<TimedAction>, now: Time)
    requires Inv(s)
    ensures var r := TakeStep(s, o, input, viewer, timedOut, now); r.Ok? ==> Inv(r.value)
  {
    if TakeStep(s, o, input, viewer, timedOut, now).Ok? {
      var order := s.orders[o];
      StepKeeps(s, o, DecideStep(order, s.listings[order.listingId], input, viewer, timedOut, now).value);
    }
  }
}
