/** Which orders a lot takes, and where its expiry is read two ways. */
module Offers {
  import opened Wrappers
  import opened Lots
  import opened LotInvariant
  import opened Effects

  /** What may be ordered of a lot: all of it, less the last unit of a curated lot where that is held back. */
  function Orderable(s: State, l: Id, keepLast: bool): int
    requires l < |s.listings|
  {
    var lot := s.listings[l];
    lot.available - if keepLast && s.passports[lot.passportId].curated then 1 else 0
  }

  /** The size of an order: as asked, else the minimum or what little there is. */
  function SizeOf(s: State, l: Id, input: OfferInput, keepLast: bool): int
    requires l < |s.listings|
  {
    match input.quantity
    case Some(quantity) => quantity
    case None =>
      var least, most := s.listings[l].minOrderQuantity, Orderable(s, l, keepLast);
      if least <= most then least else most
  }

  /**
   * In every state the marketplace reaches, an order is taken exactly when it
   * is a stranger's, in time, within the amount limit, and for at least the
   * minimum or for all there is to order.
   */
  lemma OfferIsTakenWhen(s: State, input: OfferInput, buyer: Viewer, keepLast: bool, now: Time)
    requires Inv(s) && ValidOffer(input)
    ensures MakeOffer(s, input, buyer, keepLast, now).Ok? <==>
            && input.listingId < |s.listings|
            && var lot := s.listings[input.listingId];
               var most := Orderable(s, input.listingId, keepLast);
               var size := SizeOf(s, input.listingId, input, keepLast);
               && lot.status.Active? && (lot.expiresAt.Some? ==> now <= lot.expiresAt.value)
               && lot.sellerId != buyer.userId && buyer.organisationId != Some(lot.organisationId)
               && 1 <= size <= most && (size >= lot.minOrderQuantity || size == most)
               && lot.pricePence * size <= 2_000_000_000
  {
    if input.listingId < |s.listings| {
      assert LotOk(s, input.listingId);
    }
  }

  /** The tables an order of lot `l` leaves: the answer is due in 72 hours. */
  ghost predicate OfferEffect(s: State, l: Id, size: int, buyer: Viewer, now: Time, t: State)
    requires l < |s.listings|
  {
    var lot := s.listings[l];
    && t.orders == s.orders
         + [Order(l, buyer.userId, lot.sellerId, size, lot.pricePence * size, Pending, None,
                  Some(now + 259_200_000), now)]
    && t.log == s.log + [OrderEvent(|s.orders|, Placed, None, Pending, Some(buyer.userId), BuyerSide, now)]
    && t.history == s.history
    && OnlyListing(s.listings, t.listings, l)
    && t.listings[l] == lot.(available := lot.available - size, status := t.listings[l].status)
    && OnlyStatusOf(s.passports, t.passports, lot.passportId)
  }

  lemma OfferHasItsEffect(s: State, input: OfferInput, buyer: Viewer, keepLast: bool, now: Time)
    requires Inv(s) && (input.quantity.Some? ==> 1 <= input.quantity.value)
    requires MakeOffer(s, input, buyer, keepLast, now).Ok?
    ensures var l := input.listingId;
            OfferEffect(s, l, SizeOf(s, l, input, keepLast), buyer, now, MakeOffer(s, input, buyer, keepLast, now).value)
    ensures forall k :: 0 <= k < |MakeOffer(s, input, buyer, keepLast, now).value.listings| ==>
              Stands(MakeOffer(s, input, buyer, keepLast, now).value, k)
  {
    assert LotOk(s, input.listingId);
    OfferKeeps(s, input, buyer, keepLast, now);
    EveryListingStands(MakeOffer(s, input, buyer, keepLast, now).value);
  }

  /** Why an order is refused: an unknown lot, one's own, a wrong size or amount; or the lot cannot give it. */
  lemma OfferIsRefusedFor(s: State, input: OfferInput, buyer: Viewer, keepLast: bool, now: Time)
    requires Inv(s) && ValidOffer(input) && MakeOffer(s, input, buyer, keepLast, now).Err?
    ensures var why, l := MakeOffer(s, input, buyer, keepLast, now).error, input.listingId;
            && (why == NotFound <==> l >= |s.listings|)
            && (l < |s.listings| ==>
                  var lot, most, size := s.listings[l], Orderable(s, l, keepLast), SizeOf(s, l, input, keepLast);
                  var stranger := lot.sellerId != buyer.userId && buyer.organisationId != Some(lot.organisationId);
                  && (why == Forbidden <==> lot.status.Active? && !stranger)
                  && (why == Invalid <==>
                        && lot.status.Active? && (lot.expiresAt.Some? ==> now <= lot.expiresAt.value) && stranger
                        && 1 <= most && size <= most
                        && ((size < lot.minOrderQuantity && size < most) || lot.pricePence * size > 2_000_000_000)))
            && why in {NotFound, Forbidden, Conflict, Invalid}
  {
    if input.listingId < |s.listings| {
      assert LotOk(s, input.listingId);
    }
  }

  /** A taken order takes its size off the lot, and leaves a held-back unit where one is held back. */
  lemma OfferTakesItsSize(s: State, input: OfferInput, buyer: Viewer, keepLast: bool, now: Time)
    requires Inv(s) && ValidOffer(input) && MakeOffer(s, input, buyer, keepLast, now).Ok?
    ensures var t := MakeOffer(s, input, buyer, keepLast, now).value;
            var l := input.listingId;
            && |t.orders| == |s.orders| + 1 && t.orders[|s.orders|].status.Pending?
            && t.orders[|s.orders|].quantity == SizeOf(s, l, input, keepLast)
            && |t.listings| == |s.listings| && |t.passports| == |s.passports|
            && t.listings[l].available == s.listings[l].available - t.orders[|s.orders|].quantity
            && t.listings[l] == s.listings[l].(available := t.listings[l].available, status := t.listings[l].status)
            && IsLive(t.listings[l].status)
            && (forall p :: 0 <= p < |s.passports| ==>
                  t.passports[p] == s.passports[p].(status := t.passports[p].status))
            && (keepLast && s.passports[s.listings[l].passportId].curated ==> t.listings[l].available >= 1)
  {
    assert LotOk(s, input.listingId);
  }

  /** A lot that reads as expired takes an order at one instant only: the very one it expires at. */
  lemma ExpiredLotSellsAtItsLastInstant(s: State, input: OfferInput, buyer: Viewer, keepLast: bool, now: Time)
    requires Inv(s) && ValidOffer(input) && MakeOffer(s, input, buyer, keepLast, now).Ok?
    ensures ListingStatusAt(s.listings[input.listingId], now).Expired? <==>
            s.listings[input.listingId].expiresAt == Some(now)
  {
  }

  /** And there it does: one unit, expiring now. */
  lemma ExpiredLotSells()
    ensures var s := Tables([Listing(0, 7, 1, 100, 1, 1, 1, Active, Some(5))], [], [Passport(7, Listed, 1, false)], [], []);
            && Inv(s) && ListingStatusAt(s.listings[0], 5).Expired?
            && MakeOffer(s, OfferInput(0, Some(1)), Viewer(2, BuyerRole, None), false, 5).Ok?
  {
    var s := Tables([Listing(0, 7, 1, 100, 1, 1, 1, Active, Some(5))], [], [Passport(7, Listed, 1, false)], [], []);
    assert LotOk(s, 0);
    assert LiveOn(s, 0, 0);
  }
}
