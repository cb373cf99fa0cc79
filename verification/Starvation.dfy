/**
 * A run of the marketplace after which a listing past its date is never
 * expired: the limit's worth of lots with a disputed order, which no time
 * limit ends, can fill every batch the sweep takes.
 */
module Starvation {
  import opened Wrappers
  import opened Lots
  import opened LotInvariant
  import opened OrderLog
  import opened Runs
  import opened Schedules
  import Sorting
  import opened Sweep
  import opened SweepBatch

  // ---------------------------------------------------------------------------
  // The run
  // ---------------------------------------------------------------------------

  const EMPTY: State := Tables([], [], [], [], [])
  const SELLER := Viewer(1, HubAdmin, Some(7))
  const BUYER := Viewer(2, BuyerRole, None)

  /** The date every lot is on sale to. */
  const UNTIL: Time := 3

  function ListLot(k: Id): seq<Request> {
    [Register(7, false), AttachPhoto(k), Create(CreateInput(k, 1, 2, 1, Some(UNTIL)), 1, 7)]
  }

  /** One unit is ordered, accepted and flagged, all before the date. */
  function DisputeLot(k: Id, o: Id): seq<Request> {
    [Offer(OfferInput(k, Some(1)), BUYER, false, 0), Act(o, ActInput(Accept, false), SELLER, 1),
     Act(o, ActInput(FlagDispute, false), BUYER, 2)]
  }

  /** A lot nobody orders from, then `n` lots with a disputed order each. */
  function Clogging(n: nat): seq<Request> {
    if n == 0 then ListLot(0) else Clogging(n - 1) + ListLot(n) + DisputeLot(n, n - 1)
  }

  function Lot(k: Id, available: int): Listing { Listing(k, 7, 1, 1, 2, available, 1, Active, Some(UNTIL)) }

  function OrderOf(k: Id, status: OrderStatus, deadline: Option<Time>): Order {
    Order(k, 2, 1, 1, 1, status, deadline, Some(RESPONSE_WINDOW_MS), 0)
  }

  const DISPUTE_DEADLINE: Time := 1 + DISPUTE_WINDOW_MS

  function Unlisted(photos: nat): Passport { Passport(7, Free, photos, false) }

  function Offered(): Passport { Passport(7, Listed, 1, false) }

  /** The rows, whatever the logs. */
  ghost predicate Rows(s: State, listings: seq<Listing>, orders: seq<Order>, passports: seq<Passport>) {
    s.listings == listings && s.orders == orders && s.passports == passports
  }

  function Listings(n: nat): seq<Listing> { seq(n + 1, (k: Id) => Lot(k, if k == 0 then 2 else 1)) }

  function Disputes(n: nat): seq<Order> { seq(n, (o: Id) => OrderOf(o + 1, Disputed, Some(DISPUTE_DEADLINE))) }

  function Passports(n: nat): seq<Passport> { seq(n, (k: Id) => Offered()) }

  ghost predicate Clogged(s: State, n: nat) { Rows(s, Listings(n), Disputes(n), Passports(n + 1)) }

  /** A step that does what `Next` does: the run below is followed without looking into the requests again. */
  ghost predicate AsNext(step: (State, Request) -> State) {
    forall s, r {:trigger Next(s, r)} :: step(s, r) == Next(s, r)
  }

  lemma {:induction false} RunIsFold(s: State, rs: seq<Request>)
    ensures Run(s, rs) == Fold(Next, s, rs)
  {
    if rs != [] {
      RunIsFold(s, rs[..|rs| - 1]);
    }
  }

  // One request at a time: what it makes of any rows.

  lemma RegisterRow(step: (State, Request) -> State, s: State, k: Id)
    requires AsNext(step)
    ensures Rows(step(s, ListLot(k)[0]), s.listings, s.orders, s.passports + [Unlisted(0)])
  {
    assert step(s, ListLot(k)[0]) == Next(s, ListLot(k)[0]);
  }

  lemma PhotoRow(step: (State, Request) -> State, s: State, k: Id)
    requires AsNext(step) && |s.passports| == k + 1 && s.passports[k] == Unlisted(0)
    ensures Rows(step(s, ListLot(k)[1]), s.listings, s.orders, s.passports[k := Unlisted(1)])
  {
    assert step(s, ListLot(k)[1]) == Next(s, ListLot(k)[1]);
  }

  lemma CreateRow(step: (State, Request) -> State, s: State, k: Id)
    requires AsNext(step) && |s.passports| == k + 1 && s.passports[k] == Unlisted(1)
    ensures Rows(step(s, ListLot(k)[2]), s.listings + [Lot(k, 2)], s.orders, s.passports[k := Offered()])
  {
    assert step(s, ListLot(k)[2]) == Next(s, ListLot(k)[2]);
  }

  lemma OfferRow(step: (State, Request) -> State, s: State, k: Id, o: Id)
    requires AsNext(step) && k < |s.listings| && s.listings[k] == Lot(k, 2)
    requires k < |s.passports| && !s.passports[k].curated
    ensures Rows(step(s, DisputeLot(k, o)[0]),
                 s.listings[k := Lot(k, 1)], s.orders + [OrderOf(k, Pending, None)], s.passports)
  {
    assert step(s, DisputeLot(k, o)[0]) == Next(s, DisputeLot(k, o)[0]);
  }

  lemma AcceptRow(step: (State, Request) -> State, s: State, k: Id, o: Id)
    requires AsNext(step) && k < |s.listings| && s.listings[k] == Lot(k, 1)
    requires o < |s.orders| && s.orders[o] == OrderOf(k, Pending, None)
    ensures Rows(step(s, DisputeLot(k, o)[1]),
                 s.listings, s.orders[o := OrderOf(k, Confirmed, Some(DISPUTE_DEADLINE))], s.passports)
  {
    assert step(s, DisputeLot(k, o)[1]) == Next(s, DisputeLot(k, o)[1]);
    assert s.listings[k := s.listings[k]] == s.listings;
  }

  lemma FlagRow(step: (State, Request) -> State, s: State, k: Id, o: Id)
    requires AsNext(step) && k < |s.listings| && s.listings[k] == Lot(k, 1)
    requires o < |s.orders| && s.orders[o] == OrderOf(k, Confirmed, Some(DISPUTE_DEADLINE))
    ensures Rows(step(s, DisputeLot(k, o)[2]),
                 s.listings, s.orders[o := OrderOf(k, Disputed, Some(DISPUTE_DEADLINE))], s.passports)
  {
    assert step(s, DisputeLot(k, o)[2]) == Next(s, DisputeLot(k, o)[2]);
    assert s.listings[k := s.listings[k]] == s.listings;
  }

  lemma FoldThree<S, M>(step: (S, M) -> S, s: S, more: seq<M>)
    requires |more| == 3
    ensures Fold(step, s, more) == step(step(step(s, more[0]), more[1]), more[2])
  {
    assert Fold(step, s, more[..2][..1][..0]) == s;
    assert Fold(step, s, more[..2][..1]) == step(s, more[0]);
    assert Fold(step, s, more[..2]) == step(step(s, more[0]), more[1]);
  }

  lemma ListLotRows(step: (State, Request) -> State, s: State, k: Id)
    requires AsNext(step) && |s.passports| == k
    ensures Rows(Fold(step, s, ListLot(k)), s.listings + [Lot(k, 2)], s.orders, s.passports + [Offered()])
  {
    var list := ListLot(k);
    FoldThree(step, s, list);
    RegisterRow(step, s, k);
    var s1 := step(s, list[0]);
    PhotoRow(step, s1, k);
    var s2 := step(s1, list[1]);
    CreateRow(step, s2, k);
    assert (s.passports + [Unlisted(0)])[k := Unlisted(1)][k := Offered()] == s.passports + [Offered()];
  }

  lemma DisputeLotRows(step: (State, Request) -> State, s: State, k: Id, o: Id)
    requires AsNext(step) && k < |s.listings| && s.listings[k] == Lot(k, 2) && |s.orders| == o
    requires k < |s.passports| && !s.passports[k].curated
    ensures Rows(Fold(step, s, DisputeLot(k, o)), s.listings[k := Lot(k, 1)],
                 s.orders + [OrderOf(k, Disputed, Some(DISPUTE_DEADLINE))], s.passports)
  {
    var dispute := DisputeLot(k, o);
    FoldThree(step, s, dispute);
    OfferRow(step, s, k, o);
    var s1 := step(s, dispute[0]);
    AcceptRow(step, s1, k, o);
    var s2 := step(s1, dispute[1]);
    FlagRow(step, s2, k, o);
    assert (s.orders + [OrderOf(k, Pending, None)])[o := OrderOf(k, Confirmed, Some(DISPUTE_DEADLINE))]
        [o := OrderOf(k, Disputed, Some(DISPUTE_DEADLINE))] == s.orders + [OrderOf(k, Disputed, Some(DISPUTE_DEADLINE))];
  }

  lemma {:induction false} CloggingRows(step: (State, Request) -> State, n: nat)
    requires AsNext(step)
    ensures Clogged(Fold(step, EMPTY, Clogging(n)), n)
  {
    if n == 0 {
      ListLotRows(step, EMPTY, 0);
      assert [] + [Lot(0, 2)] == Listings(0) && Disputes(0) == [] && [] + [Offered()] == Passports(1);
    } else {
      CloggingRows(step, n - 1);
      var s := Fold(step, EMPTY, Clogging(n - 1));
      FoldConcat(step, EMPTY, Clogging(n - 1), ListLot(n));
      FoldConcat(step, EMPTY, Clogging(n - 1) + ListLot(n), DisputeLot(n, n - 1));
      ListLotRows(step, s, n);
      DisputeLotRows(step, Fold(step, s, ListLot(n)), n, n - 1);
      assert (Listings(n - 1) + [Lot(n, 2)])[n := Lot(n, 1)] == Listings(n);
      assert Disputes(n - 1) + [OrderOf(n, Disputed, Some(DISPUTE_DEADLINE))] == Disputes(n);
      assert Passports(n) + [Offered()] == Passports(n + 1);
    }
  }

  /** The marketplace gets there by requests alone. */
  lemma CloggingClogs(n: nat)
    ensures Clogged(Run(EMPTY, Clogging(n)), n)
  {
    RunIsFold(EMPTY, Clogging(n));
    NextIsNext();
    CloggingRows(Next, n);
  }

  lemma NextIsNext()
    ensures AsNext(Next)
  {
  }

  lemma {:induction false} CloggingIsValid(n: nat)
    ensures forall i :: 0 <= i < |Clogging(n)| ==> Valid(Clogging(n)[i])
  {
    if n > 0 {
      CloggingIsValid(n - 1);
    }
  }

  // ---------------------------------------------------------------------------
  // What every later sweep finds
  // ---------------------------------------------------------------------------

  lemma {:induction false} DisputesAre(n: nat, l: Id, m: Measure)
    ensures Sum(Disputes(n), l, m) == if 1 <= l <= n then Share(Disputes(n)[l - 1], l, m) else 0
  {
    if n > 0 {
      DisputesAre(n - 1, l, m);
      assert Disputes(n)[..n - 1] == Disputes(n - 1);
    }
  }

  /** From its date on, the first listing may be expired, the others wait, and no order has a limit left. */
  lemma WhatIsDue(s: State, n: nat, now: Time)
    requires Clogged(s, n) && now >= UNTIL
    ensures OverdueSet(s, now) == {}
    ensures forall l: Id :: l in Waiting(s, now) <==> 1 <= l <= n
    ensures forall l: Id :: l in Expirable(s, now) <==> l == 0
  {
    forall l: Id
      ensures l in Waiting(s, now) <==> 1 <= l <= n
      ensures l in Expirable(s, now) <==> l == 0
    {
      if l <= n {
        LotIsPastDate(s, n, now, l);
      }
    }
  }

  lemma LotIsPastDate(s: State, n: nat, now: Time, l: Id)
    requires Clogged(s, n) && now >= UNTIL && l <= n
    ensures |s.listings| == n + 1 && s.listings[l].status.Active? && PastDate(s.listings[l], now)
    ensures OpenCount(s.orders, l) == if l == 0 then 0 else 1
  {
    DisputesAre(n, l, OpenOrders);
    assert s.listings[l] == Listings(n)[l];
    assert Listings(n)[l] == Lot(l, if l == 0 then 2 else 1);
  }

  /** The disputed lots first, the one that could be expired last. */
  function WorstScan(n: nat): seq<Id> { seq(n, (i: Id) => i + 1) + [0] }

  function OrderScan(n: nat): seq<Id> { seq(n, (i: Id) => i) }

  lemma ScansAreFair(n: nat)
    ensures ScanOf(WorstScan(n), n + 1) && ScanOf(OrderScan(n), n)
  {
    forall i: Id
      ensures i in WorstScan(n) <==> i < n + 1
      ensures i in OrderScan(n) <==> i < n
    {
      assert 1 <= i <= n ==> WorstScan(n)[i - 1] == i;
      assert WorstScan(n)[n] == 0;
      assert i < n ==> OrderScan(n)[i] == i;
    }
  }

  /** A sweep that meets the rows in this order does nothing at all. */
  lemma WorstSweepDoesNothing(s: State, n: nat, now: Time)
    requires Inv(s) && Clogged(s, n) && now >= UNTIL
    ensures SweepOnce(s, OrderScan(n), WorstScan(n), now, n) == s
  {
    WhatIsDue(s, n, now);
    ScansAreFair(n);
    OverdueQuery(s, OrderScan(n), now);
    Sorting.BothEmpty(OverdueIds(s, OrderScan(n), now), []);
    var first := seq(n, (i: Id) => i + 1);
    forall i | 0 <= i < |first|
      ensures first[i] < |s.listings| && PastDate(s.listings[first[i]], now)
    {
      LotIsPastDate(s, n, now, first[i]);
    }
    PastDateOfConcat(s, first, [0], now);
    assert SweepBatch.Limit(PastDateIds(s, WorstScan(n), now), n) == first;
    ExpireAllPointwise(s, first, now);
  }

  /** Sweeps at the given instants, one after another, their queries reading in the given orders. */
  function Sweeps(s: State, orderScan: seq<Id>, listingScan: seq<Id>, times: seq<Time>, limit: nat): State
    decreases |times|
  {
    if times == [] then s
    else
      SweepOnce(Sweeps(s, orderScan, listingScan, times[..|times| - 1], limit), orderScan, listingScan,
                times[|times| - 1], limit)
  }

  lemma {:induction false} WorstSweepsDoNothing(s: State, n: nat, times: seq<Time>)
    requires Inv(s) && Clogged(s, n) && forall i :: 0 <= i < |times| ==> times[i] >= UNTIL
    ensures Sweeps(s, OrderScan(n), WorstScan(n), times, n) == s
  {
    if times != [] {
      WorstSweepsDoNothing(s, n, times[..|times| - 1]);
      WorstSweepDoesNothing(s, n, times[|times| - 1]);
    }
  }

  /**
   * For every limit there is a run from an empty marketplace, and an order in
   * which the queries may read the tables, such that however many sweeps come
   * at whatever instants from the date on, they change nothing, and the
   * listing nobody ordered from is still on sale though it could be expired.
   */
  lemma ListingsCanStarve(limit: nat, times: seq<Time>)
    requires forall i :: 0 <= i < |times| ==> times[i] >= UNTIL
    ensures var s := Run(EMPTY, Clogging(limit));
            && |s.listings| == limit + 1 && |s.orders| == limit
            && Start(EMPTY) && (forall i :: 0 <= i < |Clogging(limit)| ==> Valid(Clogging(limit)[i]))
            && Inv(s) && LogOk(s)
            && ScanOf(OrderScan(limit), |s.orders|) && ScanOf(WorstScan(limit), |s.listings|)
            && Sweeps(s, OrderScan(limit), WorstScan(limit), times, limit) == s
            && s.listings[0].status.Active? && forall now :: now >= UNTIL ==> 0 in Expirable(s, now)
  {
    var s := Run(EMPTY, Clogging(limit));
    CloggingIsValid(limit);
    CloggingClogs(limit);
    EveryRunKeeps(EMPTY, Clogging(limit));
    ScansAreFair(limit);
    WorstSweepsDoNothing(s, limit, times);
    FirstCouldExpire(s, limit);
  }

  lemma FirstCouldExpire(s: State, n: nat)
    requires Clogged(s, n)
    ensures |s.listings| == n + 1 && s.listings[0].status.Active? && forall now :: now >= UNTIL ==> 0 in Expirable(s, now)
  {
    LotIsPastDate(s, n, UNTIL, 0);
    forall now | now >= UNTIL
      ensures 0 in Expirable(s, now)
    {
      WhatIsDue(s, n, now);
    }
  }
}
