/**
 * The whole sweep, with its two queries. SQL promises no row order, so a query
 * reads its table in an arbitrary scan and keeps the first rows that match, up
 * to a limit (500 in the source).
 */
module SweepBatch {
  import opened Wrappers
  import opened Lots
  import opened LotInvariant
  import Effects
  import opened OrderLog
  import opened Sweep

  /** A scan reads each of a table's `n` rows once. */
  ghost predicate ScanOf(scan: seq<Id>, n: nat) {
    && (forall i: Id :: i in scan <==> i < n)
    && (forall i, j :: 0 <= i < j < |scan| ==> scan[i] != scan[j])
  }

  function OverdueIds(s: State, scan: seq<Id>, now: Time): seq<Id> {
    if scan == [] then []
    else
      var n := |scan| - 1;
      OverdueIds(s, scan[..n], now)
      + (if scan[n] < |s.orders| && OverdueAt(s.orders[scan[n]], now) then [scan[n]] else [])
  }

  function PastDateIds(s: State, scan: seq<Id>, now: Time): seq<Id> {
    if scan == [] then []
    else
      var n := |scan| - 1;
      PastDateIds(s, scan[..n], now)
      + (if scan[n] < |s.listings| && PastDate(s.listings[scan[n]], now) then [scan[n]] else [])
  }

  function Limit(ids: seq<Id>, limit: nat): seq<Id> { if |ids| <= limit then ids else ids[..limit] }

  function ExpireAll(s: State, ids: seq<Id>, now: Time): State {
    if ids == [] then s else ExpireListing(ExpireAll(s, ids[..|ids| - 1], now), ids[|ids| - 1], now)
  }

  function CloseBatch(s: State, scan: seq<Id>, now: Time, limit: nat): State {
    CloseAll(s, Limit(OverdueIds(s, scan, now), limit), now)
  }

  function ExpireBatch(s: State, scan: seq<Id>, now: Time, limit: nat): State {
    ExpireAll(s, Limit(PastDateIds(s, scan, now), limit), now)
  }

  function SweepOnce(s: State, orderScan: seq<Id>, listingScan: seq<Id>, now: Time, limit: nat): State {
    ExpireBatch(CloseBatch(s, orderScan, now, limit), listingScan, now, limit)
  }

  ghost function OverdueSet(s: State, now: Time): set<Id> {
    set o: Id | 0 <= o < |s.orders| && OverdueAt(s.orders[o], now)
  }

  /** Listings the sweep can expire: past their date, with no open order. */
  ghost function Expirable(s: State, now: Time): set<Id> {
    set l: Id | 0 <= l < |s.listings| && PastDate(s.listings[l], now) && OpenCount(s.orders, l) == 0
  }

  /** Listings past their date that wait for an open order. */
  ghost function Waiting(s: State, now: Time): set<Id> {
    set l: Id | 0 <= l < |s.listings| && PastDate(s.listings[l], now) && OpenCount(s.orders, l) > 0
  }

  // ---------------------------------------------------------------------------
  // Queries
  // ---------------------------------------------------------------------------

  ghost predicate Distinct(ids: seq<Id>) { forall i, j :: 0 <= i < j < |ids| ==> ids[i] != ids[j] }

  ghost function Members(ids: seq<Id>): set<Id> { set i | i in ids }

  lemma {:induction false} DistinctCounts(ids: seq<Id>)
    requires Distinct(ids)
    ensures |Members(ids)| == |ids|
  {
    if ids != [] {
      var n := |ids| - 1;
      DistinctCounts(ids[..n]);
      assert Members(ids) == Members(ids[..n]) + {ids[n]};
    }
  }

  lemma {:induction false} OverdueQuery(s: State, scan: seq<Id>, now: Time)
    requires Distinct(scan)
    ensures Distinct(OverdueIds(s, scan, now))
    ensures forall o :: o in OverdueIds(s, scan, now) <==> o in scan && o < |s.orders| && OverdueAt(s.orders[o], now)
  {
    if scan != [] {
      var n := |scan| - 1;
      OverdueQuery(s, scan[..n], now);
      assert scan == scan[..n] + [scan[n]];
    }
  }

  lemma {:induction false} PastDateQuery(s: State, scan: seq<Id>, now: Time)
    requires Distinct(scan)
    ensures Distinct(PastDateIds(s, scan, now))
    ensures forall l :: l in PastDateIds(s, scan, now) <==> l in scan && l < |s.listings| && PastDate(s.listings[l], now)
  {
    if scan != [] {
      var n := |scan| - 1;
      PastDateQuery(s, scan[..n], now);
      assert scan == scan[..n] + [scan[n]];
    }
  }

  // ---------------------------------------------------------------------------
  // One batch of each kind
  // ---------------------------------------------------------------------------

  /** Each sweep closes as many overdue orders as its limit allows, whichever it is given. */
  lemma CloseBatchProgress(s: State, scan: seq<Id>, now: Time, limit: nat)
    requires Inv(s) && ScanOf(scan, |s.orders|)
    ensures var t := CloseBatch(s, scan, now, limit);
            && Inv(t) && SameSkeleton(s, t)
            && OverdueSet(t, now) <= OverdueSet(s, now)
            && |OverdueSet(t, now)| == if |OverdueSet(s, now)| <= limit then 0 else |OverdueSet(s, now)| - limit
  {
    var due := OverdueIds(s, scan, now);
    var ids := Limit(due, limit);
    OverdueQuery(s, scan, now);
    CloseAllPointwise(s, ids, now);
    var t := CloseBatch(s, scan, now, limit);
    DistinctCounts(due);
    DistinctCounts(ids);
    assert Members(due) == OverdueSet(s, now);
    assert Members(ids) <= Members(due);
    forall o: Id | o < |s.orders|
      ensures o in OverdueSet(t, now) <==> o in OverdueSet(s, now) && o !in ids
    {
      QueryMatchesTimedStep(s.orders[o], now);
    }
    assert OverdueSet(t, now) == Members(due) - Members(ids);
  }

  lemma {:induction false} ExpireAllPointwise(s: State, ids: seq<Id>, now: Time)
    requires Inv(s)
    ensures var t := ExpireAll(s, ids, now);
            && Inv(t) && t.orders == s.orders && t.log == s.log && |t.listings| == |s.listings|
            && forall l :: 0 <= l < |s.listings| ==>
                 t.listings[l] == if l in ids && l in Expirable(s, now) then s.listings[l].(status := Expired)
                                  else s.listings[l]
    ensures (forall l :: l in ids ==> l !in Expirable(s, now)) ==> ExpireAll(s, ids, now) == s
  {
    if ids != [] {
      var n := |ids| - 1;
      ExpireAllPointwise(s, ids[..n], now);
      ExpireKeeps(ExpireAll(s, ids[..n], now), ids[n], now);
      assert ids == ids[..n] + [ids[n]];
    }
  }

  lemma ExpireBatchEffect(s: State, scan: seq<Id>, now: Time, limit: nat)
    requires Inv(s)
    ensures var t := ExpireBatch(s, scan, now, limit); var ids := Limit(PastDateIds(s, scan, now), limit);
            && Inv(t) && t.orders == s.orders
            && Expirable(t, now) == Expirable(s, now) - Members(ids)
            && Waiting(t, now) == Waiting(s, now)
  {
    var ids := Limit(PastDateIds(s, scan, now), limit);
    ExpireAllPointwise(s, ids, now);
    var t := ExpireBatch(s, scan, now, limit);
    forall l: Id
      ensures l in Expirable(t, now) <==> l in Expirable(s, now) - Members(ids)
      ensures l in Waiting(t, now) <==> l in Waiting(s, now)
    {
    }
  }

  // ---------------------------------------------------------------------------
  // The sweep as a whole
  // ---------------------------------------------------------------------------

  ghost predicate NothingLeft(s: State, now: Time) { OverdueSet(s, now) == {} && Expirable(s, now) == {} }

  /** Within the limits one sweep leaves nothing overdue and nothing to expire, whatever rows the queries find first. */
  lemma SweepIsComplete(s: State, orderScan: seq<Id>, listingScan: seq<Id>, now: Time, limit: nat)
    requires Inv(s) && ScanOf(orderScan, |s.orders|) && ScanOf(listingScan, |s.listings|)
    requires |OverdueSet(s, now)| <= limit
    requires var s1 := CloseBatch(s, orderScan, now, limit); |Expirable(s1, now)| + |Waiting(s1, now)| <= limit
    ensures Inv(SweepOnce(s, orderScan, listingScan, now, limit))
    ensures NothingLeft(SweepOnce(s, orderScan, listingScan, now, limit), now)
  {
    CloseBatchProgress(s, orderScan, now, limit);
    ExpiryIsComplete(CloseBatch(s, orderScan, now, limit), listingScan, now, limit);
  }

  /** A batch that takes in every listing past its date leaves none to expire, and touches no order. */
  lemma ExpiryIsComplete(s: State, scan: seq<Id>, now: Time, limit: nat)
    requires Inv(s) && ScanOf(scan, |s.listings|) && |Expirable(s, now)| + |Waiting(s, now)| <= limit
    ensures var t := ExpireBatch(s, scan, now, limit);
            Inv(t) && Expirable(t, now) == {} && OverdueSet(t, now) == OverdueSet(s, now)
  {
    var due := PastDateIds(s, scan, now);
    PastDateQuery(s, scan, now);
    DistinctCounts(due);
    assert Members(due) == Expirable(s, now) + Waiting(s, now);
    assert Limit(due, limit) == due;
    ExpireBatchEffect(s, scan, now, limit);
  }

  // The same on the rows' own columns.

  /** Orders whose time is up. */
  ghost function LateOrders(s: State, now: Time): set<Id> {
    set o: Id | 0 <= o < |s.orders| && Effects.Overdue(s.orders[o], now)
  }

  ghost function PastTheirDate(s: State, now: Time): set<Id> {
    set l: Id | 0 <= l < |s.listings| && s.listings[l].status == Active && s.listings[l].expiresAt.Some?
                && s.listings[l].expiresAt.value <= now
  }

  /** Listings past their date that no open order keeps. */
  ghost function Removable(s: State, now: Time): set<Id> {
    set l: Id | l in PastTheirDate(s, now) && !Effects.HasOpenOrder(s.orders, l)
  }

  lemma SetsAreRaw(s: State, now: Time)
    ensures OverdueSet(s, now) == LateOrders(s, now)
    ensures Expirable(s, now) == Removable(s, now)
    ensures Expirable(s, now) + Waiting(s, now) == PastTheirDate(s, now) && Expirable(s, now) !! Waiting(s, now)
  {
    forall l: Id
      ensures OpenCount(s.orders, l) > 0 <==> Effects.HasOpenOrder(s.orders, l)
    {
      Effects.SumsAre(s.orders, l);
    }
  }

  /** The tables with every late order closed. */
  function AllClosed(s: State, orderScan: seq<Id>, now: Time): State { CloseAll(s, orderScan, now) }

  /**
   * What a sweep with a limit does: late orders fall by the limit, or to
   * none; and with no more late orders than the limit, and then no more
   * listings past their date, it leaves no order late and no listing that
   * could be removed.
   */
  lemma SweepDoes(s: State, orderScan: seq<Id>, listingScan: seq<Id>, now: Time, limit: nat)
    requires Inv(s) && ScanOf(orderScan, |s.orders|) && ScanOf(listingScan, |s.listings|)
    ensures var t, late := SweepOnce(s, orderScan, listingScan, now, limit), |LateOrders(s, now)|;
            && Inv(t) && LateOrders(t, now) <= LateOrders(s, now)
            && |LateOrders(t, now)| == (if late <= limit then 0 else late - limit)
            && (late <= limit && |PastTheirDate(AllClosed(s, orderScan, now), now)| <= limit ==>
                  LateOrders(t, now) == {} && Removable(t, now) == {})
  {
    var c := CloseBatch(s, orderScan, now, limit);
    var t := SweepOnce(s, orderScan, listingScan, now, limit);
    CloseBatchProgress(s, orderScan, now, limit);
    ExpireBatchEffect(c, listingScan, now, limit);
    SetsAreRaw(s, now);
    SetsAreRaw(c, now);
    SetsAreRaw(t, now);
    if |LateOrders(s, now)| <= limit {
      ClosedWithinLimit(s, orderScan, now, limit);
      if |PastTheirDate(c, now)| <= limit {
        ExpiryIsComplete(c, listingScan, now, limit);
      }
    }
  }

  /** A query that finds every late order closes them all. */
  lemma ClosedWithinLimit(s: State, scan: seq<Id>, now: Time, limit: nat)
    requires Inv(s) && ScanOf(scan, |s.orders|) && |OverdueSet(s, now)| <= limit
    ensures SameTables(CloseBatch(s, scan, now, limit), AllClosed(s, scan, now))
    ensures PastTheirDate(CloseBatch(s, scan, now, limit), now) == PastTheirDate(AllClosed(s, scan, now), now)
  {
    var due := OverdueIds(s, scan, now);
    OverdueQuery(s, scan, now);
    DistinctCounts(due);
    assert Members(due) == OverdueSet(s, now);
    CloseAllPointwise(s, due, now);
    CloseAllPointwise(s, scan, now);
    var a, b := CloseAll(s, due, now), CloseAll(s, scan, now);
    forall o | 0 <= o < |s.orders|
      ensures a.orders[o] == b.orders[o]
    {
      QueryMatchesTimedStep(s.orders[o], now);
    }
    SkeletonSymmetric(s, a);
    SkeletonTransitive(a, s, b);
    SkeletonDetermines(a, b);
  }

  /** A sweep with nothing left to do changes no row and no log. */
  lemma SecondSweepDoesNothing(s: State, orderScan: seq<Id>, listingScan: seq<Id>, now: Time, limit: nat)
    requires Inv(s) && NothingLeft(s, now) && Distinct(orderScan)
    ensures SweepOnce(s, orderScan, listingScan, now, limit) == s
  {
    var due := OverdueIds(s, orderScan, now);
    OverdueQuery(s, orderScan, now);
    DistinctCounts(due);
    assert Members(due) <= OverdueSet(s, now);
    assert CloseBatch(s, orderScan, now, limit) == s;
    ExpireAllPointwise(s, Limit(PastDateIds(s, listingScan, now), limit), now);
  }

  // ---------------------------------------------------------------------------
  // Past the limit: listings can starve
  // ---------------------------------------------------------------------------

  ghost predicate ExpiresSome(s: State, scan: seq<Id>, now: Time, limit: nat) {
    Expirable(ExpireBatch(s, scan, now, limit), now) != Expirable(s, now)
  }

  lemma SequenceOf(ids: set<Id>) returns (scan: seq<Id>)
    ensures Distinct(scan) && Members(scan) == ids
    decreases ids
  {
    if ids == {} {
      scan := [];
    } else {
      var i :| i in ids;
      var rest := SequenceOf(ids - {i});
      scan := [i] + rest;
      assert forall j :: 0 <= j < |rest| ==> rest[j] in Members(rest);
      assert Members(scan) == {i} + Members(rest);
    }
  }

  lemma {:induction false} PastDateAll(s: State, ids: seq<Id>, now: Time)
    requires forall i :: 0 <= i < |ids| ==> ids[i] < |s.listings| && PastDate(s.listings[ids[i]], now)
    ensures PastDateIds(s, ids, now) == ids
  {
    if ids != [] {
      var n := |ids| - 1;
      PastDateAll(s, ids[..n], now);
      assert ids == ids[..n] + [ids[n]];
    }
  }

  /** Rows read first come first in the result. */
  lemma {:induction false} PastDateOfConcat(s: State, a: seq<Id>, b: seq<Id>, now: Time)
    requires forall i :: 0 <= i < |a| ==> a[i] < |s.listings| && PastDate(s.listings[a[i]], now)
    ensures a <= PastDateIds(s, a + b, now)
  {
    if b == [] {
      assert a + b == a;
      PastDateAll(s, a, now);
    } else {
      var n := |b| - 1;
      PastDateOfConcat(s, a, b[..n], now);
      assert (a + b)[..|a| + n] == a + b[..n];
    }
  }

  /**
   * With something to expire, every sweep is sure to expire something exactly
   * when fewer listings than the limit are waiting for open orders. A disputed
   * order has no time limit, so listings can wait for ever.
   */
  lemma ExpiryProgressCondition(s: State, now: Time, limit: nat)
    requires Inv(s) && Expirable(s, now) != {}
    ensures (forall scan :: ScanOf(scan, |s.listings|) ==> ExpiresSome(s, scan, now, limit))
       <==> |Waiting(s, now)| < limit
  {
    if |Waiting(s, now)| < limit {
      forall scan | ScanOf(scan, |s.listings|)
        ensures ExpiresSome(s, scan, now, limit)
      {
        BatchReachesExpirable(s, scan, now, limit);
      }
    } else {
      var scan := StarvingScan(s, now, limit);
    }
  }

  lemma BatchReachesExpirable(s: State, scan: seq<Id>, now: Time, limit: nat)
    requires Inv(s) && Expirable(s, now) != {} && ScanOf(scan, |s.listings|) && |Waiting(s, now)| < limit
    ensures ExpiresSome(s, scan, now, limit)
  {
    var due := PastDateIds(s, scan, now);
    var ids := Limit(due, limit);
    PastDateQuery(s, scan, now);
    ExpireBatchEffect(s, scan, now, limit);
    var l :| l in Expirable(s, now);
    assert l in due;
    if |due| <= limit {
      assert l in Members(ids);
    } else if Members(ids) * Expirable(s, now) == {} {
      DistinctCounts(ids);
      forall i | i in ids
        ensures i in Waiting(s, now)
      {
        assert i in due && i in Members(ids) && i !in Members(ids) * Expirable(s, now);
      }
      Subset(Members(ids), Waiting(s, now));
      assert false;
    }
  }

  lemma Subset(a: set<Id>, b: set<Id>)
    requires a <= b
    ensures |a| <= |b|
  {
    assert b == a + (b - a);
  }

  /** A scan that meets the waiting listings first finds nothing to expire. */
  lemma WaitingFirst(s: State, first: seq<Id>, rest: seq<Id>, now: Time, limit: nat)
    requires Inv(s) && |first| >= limit && Members(first) == Waiting(s, now)
    ensures !ExpiresSome(s, first + rest, now, limit)
  {
    forall i | 0 <= i < |first|
      ensures first[i] in Waiting(s, now)
    {
      assert first[i] in Members(first);
    }
    PastDateOfConcat(s, first, rest, now);
    var due := PastDateIds(s, first + rest, now);
    var ids := Limit(due, limit);
    assert ids == first[..limit];
    ExpireBatchEffect(s, first + rest, now, limit);
    assert Members(ids) <= Waiting(s, now);
    assert Waiting(s, now) * Expirable(s, now) == {};
  }

  lemma StarvingScan(s: State, now: Time, limit: nat) returns (scan: seq<Id>)
    requires Inv(s) && |Waiting(s, now)| >= limit
    ensures ScanOf(scan, |s.listings|) && !ExpiresSome(s, scan, now, limit)
  {
    var all := AllBelow(|s.listings|);
    var first := SequenceOf(Waiting(s, now));
    var rest := SequenceOf(all - Waiting(s, now));
    scan := first + rest;
    PartsScan(first, rest, all, |s.listings|);
    DistinctCounts(first);
    WaitingFirst(s, first, rest, now, limit);
  }

  lemma AllBelow(n: nat) returns (all: set<Id>)
    ensures |all| == n && forall i: Id :: i in all <==> i < n
  {
    all := {};
    for k := 0 to n
      invariant |all| == k && forall i: Id :: i in all <==> i < k
    {
      all := all + {k};
    }
  }

  lemma PartsScan(first: seq<Id>, rest: seq<Id>, all: set<Id>, n: nat)
    requires Distinct(first) && Distinct(rest) && Members(first) <= all && Members(rest) == all - Members(first)
    requires forall i: Id :: i in all <==> i < n
    ensures ScanOf(first + rest, n)
  {
    assert forall i :: 0 <= i < |first| ==> first[i] in Members(first);
    assert forall i :: 0 <= i < |rest| ==> rest[i] in Members(rest);
    forall i: Id
      ensures i in first + rest <==> i < n
    {
      assert i in first <==> i in Members(first);
      assert i in rest <==> i in Members(rest);
    }
  }
}
