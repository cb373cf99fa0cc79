/**
 * One lot per demonstration product: which of a product's passports is its
 * lot, and which of the others may be deleted.
 */
module Catalogue {
  import opened Wrappers
  import opened Sorting
  import opened Lots

  /** A curated passport of a product: its lot number, and its listings' statuses. */
  datatype Lot = Lot(id: Id, number: nat, listings: seq<ListingStatus>)

  predicate ByNumber(a: Lot, b: Lot) { a.number < b.number || (a.number == b.number && a.id < b.id) }

  predicate OnSale(lot: Lot) {
    exists i :: 0 <= i < |lot.listings| && (lot.listings[i].Active? || lot.listings[i].Reserved?)
  }

  predicate HasSold(lot: Lot) { ListingStatus.Sold in lot.listings }

  function Find(lots: seq<Lot>, wanted: Lot -> bool): Option<Lot> {
    if lots == [] then None else if wanted(lots[0]) then Some(lots[0]) else Find(lots[1..], wanted)
  }

  /** A product's one lot: the lowest-numbered on sale or fully ordered, else that sold, else the lowest-numbered. */
  function ProductLot(lots: seq<Lot>): Option<Lot> {
    var ordered := Sort(ByNumber, lots);
    var live := Find(ordered, OnSale);
    var sold := Find(ordered, HasSold);
    if live.Some? then live
    else if sold.Some? then sold
    else if ordered == [] then None else Some(ordered[0])
  }

  predicate DistinctIds(lots: seq<Lot>) { forall i, j :: 0 <= i < j < |lots| ==> lots[i].id != lots[j].id }

  /** How a lot ranks: on sale before sold before the rest. */
  function Rank(lot: Lot): nat {
    if Active in lot.listings || ListingStatus.Reserved in lot.listings then 0
    else if ListingStatus.Sold in lot.listings then 1
    else 2
  }

  /** Among lots of one rank the lowest number comes first, and of one number the lowest id. */
  predicate Before(a: Lot, b: Lot) {
    || Rank(a) < Rank(b)
    || (Rank(a) == Rank(b) && a.number < b.number)
    || (Rank(a) == Rank(b) && a.number == b.number && a.id < b.id)
  }

  lemma {:induction false} FindIsFirst(ordered: seq<Lot>, wanted: Lot -> bool)
    requires Ascending(ByNumber, ordered)
    ensures Find(ordered, wanted).None? <==> forall x :: x in ordered ==> !wanted(x)
    ensures Find(ordered, wanted).Some? ==>
              var k := Find(ordered, wanted).value;
              k in ordered && wanted(k) && forall x :: x in ordered && wanted(x) ==> x == k || ByNumber(k, x)
  {
    if ordered != [] {
      FindIsFirst(ordered[1..], wanted);
      assert ordered == [ordered[0]] + ordered[1..];
    }
  }

  lemma SortedByNumber(lots: seq<Lot>)
    requires DistinctIds(lots)
    ensures Ascending(ByNumber, Sort(ByNumber, lots))
    ensures forall x :: x in Sort(ByNumber, lots) <==> x in lots
  {
    SortAscends(ByNumber, lots);
    forall x
      ensures x in Sort(ByNumber, lots) <==> x in lots
    {
      SortHolds(ByNumber, lots, x);
    }
  }

  /** The lot is the one that ranks first. */
  lemma ProductLotIsFirst(lots: seq<Lot>)
    requires DistinctIds(lots)
    ensures ProductLot(lots).None? <==> lots == []
    ensures ProductLot(lots).Some? ==>
              var first := ProductLot(lots).value;
              first in lots && forall x :: x in lots ==> x == first || Before(first, x)
  {
    SortedByNumber(lots);
    var ordered := Sort(ByNumber, lots);
    BothEmpty(ordered, lots);
    FindIsFirst(ordered, OnSale);
    FindIsFirst(ordered, HasSold);
    if lots != [] && Find(ordered, OnSale).None? && Find(ordered, HasSold).None? {
      assert ordered[0] in ordered;
    }
  }

  /** So whoever ranks first among lots is their product's lot. */
  lemma FirstIsProductLot(lots: seq<Lot>, k: Lot)
    requires DistinctIds(lots) && k in lots && forall x :: x in lots ==> x == k || Before(k, x)
    ensures ProductLot(lots) == Some(k)
  {
    ProductLotIsFirst(lots);
    assert ProductLot(lots).value in lots;
  }

  /** The order lots come in does not matter. */
  lemma ProductLotForgetsOrder(lots: seq<Lot>, other: seq<Lot>)
    requires DistinctIds(lots) && DistinctIds(other) && forall x :: x in lots <==> x in other
    ensures ProductLot(lots) == ProductLot(other)
  {
    BothEmpty(lots, other);
    ProductLotIsFirst(lots);
    ProductLotIsFirst(other);
    if lots != [] {
      FirstIsProductLot(other, ProductLot(lots).value);
    }
  }

  // ---------------------------------------------------------------------------
  // Spare passports
  // ---------------------------------------------------------------------------

  /** A curated passport with what depends on it. */
  datatype Spare = Spare(lot: Lot, transactions: nat, events: nat, qualityReports: nat, sensorReadings: nat)

  datatype Reason =
    | Orders(count: nat)
    | HistoryEvents(count: nat)
    | QualityReports(count: nat)
    | SensorReadings(count: nat)
    | OtherListings(statuses: set<ListingStatus>)

  predicate Retirable(status: ListingStatus) { status.Cancelled? || status.Expired? }

  /** Nothing hangs on the passport, and its listings never sold anything. */
  predicate NothingDepends(s: Spare) {
    && s.transactions == s.events == s.qualityReports == s.sensorReadings == 0
    && forall i :: 0 <= i < |s.lot.listings| ==> s.lot.listings[i] in {ListingStatus.Cancelled, Expired}
  }

  /** What stands in the way of deleting a spare. */
  method SpareProtection(s: Spare) returns (reasons: seq<Reason>)
    ensures reasons == [] <==> NothingDepends(s)
    ensures Orders(s.transactions) in reasons <==> s.transactions > 0
    ensures HistoryEvents(s.events) in reasons <==> s.events > 0
    ensures QualityReports(s.qualityReports) in reasons <==> s.qualityReports > 0
    ensures SensorReadings(s.sensorReadings) in reasons <==> s.sensorReadings > 0
    ensures var others := set st | st in s.lot.listings && st !in {ListingStatus.Cancelled, Expired};
            forall named :: OtherListings(named) in reasons <==> named == others && others != {}
  {
    reasons := [];
    if s.transactions > 0 { reasons := reasons + [Orders(s.transactions)]; }
    if s.events > 0 { reasons := reasons + [HistoryEvents(s.events)]; }
    if s.qualityReports > 0 { reasons := reasons + [QualityReports(s.qualityReports)]; }
    if s.sensorReadings > 0 { reasons := reasons + [SensorReadings(s.sensorReadings)]; }
    var other := set st | st in s.lot.listings && !Retirable(st);
    assert other == set st | st in s.lot.listings && st !in {ListingStatus.Cancelled, Expired};
    if other != {} { reasons := reasons + [OtherListings(other)]; }
    assert other == {} <==> forall i :: 0 <= i < |s.lot.listings| ==> Retirable(s.lot.listings[i]) by {
      if i :| 0 <= i < |s.lot.listings| && !Retirable(s.lot.listings[i]) {
        assert s.lot.listings[i] in other;
      }
    }
  }

  predicate SpareByNumber(a: Spare, b: Spare) { ByNumber(a.lot, b.lot) }

  function LotsOf(rows: seq<Spare>): seq<Lot> { seq(|rows|, i requires 0 <= i < |rows| => rows[i].lot) }

  predicate DistinctSpares(rows: seq<Spare>) { forall i, j :: 0 <= i < j < |rows| ==> rows[i].lot.id != rows[j].lot.id }

  /** What happens to a product's passports: one is kept, and each other is deleted or reported. */
  datatype SparePlan = SparePlan(keep: Option<Id>, retire: seq<Id>, protected: seq<Id>)

  function Retired(rows: seq<Spare>, keep: Id): seq<Id> {
    if rows == [] then []
    else (if rows[0].lot.id != keep && NothingDepends(rows[0]) then [rows[0].lot.id] else []) + Retired(rows[1..], keep)
  }

  function Protected(rows: seq<Spare>, keep: Id): seq<Id> {
    if rows == [] then []
    else (if rows[0].lot.id != keep && !NothingDepends(rows[0]) then [rows[0].lot.id] else []) + Protected(rows[1..], keep)
  }

  function PlanFor(rows: seq<Spare>): SparePlan {
    match ProductLot(LotsOf(rows))
    case None => SparePlan(None, [], [])
    case Some(keeper) =>
      var ordered := Sort(SpareByNumber, rows);
      SparePlan(Some(keeper.id), Retired(ordered, keeper.id), Protected(ordered, keeper.id))
  }

  lemma NextSpare(ordered: seq<Spare>, i: nat, keep: Id)
    requires i < |ordered|
    ensures var r := ordered[i];
            && Retired(ordered[i..], keep)
                 == (if r.lot.id != keep && NothingDepends(r) then [r.lot.id] else []) + Retired(ordered[i + 1..], keep)
            && Protected(ordered[i..], keep)
                 == (if r.lot.id != keep && !NothingDepends(r) then [r.lot.id] else []) + Protected(ordered[i + 1..], keep)
  {
    assert ordered[i..][0] == ordered[i] && ordered[i..][1..] == ordered[i + 1..];
  }

  method SplitSpares(ordered: seq<Spare>, keep: Id) returns (retire: seq<Id>, protected: seq<Id>)
    ensures retire == Retired(ordered, keep) && protected == Protected(ordered, keep)
  {
    retire, protected := [], [];
    for i := 0 to |ordered|
      invariant retire + Retired(ordered[i..], keep) == Retired(ordered, keep)
      invariant protected + Protected(ordered[i..], keep) == Protected(ordered, keep)
    {
      var id := ordered[i].lot.id;
      NextSpare(ordered, i, keep);
      if id != keep {
        var reasons := SpareProtection(ordered[i]);
        if |reasons| == 0 {
          assert (retire + [id]) + Retired(ordered[i + 1..], keep) == retire + ([id] + Retired(ordered[i + 1..], keep));
          retire := retire + [id];
        } else {
          assert (protected + [id]) + Protected(ordered[i + 1..], keep)
              == protected + ([id] + Protected(ordered[i + 1..], keep));
          protected := protected + [id];
        }
      }
    }
  }

  /** The plan for a product's passports, in the order of their lot numbers. */
  method PlanSpareRetirement(rows: seq<Spare>) returns (plan: SparePlan)
    ensures plan == PlanFor(rows)
  {
    var keeper := ProductLot(LotsOf(rows));
    if keeper.None? { return SparePlan(None, [], []); }
    var retire, protected := SplitSpares(Sort(SpareByNumber, rows), keeper.value.id);
    return SparePlan(Some(keeper.value.id), retire, protected);
  }

  lemma {:induction false} RetiredAre(rows: seq<Spare>, keep: Id, id: Id)
    ensures id in Retired(rows, keep) <==>
            exists i :: 0 <= i < |rows| && rows[i].lot.id == id && id != keep && NothingDepends(rows[i])
    ensures id in Protected(rows, keep) <==>
            exists i :: 0 <= i < |rows| && rows[i].lot.id == id && id != keep && !NothingDepends(rows[i])
  {
    if rows != [] {
      RetiredAre(rows[1..], keep, id);
      forall i | 1 <= i < |rows|
        ensures rows[i] == rows[1..][i - 1]
      {
      }
    }
  }

  lemma SortedSpares(rows: seq<Spare>)
    requires DistinctSpares(rows)
    ensures Ascending(SpareByNumber, Sort(SpareByNumber, rows)) && DistinctSpares(Sort(SpareByNumber, rows))
    ensures forall x :: x in Sort(SpareByNumber, rows) <==> x in rows
  {
    SortAscends(SpareByNumber, rows);
    forall x
      ensures x in Sort(SpareByNumber, rows) <==> x in rows
    {
      SortHolds(SpareByNumber, rows, x);
    }
    var ordered := Sort(SpareByNumber, rows);
    forall i, j | 0 <= i < j < |ordered|
      ensures ordered[i].lot.id != ordered[j].lot.id
    {
      assert ordered[i] in rows && ordered[j] in rows && SpareByNumber(ordered[i], ordered[j]);
    }
  }

  lemma LotsOfAre(rows: seq<Spare>)
    requires DistinctSpares(rows)
    ensures DistinctIds(LotsOf(rows))
    ensures forall x :: x in LotsOf(rows) <==> exists r :: r in rows && r.lot == x
  {
    forall x
      ensures x in LotsOf(rows) <==> exists r :: r in rows && r.lot == x
    {
      if x in LotsOf(rows) {
        var i :| 0 <= i < |rows| && LotsOf(rows)[i] == x;
        assert rows[i] in rows;
      }
      if r :| r in rows && r.lot == x {
        var i :| 0 <= i < |rows| && rows[i] == r;
        assert LotsOf(rows)[i] == x;
      }
    }
  }

  /**
   * Every passport of a product is its keeper, retired or protected, and only one of
   * these; only what nothing depends on is retired.
   */
  lemma PlanSplits(rows: seq<Spare>, r: Spare)
    requires DistinctSpares(rows) && r in rows
    ensures var plan := PlanFor(rows);
            && plan.keep.Some?
            && (r.lot.id in plan.retire <==> Some(r.lot.id) != plan.keep && NothingDepends(r))
            && (r.lot.id in plan.protected <==> Some(r.lot.id) != plan.keep && !NothingDepends(r))
            && (Some(r.lot.id) == plan.keep <==> Some(r.lot) == ProductLot(LotsOf(rows)))
  {
    LotsOfAre(rows);
    ProductLotIsFirst(LotsOf(rows));
    SortedSpares(rows);
    assert r.lot in LotsOf(rows);
    var keeper := ProductLot(LotsOf(rows)).value;
    var ordered := Sort(SpareByNumber, rows);
    RetiredAre(ordered, keeper.id, r.lot.id);
    assert r in ordered;
    SameIdSameSpare(ordered, r);
    var k :| k in rows && k.lot == keeper;
    SameIdSameSpare(rows, r);
  }

  lemma SameIdSameSpare(rows: seq<Spare>, r: Spare)
    requires DistinctSpares(rows) && r in rows
    ensures forall x :: x in rows && x.lot.id == r.lot.id ==> x == r
  {
  }

  /** What is left once a plan has been carried out. */
  function Kept(rows: seq<Spare>, retired: seq<Id>): seq<Spare> {
    if rows == [] then []
    else (if rows[0].lot.id in retired then [] else [rows[0]]) + Kept(rows[1..], retired)
  }

  lemma {:induction false} KeptAre(rows: seq<Spare>, retired: seq<Id>)
    requires DistinctSpares(rows)
    ensures DistinctSpares(Kept(rows, retired))
    ensures forall x :: x in Kept(rows, retired) <==> x in rows && x.lot.id !in retired
  {
    if rows != [] {
      KeptAre(rows[1..], retired);
      assert rows == [rows[0]] + rows[1..];
      var rest := Kept(rows[1..], retired);
      forall j | 0 <= j < |rest|
        ensures rest[j].lot.id != rows[0].lot.id
      {
        assert rest[j] in rows[1..];
      }
    }
  }

  /** Planning again after the retired are deleted keeps the same lot and retires nothing. */
  lemma SecondPlanRetiresNothing(rows: seq<Spare>)
    requires DistinctSpares(rows)
    ensures var plan := PlanFor(rows);
            var again := PlanFor(Kept(rows, plan.retire));
            again.keep == plan.keep && again.retire == []
            && forall id :: id in again.protected <==> id in plan.protected
  {
    var plan := PlanFor(rows);
    var left := Kept(rows, plan.retire);
    KeptAre(rows, plan.retire);
    LotsOfAre(rows);
    LotsOfAre(left);
    ProductLotIsFirst(LotsOf(rows));
    if rows != [] {
      assert rows[0] in rows;
      PlanSplits(rows, rows[0]);
      var keeper := ProductLot(LotsOf(rows)).value;
      var k :| k in rows && k.lot == keeper;
      PlanSplits(rows, k);
      assert k in left;
      FirstIsProductLot(LotsOf(left), keeper);
      NothingMoreToRetire(rows, left, keeper.id);
    }
  }

  lemma NothingMoreToRetire(rows: seq<Spare>, left: seq<Spare>, keep: Id)
    requires DistinctSpares(rows) && DistinctSpares(left)
    requires PlanFor(rows).keep == PlanFor(left).keep == Some(keep)
    requires forall x :: x in left <==> x in rows && x.lot.id !in PlanFor(rows).retire
    ensures PlanFor(left).retire == []
    ensures forall id :: id in PlanFor(left).protected <==> id in PlanFor(rows).protected
  {
    var again := PlanFor(left);
    SortedSpares(left);
    SortedSpares(rows);
    forall id
      ensures id !in again.retire
      ensures id in again.protected <==> id in PlanFor(rows).protected
    {
      RetiredAre(Sort(SpareByNumber, left), keep, id);
      RetiredAre(Sort(SpareByNumber, rows), keep, id);
      if r :| r in rows && r.lot.id == id {
        PlanSplits(rows, r);
        if r in left {
          PlanSplits(left, r);
        }
      }
    }
    BothEmpty(again.retire, []);
  }
}
