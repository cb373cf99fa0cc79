/**
 * The catalogue top-up: one pass over the demonstration products that
 * restocks a lot on sale, reopens one that sold out, lists one that is not on
 * sale and creates one that is missing.
 */
module Replenish {
  import opened Wrappers
  import opened Sorting
  import opened Lots
  import opened LotInvariant
  import opened Catalogue

  datatype Product = Product(key: nat, pricePence: int, quantity: int, minOrderQuantity: int)

  predicate ValidProduct(p: Product) { 1 <= p.pricePence <= MAX_AMOUNT_PENCE && 1 <= p.minOrderQuantity <= p.quantity }

  /** A curated passport's product and lot number. */
  datatype Tag = Tag(key: nat, number: nat)

  /** The tables, and the tag of each passport. */
  datatype Shop = Shop(tables: State, tags: seq<Option<Tag>>)

  predicate Tagged(s: Shop) { |s.tags| == |s.tables.passports| }

  datatype Seller = Seller(userId: Id, organisationId: Id)

  /** The statuses of a passport's listings. */
  function StatusesOf(listings: seq<Listing>, p: Id): seq<ListingStatus> {
    if listings == [] then []
    else
      var last := listings[|listings| - 1];
      StatusesOf(listings[..|listings| - 1], p) + if last.passportId == p then [last.status] else []
  }

  /** A product's passports, as its lots. */
  function LotsOfProduct(tags: seq<Option<Tag>>, listings: seq<Listing>, key: nat): seq<Lot> {
    if tags == [] then []
    else
      var n := |tags| - 1;
      LotsOfProduct(tags[..n], listings, key)
      + if tags[n].Some? && tags[n].value.key == key
        then [Lot(n, tags[n].value.number, StatusesOf(listings, n))] else []
  }

  predicate OnTheShelf(status: ListingStatus) { status.Active? || status.Reserved? }

  predicate IsSold(status: ListingStatus) { status.Sold? }

  /** A listing of the passport in one of the wanted statuses. */
  function ListingWith(listings: seq<Listing>, p: Id, wanted: ListingStatus -> bool): (r: Option<Id>)
    ensures r.Some? ==> r.value < |listings| && listings[r.value].passportId == p && wanted(listings[r.value].status)
    ensures r.None? ==> forall l :: 0 <= l < |listings| && listings[l].passportId == p ==> !wanted(listings[l].status)
  {
    if listings == [] then None
    else
      var n := |listings| - 1;
      if listings[n].passportId == p && wanted(listings[n].status) then Some(n) else ListingWith(listings[..n], p, wanted)
  }

  // ---------------------------------------------------------------------------
  // One product
  // ---------------------------------------------------------------------------

  datatype Action = LeftAlone | Restocked | Relisted | Created

  function Restock(s: State, l: Id, short: int): State
    requires l < |s.listings|
  {
    var row := s.listings[l];
    s.(listings := s.listings[l := row.(quantity := row.quantity + short, available := row.available + short)])
  }

  function Reopen(s: State, l: Id, size: int): State
    requires l < |s.listings|
  {
    var row := s.listings[l].(status := Active,
                              quantity := s.listings[l].quantity + size,
                              available := s.listings[l].available + size);
    SetPassportStatus(s.(listings := s.listings[l := row]), row.passportId, Listed)
  }

  function NewListing(product: Product, p: Id, seller: Seller): Listing {
    Listing(p, seller.organisationId, seller.userId, product.pricePence, product.quantity, product.quantity,
            product.minOrderQuantity, Active, None)
  }

  function Relist(s: State, product: Product, p: Id, seller: Seller): State
    requires p < |s.passports|
  {
    SetPassportStatus(s.(listings := s.listings + [NewListing(product, p, seller)]), p, Listed)
  }

  function Create(s: Shop, product: Product, seller: Seller): Shop {
    var p := |s.tables.passports|;
    var passport := Passport(seller.organisationId, Listed, 1, true);
    Shop(s.tables.(passports := s.tables.passports + [passport],
                   listings := s.tables.listings + [NewListing(product, p, seller)]),
         s.tags + [Some(Tag(product.key, 1))])
  }

  lemma {:induction false} LotHolds(tags: seq<Option<Tag>>, listings: seq<Listing>, key: nat, lot: Lot)
    ensures lot in LotsOfProduct(tags, listings, key) <==>
            lot.id < |tags| && tags[lot.id] == Some(Tag(key, lot.number)) && lot.listings == StatusesOf(listings, lot.id)
  {
    if tags != [] {
      var n := |tags| - 1;
      LotHolds(tags[..n], listings, key, lot);
      assert lot.id < n ==> tags[..n][lot.id] == tags[lot.id];
    }
  }

  lemma {:induction false} LotsAreDistinct(tags: seq<Option<Tag>>, listings: seq<Listing>, key: nat)
    ensures DistinctIds(LotsOfProduct(tags, listings, key))
  {
    if tags != [] {
      var n := |tags| - 1;
      LotsAreDistinct(tags[..n], listings, key);
      var before := LotsOfProduct(tags[..n], listings, key);
      forall i | 0 <= i < |before|
        ensures before[i].id < n
      {
        LotHolds(tags[..n], listings, key, before[i]);
      }
    }
  }

  function LotOf(s: Shop, key: nat): (r: Option<Lot>)
    ensures r.Some? ==>
              r.value.id < |s.tags| && s.tags[r.value.id] == Some(Tag(key, r.value.number))
              && r.value.listings == StatusesOf(s.tables.listings, r.value.id)
  {
    var lots := LotsOfProduct(s.tags, s.tables.listings, key);
    var r := ProductLot(lots);
    LotsAreDistinct(s.tags, s.tables.listings, key);
    ProductLotIsFirst(lots);
    assert r.Some? ==> r.value in lots;
    if r.Some? then LotHolds(s.tags, s.tables.listings, key, r.value); r else r
  }

  function ReplenishOne(s: Shop, product: Product, seller: Seller): (Shop, Action)
    requires Tagged(s)
  {
    match LotOf(s, product.key)
    case None => (Create(s, product, seller), Created)
    case Some(lot) =>
      match ListingWith(s.tables.listings, lot.id, OnTheShelf)
      case Some(l) =>
        var short := product.quantity - s.tables.listings[l].available;
        if s.tables.listings[l].status.Active? && short > 0
        then (s.(tables := Restock(s.tables, l, short)), Restocked)
        else (s, LeftAlone)
      case None =>
        match ListingWith(s.tables.listings, lot.id, IsSold)
        case Some(l) => (s.(tables := Reopen(s.tables, l, product.quantity)), Restocked)
        case None => (s.(tables := Relist(s.tables, product, lot.id, seller)), Relisted)
  }

  // ---------------------------------------------------------------------------
  // What a product's turn does, row by row
  // ---------------------------------------------------------------------------

  /** A listing as the catalogue has it, on sale without a date. */
  predicate AsCatalogued(row: Listing, product: Product, p: Id, seller: Seller) {
    row == Listing(p, seller.organisationId, seller.userId, product.pricePence, product.quantity, product.quantity,
                   product.minOrderQuantity, Active, None)
  }

  /** Stock is added so that the catalogue's quantity is available, and nothing else of the row but its status changes. */
  ghost predicate ToppedUp(was: Listing, row: Listing, product: Product) {
    && row == was.(status := Active, quantity := row.quantity, available := product.quantity)
    && row.quantity - row.available == was.quantity - was.available
  }

  ghost predicate OfProduct(s: Shop, p: Id, key: nat) { p < |s.tags| && s.tags[p].Some? && s.tags[p].value.key == key }

  ghost predicate TurnOf(s: Shop, product: Product, seller: Seller, t: Shop, action: Action) {
    var was, now := s.tables, t.tables;
    && now.orders == was.orders && now.log == was.log && now.history == was.history
    && match action
       case LeftAlone => t == s
       case Restocked =>
         && t.tags == s.tags && |now.passports| == |was.passports| && |now.listings| == |was.listings|
         && exists l :: 0 <= l < |was.listings| && OfProduct(s, was.listings[l].passportId, product.key)
              && now.listings == was.listings[l := now.listings[l]]
              && ToppedUp(was.listings[l], now.listings[l], product)
       case Relisted =>
         && t.tags == s.tags && |now.passports| == |was.passports|
         && exists p :: 0 <= p < |was.passports| && OfProduct(s, p, product.key)
              && now.passports == was.passports[p := was.passports[p].(status := Listed)]
              && |now.listings| == |was.listings| + 1 && now.listings[..|was.listings|] == was.listings
              && AsCatalogued(now.listings[|was.listings|], product, p, seller)
       case Created =>
         && (forall p: Id :: !OfProduct(s, p, product.key))
         && t.tags == s.tags + [Some(Tag(product.key, 1))]
         && now.passports == was.passports + [Passport(seller.organisationId, Listed, 1, true)]
         && |now.listings| == |was.listings| + 1 && now.listings[..|was.listings|] == was.listings
         && AsCatalogued(now.listings[|was.listings|], product, |was.passports|, seller)
  }

  lemma PassportHasLot(s: Shop, key: nat, p: Id)
    requires Tagged(s) && OfProduct(s, p, key)
    ensures LotOf(s, key).Some?
  {
    var lots := LotsOfProduct(s.tags, s.tables.listings, key);
    LotsAreDistinct(s.tags, s.tables.listings, key);
    ProductLotIsFirst(lots);
    var lot := Lot(p, s.tags[p].value.number, StatusesOf(s.tables.listings, p));
    LotHolds(s.tags, s.tables.listings, key, lot);
    assert lot in lots;
  }

  lemma TurnDoes(s: Shop, product: Product, seller: Seller)
    requires Tagged(s) && Inv(s.tables)
    ensures var (t, action) := ReplenishOne(s, product, seller); TurnOf(s, product, seller, t, action)
  {
    match LotOf(s, product.key)
    case None =>
      forall p: Id
        ensures !OfProduct(s, p, product.key)
      {
        if OfProduct(s, p, product.key) {
          PassportHasLot(s, product.key, p);
        }
      }
    case Some(lot) =>
      assert OfProduct(s, lot.id, product.key);
      match ListingWith(s.tables.listings, lot.id, OnTheShelf)
      case Some(l) =>
      case None =>
        match ListingWith(s.tables.listings, lot.id, IsSold)
        case Some(l) => assert LotOk(s.tables, l);
        case None =>
  }

  // ---------------------------------------------------------------------------
  // Every pass keeps the invariant
  // ---------------------------------------------------------------------------

  lemma RestockKeeps(s: State, l: Id, short: int)
    requires Inv(s) && l < |s.listings| && s.listings[l].status.Active? && short > 0
    ensures Inv(Restock(s, l, short))
  {
    var row := s.listings[l];
    assert LotOk(s, l);
    var edited := row.(quantity := row.quantity + short);
    SettleRestores(s, l, edited, row.available + short, false);
    assert SettleLot(s, l, edited, row.available + short, false) == Restock(s, l, short);
  }

  lemma ReopenKeeps(s: State, l: Id, size: int)
    requires Inv(s) && l < |s.listings| && s.listings[l].status.Sold? && size > 0
    ensures Inv(Reopen(s, l, size))
  {
    var row := s.listings[l];
    assert LotOk(s, l);
    var edited := row.(quantity := row.quantity + size);
    SettleRestores(s, l, edited, row.available + size, false);
    assert SettleLot(s, l, edited, row.available + size, false) == Reopen(s, l, size);
  }

  lemma RelistKeeps(s: State, product: Product, p: Id, seller: Seller)
    requires Inv(s) && ValidProduct(product) && p < |s.passports| && !HasLive(s, p)
    ensures Inv(Relist(s, product, p, seller))
  {
    var t, n := Relist(s, product, p, seller), |s.listings|;
    NoOrdersNoSum(s.orders, n, UnitsTaken);
    NoOrdersNoSum(s.orders, n, OpenOrders);
    forall l | 0 <= l < n
      ensures LotOk(t, l) && !LiveOn(t, l, p)
    {
      assert LotOk(s, l);
      assert !LiveOn(s, l, p);
    }
    assert LotOk(t, n);
    assert forall k, q :: 0 <= k < n ==> LiveOn(t, k, q) == LiveOn(s, k, q);
    OneLiveStands(s, t, n);
    forall q | 0 <= q < |t.passports| && OnMarket(t.passports[q].status)
      ensures HasLive(t, q)
    {
      if q == p {
        assert LiveOn(t, n, p);
      } else {
        var k :| 0 <= k < |s.listings| && LiveOn(s, k, q);
        assert LiveOn(t, k, q);
      }
    }
  }

  /** A passport without listings joins. */
  lemma NewPassportKeeps(s: State, passport: Passport)
    requires Inv(s) && passport.status.Free?
    ensures Inv(s.(passports := s.passports + [passport]))
    ensures !HasLive(s.(passports := s.passports + [passport]), |s.passports|)
  {
    var t := s.(passports := s.passports + [passport]);
    forall l | 0 <= l < |t.listings|
      ensures LotOk(t, l)
    {
      assert LotOk(s, l);
    }
    assert forall k, q :: 0 <= k < |s.listings| ==> LiveOn(t, k, q) == LiveOn(s, k, q);
    forall q | 0 <= q < |t.passports| && OnMarket(t.passports[q].status)
      ensures HasLive(t, q)
    {
      var k :| 0 <= k < |s.listings| && LiveOn(s, k, q);
      assert LiveOn(t, k, q);
    }
  }

  lemma CreateKeepsInv(s: Shop, product: Product, seller: Seller)
    requires Inv(s.tables) && ValidProduct(product)
    ensures Inv(Create(s, product, seller).tables)
  {
    var p := |s.tables.passports|;
    var free := Passport(seller.organisationId, Free, 1, true);
    NewPassportKeeps(s.tables, free);
    var joined: State := s.tables.(passports := s.tables.passports + [free]);
    RelistKeeps(joined, product, p, seller);
    assert Relist(joined, product, p, seller) == Create(s, product, seller).tables;
  }

  /** Within the schema's bounds a turn leaves stock, statuses and passports agreeing. */
  lemma TurnKeeps(s: Shop, product: Product, seller: Seller)
    requires Tagged(s) && Inv(s.tables)
    requires 1 <= product.pricePence <= 2_000_000_000 && 1 <= product.minOrderQuantity <= product.quantity
    ensures Inv(ReplenishOne(s, product, seller).0.tables)
  {
    ReplenishOneKeeps(s, product, seller);
  }

  lemma ReplenishOneKeeps(s: Shop, product: Product, seller: Seller)
    requires Tagged(s) && Inv(s.tables) && ValidProduct(product)
    ensures var t := ReplenishOne(s, product, seller).0; Tagged(t) && Inv(t.tables) && t.tables.orders == s.tables.orders
  {
    match LotOf(s, product.key)
    case None => CreateKeepsInv(s, product, seller);
    case Some(lot) =>
      var live := ListingWith(s.tables.listings, lot.id, OnTheShelf);
      var sold := ListingWith(s.tables.listings, lot.id, IsSold);
      if live.Some? {
        var short := product.quantity - s.tables.listings[live.value].available;
        if s.tables.listings[live.value].status.Active? && short > 0 {
          RestockKeeps(s.tables, live.value, short);
        }
      } else if sold.Some? {
        ReopenKeeps(s.tables, sold.value, product.quantity);
      } else {
        RelistKeeps(s.tables, product, lot.id, seller);
      }
  }

  // ---------------------------------------------------------------------------
  // A product's own rows
  // ---------------------------------------------------------------------------

  lemma {:induction false} StatusesAre(listings: seq<Listing>, p: Id, status: ListingStatus)
    ensures status in StatusesOf(listings, p) <==>
            exists l :: 0 <= l < |listings| && listings[l].passportId == p && listings[l].status == status
  {
    if listings != [] {
      var n := |listings| - 1;
      StatusesAre(listings[..n], p, status);
      forall l | 0 <= l < n
        ensures listings[..n][l] == listings[l]
      {
      }
    }
  }

  /** What the top-up reads of a passport: its listings' statuses, and its listing on the shelf. */
  ghost predicate SameView(before: seq<Listing>, after: seq<Listing>, p: Id) {
    && StatusesOf(after, p) == StatusesOf(before, p)
    && ListingWith(after, p, OnTheShelf) == ListingWith(before, p, OnTheShelf)
    && |before| <= |after|
    && (forall l :: 0 <= l < |before| && before[l].passportId == p ==> after[l] == before[l])
  }

  lemma {:induction false} UpdateElsewhere(listings: seq<Listing>, l: Id, row: Listing, p: Id)
    requires l < |listings| && listings[l].passportId == row.passportId != p
    ensures SameView(listings, listings[l := row], p)
  {
    var n := |listings| - 1;
    var after := listings[l := row];
    if l < n {
      UpdateElsewhere(listings[..n], l, row, p);
      assert after[..n] == listings[..n][l := row];
    } else {
      assert after[..n] == listings[..n];
    }
  }

  lemma AppendElsewhere(listings: seq<Listing>, row: Listing, p: Id)
    requires row.passportId != p
    ensures SameView(listings, listings + [row], p)
  {
    assert (listings + [row])[..|listings|] == listings;
  }

  lemma {:induction false} SameLots(tags: seq<Option<Tag>>, before: seq<Listing>, after: seq<Listing>, key: nat)
    requires forall p :: 0 <= p < |tags| && tags[p].Some? && tags[p].value.key == key ==> SameView(before, after, p)
    ensures LotsOfProduct(tags, after, key) == LotsOfProduct(tags, before, key)
  {
    if tags != [] {
      SameLots(tags[..|tags| - 1], before, after, key);
    }
  }

  /** A product whose lot is on the shelf with nothing short, or fully ordered. */
  predicate Stocked(s: Shop, product: Product) {
    var lot := LotOf(s, product.key);
    lot.Some?
    && var l := ListingWith(s.tables.listings, lot.value.id, OnTheShelf);
       l.Some? && (s.tables.listings[l.value].status.Reserved? || s.tables.listings[l.value].available >= product.quantity)
  }

  lemma StockedIsLeftAlone(s: Shop, product: Product, seller: Seller)
    requires Tagged(s) && Stocked(s, product)
    ensures ReplenishOne(s, product, seller) == (s, LeftAlone)
  {
  }

  /** What a pass over one product does not touch. */
  ghost predicate OthersSame(s: Shop, t: Shop, key: nat) {
    && |s.tags| <= |t.tags| && t.tags[..|s.tags|] == s.tags
    && (forall p :: |s.tags| <= p < |t.tags| ==> t.tags[p].Some? && t.tags[p].value.key == key)
    && (forall p :: 0 <= p < |s.tags| && (s.tags[p].Some? ==> s.tags[p].value.key != key) ==>
                      SameView(s.tables.listings, t.tables.listings, p))
  }

  lemma ReplenishOneStaysApart(s: Shop, product: Product, seller: Seller)
    requires Tagged(s)
    ensures OthersSame(s, ReplenishOne(s, product, seller).0, product.key)
  {
    forall p | 0 <= p < |s.tags| && (s.tags[p].Some? ==> s.tags[p].value.key != product.key)
      ensures SameView(s.tables.listings, ReplenishOne(s, product, seller).0.tables.listings, p)
    {
      OthersView(s, product, seller, p);
    }
  }

  lemma OthersView(s: Shop, product: Product, seller: Seller, p: Id)
    requires Tagged(s) && p < |s.tags| && (s.tags[p].Some? ==> s.tags[p].value.key != product.key)
    ensures SameView(s.tables.listings, ReplenishOne(s, product, seller).0.tables.listings, p)
  {
    var (t, action) := ReplenishOne(s, product, seller);
    match LotOf(s, product.key)
    case None => AppendElsewhere(s.tables.listings, NewListing(product, |s.tables.passports|, seller), p);
    case Some(lot) =>
      match ListingWith(s.tables.listings, lot.id, OnTheShelf)
      case Some(l) =>
        if action.Restocked? {
          UpdateElsewhere(s.tables.listings, l, t.tables.listings[l], p);
        }
      case None =>
        match ListingWith(s.tables.listings, lot.id, IsSold)
        case Some(l) => UpdateElsewhere(s.tables.listings, l, t.tables.listings[l], p);
        case None => AppendElsewhere(s.tables.listings, NewListing(product, lot.id, seller), p);
  }

  lemma {:induction false} OtherTagsAddNothing(tags: seq<Option<Tag>>, n: nat, listings: seq<Listing>, key: nat)
    requires n <= |tags| && forall p :: n <= p < |tags| ==> tags[p].Some? && tags[p].value.key != key
    ensures LotsOfProduct(tags, listings, key) == LotsOfProduct(tags[..n], listings, key)
    decreases |tags|
  {
    if n < |tags| {
      OtherTagsAddNothing(tags[..|tags| - 1], n, listings, key);
      assert tags[..|tags| - 1][..n] == tags[..n];
    } else {
      assert tags[..n] == tags;
    }
  }

  lemma OtherLotStays(s: Shop, t: Shop, key: nat, other: nat)
    requires OthersSame(s, t, key) && other != key
    ensures LotOf(t, other) == LotOf(s, other)
  {
    OtherTagsAddNothing(t.tags, |s.tags|, t.tables.listings, other);
    SameLots(s.tags, s.tables.listings, t.tables.listings, other);
  }

  /** A pass over one product leaves another product's lot as it was. */
  lemma OtherProductStaysStocked(s: Shop, t: Shop, key: nat, other: Product)
    requires OthersSame(s, t, key) && other.key != key && Stocked(s, other)
    ensures Stocked(t, other)
  {
    OtherLotStays(s, t, key, other.key);
    var lot := LotOf(s, other.key).value;
    assert SameView(s.tables.listings, t.tables.listings, lot.id);
  }

  // ---------------------------------------------------------------------------
  // A second pass
  // ---------------------------------------------------------------------------

  predicate Shelved(listings: seq<Listing>, p: Id) { ListingWith(listings, p, OnTheShelf).Some? }

  predicate IsOf(s: Shop, p: Id, key: nat) { p < |s.tags| && s.tags[p].Some? && s.tags[p].value.key == key }

  lemma OnSaleIsShelved(listings: seq<Listing>, p: Id, number: nat)
    ensures OnSale(Lot(p, number, StatusesOf(listings, p))) <==> Shelved(listings, p)
  {
    var statuses := StatusesOf(listings, p);
    StatusesAre(listings, p, Active);
    StatusesAre(listings, p, ListingStatus.Reserved);
    if Shelved(listings, p) {
      var l := ListingWith(listings, p, OnTheShelf).value;
      assert listings[l].status in statuses;
      var i :| 0 <= i < |statuses| && statuses[i] == listings[l].status;
    } else if i :| 0 <= i < |statuses| && (statuses[i].Active? || statuses[i].Reserved?) {
      assert statuses[i] in statuses;
    }
  }

  /** When the lot chosen is not on the shelf, none of its product's passports is. */
  lemma NoneShelved(s: Shop, key: nat, p: Id)
    requires IsOf(s, p, key)
    ensures LotOf(s, key).Some?
    ensures !Shelved(s.tables.listings, LotOf(s, key).value.id) ==> !Shelved(s.tables.listings, p)
  {
    var listings := s.tables.listings;
    var lots := LotsOfProduct(s.tags, listings, key);
    var mine := Lot(p, s.tags[p].value.number, StatusesOf(listings, p));
    LotsAreDistinct(s.tags, listings, key);
    LotHolds(s.tags, listings, key, mine);
    ProductLotIsFirst(lots);
    var lot := LotOf(s, key).value;
    OnSaleIsShelved(listings, p, mine.number);
    OnSaleIsShelved(listings, lot.id, lot.number);
  }

  /** The one passport of a product on the shelf is its lot. */
  lemma ShelvedIsTheLot(s: Shop, key: nat, p: Id)
    requires IsOf(s, p, key) && Shelved(s.tables.listings, p)
    requires forall q :: IsOf(s, q, key) && q != p ==> !Shelved(s.tables.listings, q)
    ensures LotOf(s, key).Some? && LotOf(s, key).value.id == p
  {
    NoneShelved(s, key, p);
    assert IsOf(s, LotOf(s, key).value.id, key);
  }

  lemma {:induction false} SameStatusSameView(listings: seq<Listing>, l: Id, row: Listing, p: Id)
    requires l < |listings| && listings[l].passportId == row.passportId && listings[l].status == row.status
    ensures StatusesOf(listings[l := row], p) == StatusesOf(listings, p)
    ensures ListingWith(listings[l := row], p, OnTheShelf) == ListingWith(listings, p, OnTheShelf)
  {
    var n := |listings| - 1;
    var after := listings[l := row];
    if l < n {
      SameStatusSameView(listings[..n], l, row, p);
      assert after[..n] == listings[..n][l := row];
    } else {
      assert after[..n] == listings[..n];
    }
  }

  lemma {:induction false} SameStatusesSameLots(tags: seq<Option<Tag>>, before: seq<Listing>, after: seq<Listing>, key: nat)
    requires forall p :: 0 <= p < |tags| ==> StatusesOf(after, p) == StatusesOf(before, p)
    ensures LotsOfProduct(tags, after, key) == LotsOfProduct(tags, before, key)
  {
    if tags != [] {
      SameStatusesSameLots(tags[..|tags| - 1], before, after, key);
    }
  }

  /** The product's lot has exactly the catalogue's quantity available. */
  predicate Topped(s: Shop, product: Product) {
    var lot := LotOf(s, product.key);
    lot.Some?
    && var l := ListingWith(s.tables.listings, lot.value.id, OnTheShelf);
       l.Some? && s.tables.listings[l.value].available == product.quantity
  }

  lemma RestockStocks(s: Shop, product: Product, l: Id)
    requires LotOf(s, product.key).Some?
    requires ListingWith(s.tables.listings, LotOf(s, product.key).value.id, OnTheShelf) == Some(l)
    ensures var short := product.quantity - s.tables.listings[l].available;
            Topped(s.(tables := Restock(s.tables, l, short)), product)
  {
    var short := product.quantity - s.tables.listings[l].available;
    var t := Restock(s.tables, l, short);
    forall p
      ensures StatusesOf(t.listings, p) == StatusesOf(s.tables.listings, p)
      ensures ListingWith(t.listings, p, OnTheShelf) == ListingWith(s.tables.listings, p, OnTheShelf)
    {
      SameStatusSameView(s.tables.listings, l, t.listings[l], p);
    }
    SameStatusesSameLots(s.tags, s.tables.listings, t.listings, product.key);
  }

  /** A row that comes on the shelf, old or new, makes its passport the product's lot. */
  lemma ShelvingStocks(s: Shop, t: Shop, product: Product, l: Id)
    requires OthersSame(s, t, product.key) && l < |t.tables.listings|
    requires var row := t.tables.listings[l];
             row.status.Active? && row.available == product.quantity && IsOf(t, row.passportId, product.key)
    requires forall q :: IsOf(s, q, product.key) ==> !Shelved(s.tables.listings, q)
    requires |t.tags| <= |s.tags| || (|t.tags| == |s.tags| + 1 && t.tables.listings[l].passportId == |s.tags|)
    requires |s.tables.listings| <= |t.tables.listings|
    requires forall k :: 0 <= k < |t.tables.listings| && k != l ==>
               k < |s.tables.listings| && t.tables.listings[k] == s.tables.listings[k]
    requires forall k :: 0 <= k < |s.tables.listings| ==>
               s.tables.listings[k].passportId == t.tables.listings[k].passportId < |s.tags|
    ensures Topped(t, product)
  {
    var p := t.tables.listings[l].passportId;
    var shelf := ListingWith(t.tables.listings, p, OnTheShelf);
    forall k | 0 <= k < |t.tables.listings| && k != l && IsOf(t, t.tables.listings[k].passportId, product.key)
      ensures !OnTheShelf(t.tables.listings[k].status)
    {
      assert IsOf(s, s.tables.listings[k].passportId, product.key);
      assert !Shelved(s.tables.listings, s.tables.listings[k].passportId);
    }
    assert shelf == Some(l);
    forall q | IsOf(t, q, product.key) && q != p
      ensures !Shelved(t.tables.listings, q)
    {
    }
    ShelvedIsTheLot(t, product.key, p);
  }

  lemma ReopenStocks(s: Shop, product: Product, l: Id)
    requires Inv(s.tables) && l < |s.tables.listings| && s.tables.listings[l].status.Sold?
    requires IsOf(s, s.tables.listings[l].passportId, product.key) && Tagged(s)
    requires forall q :: IsOf(s, q, product.key) ==> !Shelved(s.tables.listings, q)
    requires OthersSame(s, s.(tables := Reopen(s.tables, l, product.quantity)), product.key)
    ensures Topped(s.(tables := Reopen(s.tables, l, product.quantity)), product)
  {
    assert LotOk(s.tables, l);
    ShelvingStocks(s, s.(tables := Reopen(s.tables, l, product.quantity)), product, l);
  }

  lemma RelistStocks(s: Shop, product: Product, p: Id, seller: Seller)
    requires Tagged(s) && IsOf(s, p, product.key)
    requires forall q :: IsOf(s, q, product.key) ==> !Shelved(s.tables.listings, q)
    requires OthersSame(s, s.(tables := Relist(s.tables, product, p, seller)), product.key)
    ensures Topped(s.(tables := Relist(s.tables, product, p, seller)), product)
  {
    ShelvingStocks(s, s.(tables := Relist(s.tables, product, p, seller)), product, |s.tables.listings|);
  }

  lemma CreateStocks(s: Shop, product: Product, seller: Seller)
    requires Tagged(s)
    requires forall q :: IsOf(s, q, product.key) ==> !Shelved(s.tables.listings, q)
    requires OthersSame(s, Create(s, product, seller), product.key)
    ensures Topped(Create(s, product, seller), product)
  {
    ShelvingStocks(s, Create(s, product, seller), product, |s.tables.listings|);
  }

  lemma OnTheShelfStocks(s: Shop, product: Product, seller: Seller)
    requires Tagged(s) && LotOf(s, product.key).Some?
    requires Shelved(s.tables.listings, LotOf(s, product.key).value.id)
    ensures var (t, action) := ReplenishOne(s, product, seller);
            Stocked(t, product) && (action != LeftAlone ==> Topped(t, product))
  {
    RestockStocks(s, product, ListingWith(s.tables.listings, LotOf(s, product.key).value.id, OnTheShelf).value);
  }

  lemma OffTheShelfStocks(s: Shop, product: Product, seller: Seller)
    requires Tagged(s) && Inv(s.tables) && LotOf(s, product.key).Some?
    requires forall q :: IsOf(s, q, product.key) ==> !Shelved(s.tables.listings, q)
    requires OthersSame(s, ReplenishOne(s, product, seller).0, product.key)
    ensures Topped(ReplenishOne(s, product, seller).0, product)
  {
    var lot := LotOf(s, product.key).value;
    var sold := ListingWith(s.tables.listings, lot.id, IsSold);
    assert IsOf(s, lot.id, product.key);
    if sold.Some? {
      assert ReplenishOne(s, product, seller).0 == s.(tables := Reopen(s.tables, sold.value, product.quantity));
      ReopenStocks(s, product, sold.value);
    } else {
      assert ReplenishOne(s, product, seller).0 == s.(tables := Relist(s.tables, product, lot.id, seller));
      RelistStocks(s, product, lot.id, seller);
    }
  }

  /** A product's turn tops its lot up to the catalogue's quantity, or finds it stocked. */
  lemma ReplenishOneStocks(s: Shop, product: Product, seller: Seller)
    requires Tagged(s) && Inv(s.tables)
    ensures var (t, action) := ReplenishOne(s, product, seller);
            Stocked(t, product) && (action != LeftAlone ==> Topped(t, product))
  {
    var lot := LotOf(s, product.key);
    if lot.Some? && Shelved(s.tables.listings, lot.value.id) {
      OnTheShelfStocks(s, product, seller);
    } else {
      forall q | IsOf(s, q, product.key)
        ensures !Shelved(s.tables.listings, q)
      {
        NoneShelved(s, product.key, q);
      }
      ReplenishOneStaysApart(s, product, seller);
      if lot.None? {
        CreateStocks(s, product, seller);
      } else {
        OffTheShelfStocks(s, product, seller);
      }
    }
  }

  /** One pass over the catalogue. */
  function ReplenishAll(s: Shop, products: seq<Product>, seller: Seller): (r: (Shop, seq<Action>))
    requires Tagged(s)
    ensures Tagged(r.0)
  {
    if products == [] then (s, [])
    else
      var n := |products| - 1;
      var before := ReplenishAll(s, products[..n], seller);
      var last := ReplenishOne(before.0, products[n], seller);
      (last.0, before.1 + [last.1])
  }

  predicate Catalogued(products: seq<Product>) {
    && (forall i :: 0 <= i < |products| ==> ValidProduct(products[i]))
    && (forall i, j :: 0 <= i < j < |products| ==> products[i].key != products[j].key)
  }

  /** A pass keeps the whole marketplace invariant and every order, and leaves each product stocked. */
  lemma {:induction false} PassKeeps(s: Shop, products: seq<Product>, seller: Seller)
    requires Tagged(s) && Inv(s.tables) && Catalogued(products)
    ensures var t := ReplenishAll(s, products, seller).0;
            && Inv(t.tables) && t.tables.orders == s.tables.orders
            && forall i :: 0 <= i < |products| ==> Stocked(t, products[i])
  {
    if products != [] {
      var n := |products| - 1;
      PassKeeps(s, products[..n], seller);
      var before := ReplenishAll(s, products[..n], seller).0;
      var t := ReplenishOne(before, products[n], seller).0;
      assert forall i :: 0 <= i < n ==> products[..n][i] == products[i];
      ReplenishOneKeeps(before, products[n], seller);
      OneMoreStocked(before, products, n, seller);
    }
  }

  lemma OneMoreStocked(s: Shop, products: seq<Product>, n: nat, seller: Seller)
    requires Tagged(s) && Inv(s.tables) && Catalogued(products) && n < |products|
    requires forall i :: 0 <= i < n ==> Stocked(s, products[i])
    ensures forall i :: 0 <= i <= n ==> Stocked(ReplenishOne(s, products[n], seller).0, products[i])
  {
    var t := ReplenishOne(s, products[n], seller).0;
    ReplenishOneStaysApart(s, products[n], seller);
    ReplenishOneStocks(s, products[n], seller);
    forall i | 0 <= i < n
      ensures Stocked(t, products[i])
    {
      OtherProductStaysStocked(s, t, products[n].key, products[i]);
    }
  }

  /** The outcome of a pass that left every product alone. */
  predicate NothingDone(s: Shop, outcome: (Shop, seq<Action>)) {
    outcome.0 == s && forall i :: 0 <= i < |outcome.1| ==> outcome.1[i] == LeftAlone
  }

  lemma {:induction false} StockedShopIsLeftAlone(s: Shop, products: seq<Product>, seller: Seller)
    requires Tagged(s) && forall i :: 0 <= i < |products| ==> Stocked(s, products[i])
    ensures NothingDone(s, ReplenishAll(s, products, seller))
  {
    if products != [] {
      var n := |products| - 1;
      StockedShopIsLeftAlone(s, products[..n], seller);
      StockedIsLeftAlone(s, products[n], seller);
    }
  }

  /** With no orders in between, a second pass changes nothing. */
  lemma SecondPassDoesNothing(s: Shop, products: seq<Product>, seller: Seller)
    requires Tagged(s) && Inv(s.tables) && Catalogued(products)
    ensures var t := ReplenishAll(s, products, seller).0;
            NothingDone(t, ReplenishAll(t, products, seller))
  {
    PassKeeps(s, products, seller);
    StockedShopIsLeftAlone(ReplenishAll(s, products, seller).0, products, seller);
  }

  function Count(actions: seq<Action>, wanted: Action): nat {
    if actions == [] then 0
    else Count(actions[..|actions| - 1], wanted) + if actions[|actions| - 1] == wanted then 1 else 0
  }

  ghost function Places(actions: seq<Action>, wanted: Action): set<int> {
    set i | 0 <= i < |actions| && actions[i] == wanted
  }

  lemma PlacesOf(actions: seq<Action>, a: Action, wanted: Action)
    ensures Places(actions + [a], wanted) == Places(actions, wanted) + if a == wanted then {|actions|} else {}
  {
  }

  /** The counters count. */
  lemma {:induction false} CountIs(actions: seq<Action>, wanted: Action)
    ensures Count(actions, wanted) == |Places(actions, wanted)|
  {
    if actions == [] {
      assert Places([], wanted) == {};
    } else {
      var n := |actions| - 1;
      CountIs(actions[..n], wanted);
      PlacesOf(actions[..n], actions[n], wanted);
      assert actions == actions[..n] + [actions[n]];
    }
  }

  /** The loop of the script, with what it reports. */
  method Pass(s: Shop, products: seq<Product>, seller: Seller)
    returns (t: Shop, restocked: nat, relisted: nat, created: nat)
    requires Tagged(s)
    ensures var (after, actions) := ReplenishAll(s, products, seller);
            && t == after
            && restocked == Count(actions, Restocked) && relisted == Count(actions, Relisted)
            && created == Count(actions, Created)
  {
    t, restocked, relisted, created := s, 0, 0, 0;
    for i := 0 to |products|
      invariant var (after, actions) := ReplenishAll(s, products[..i], seller);
                && t == after
                && restocked == Count(actions, Restocked) && relisted == Count(actions, Relisted)
                && created == Count(actions, Created)
    {
      var (after, action) := ReplenishOne(t, products[i], seller);
      assert products[..i + 1][..i] == products[..i];
      ghost var before := ReplenishAll(s, products[..i], seller).1;
      assert (before + [action])[..|before|] == before;
      t := after;
      match action {
        case LeftAlone =>
        case Restocked => restocked := restocked + 1;
        case Relisted => relisted := relisted + 1;
        case Created => created := created + 1;
      }
    }
    assert products[..|products|] == products;
  }
}
