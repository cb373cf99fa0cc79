/**
 * The repository's own checker of marketplace data: loops that fill maps and
 * push violations, proved to report exactly the rows that break a rule.
 */
module InvariantCheck {
  import opened Wrappers
  import Lots
  import LotInvariant
  import OrderLog
  import Runs

  type Id = Lots.Id
  type Time = Lots.Time

  const SWEEP_GRACE_MS := 15 * 60 * 1000

  datatype ListingRow = ListingRow(
    id: Id, passportId: Id, status: Lots.ListingStatus, quantity: int, available: int, minOrderQuantity: int,
    expiresAt: Option<Time>)

  datatype OrderRow = OrderRow(
    id: Id, listingId: Id, status: Lots.OrderStatus, quantity: int, amountPence: int,
    disputeDeadline: Option<Time>, legacyWholeLot: bool, responseDeadline: Option<Time>, createdAt: Option<Time>)

  datatype PassportRow = PassportRow(
    id: Id, productName: string, status: Lots.PassportStatus,
    storedHash: Option<string>, computedHash: string, catalogueKey: Option<string>)

  datatype Data = Data(listings: seq<ListingRow>, orders: seq<OrderRow>, passports: seq<PassportRow>)

  datatype Severity = Error | Warning

  datatype Rule =
    | StockRange | StockSum | MinimumOrder | StatusStock | OverdueListing | StrandedOrder | PassportStatus
    | OneLiveListing | OrphanOrder | OrderQuantity | OverdueOrder | OrderAmount | DisputeWindow
    | OneOfEach | StaleFingerprint

  /** The row a violation is about; a passport goes by its name, or its id when it has no row. */
  datatype Subject =
    | ListingOf(listing: Id) | OrderOf(order: Id) | PassportNamed(name: string) | PassportOf(passport: Id)
    | Product(key: string)

  datatype Violation = Violation(severity: Severity, rule: Rule, subject: Subject)

  // ---------------------------------------------------------------------------
  // The rules, over all rows
  // ---------------------------------------------------------------------------

  /** More than a quarter of an hour past a limit. */
  predicate Missed(limit: Option<Time>, now: Time) { limit.Some? && limit.value + 900_000 < now }

  /** Units of a listing that orders hold or have bought. */
  function TakenBy(orders: seq<OrderRow>, l: Id): int {
    if orders == [] then 0
    else
      var o := orders[|orders| - 1];
      TakenBy(orders[..|orders| - 1], l) + (if o.listingId == l && o.status != Lots.OrderStatus.Cancelled then o.quantity else 0)
  }

  ghost predicate HasOpen(orders: seq<OrderRow>, l: Id) {
    exists o :: o in orders && o.listingId == l && o.status in {Lots.Pending, Lots.Confirmed, Lots.Disputed}
  }

  ghost predicate AnyOpen(orders: seq<OrderRow>) {
    exists o :: o in orders && o.status in {Lots.Pending, Lots.Confirmed, Lots.Disputed}
  }

  /** The row a map from ids keeps: the last one with that id. */
  function PassportRowOf(passports: seq<PassportRow>, p: Id): Option<PassportRow> {
    if passports == [] then None
    else if passports[|passports| - 1].id == p then Some(passports[|passports| - 1])
    else PassportRowOf(passports[..|passports| - 1], p)
  }

  /** The passport says something else than its live listing implies; after the sale it may move on. */
  predicate WrongPassport(listing: Lots.ListingStatus, passport: Lots.PassportStatus) {
    || (listing == Lots.Active && passport != Lots.Listed)
    || (listing == Lots.ListingStatus.Reserved && passport != Lots.PassportStatus.Reserved)
    || (listing == Lots.ListingStatus.Sold
        && passport !in {Lots.PassportStatus.Sold, Lots.Installed, Lots.Decommissioned})
  }

  predicate OnMarket(status: Lots.ListingStatus) {
    status in {Lots.Active, Lots.ListingStatus.Reserved, Lots.ListingStatus.Sold}
  }

  ghost predicate StatusStockOk(d: Data, l: ListingRow) {
    match l.status
    case Active => l.available != 0
    case Reserved => l.available == 0 && HasOpen(d.orders, l.id)
    case Sold => l.available == 0 && !HasOpen(d.orders, l.id)
    case _ => true
  }

  /** `v` is a fault of this listing's row. */
  ghost predicate ListingFault(d: Data, now: Time, l: ListingRow, v: Violation) {
    && v.subject == ListingOf(l.id)
    && (v.severity.Warning? <==> v.rule.OverdueListing?)
    && match v.rule
       case StockRange => !(0 <= l.available <= l.quantity)
       case StockSum => l.available != l.quantity - TakenBy(d.orders, l.id)
       case MinimumOrder => !(1 <= l.minOrderQuantity <= l.quantity)
       case StatusStock => !StatusStockOk(d, l)
       case OverdueListing => l.status.Active? && !HasOpen(d.orders, l.id) && Missed(l.expiresAt, now)
       case StrandedOrder =>
         l.status in {Lots.Expired, Lots.ListingStatus.Cancelled} && HasOpen(d.orders, l.id)
       case PassportStatus =>
         var p := PassportRowOf(d.passports, l.passportId);
         p.Some? && WrongPassport(l.status, p.value.status)
       case _ => false
  }

  ghost predicate LiveTwice(d: Data, p: Id) {
    exists i, j :: 0 <= i < j < |d.listings|
                   && OnMarket(d.listings[i].status) && d.listings[i].passportId == p
                   && OnMarket(d.listings[j].status) && d.listings[j].passportId == p
  }

  function NameOf(d: Data, p: Id): Subject {
    match PassportRowOf(d.passports, p)
    case Some(row) => PassportNamed(row.productName)
    case None => PassportOf(p)
  }

  ghost predicate LiveFault(d: Data, p: Id, v: Violation) {
    LiveTwice(d, p) && v == Violation(Error, OneLiveListing, NameOf(d, p))
  }

  /** Unanswered for 72 hours, by its own date or, without one, since it was placed. */
  predicate Unanswered(o: OrderRow, now: Time) {
    || Missed(o.responseDeadline, now)
    || (o.responseDeadline.None? && o.createdAt.Some? && o.createdAt.value + 259_200_000 + 900_000 < now)
  }

  predicate Accepted(status: Lots.OrderStatus) {
    status in {Lots.Confirmed, Lots.Disputed, Lots.Resolved, Lots.Completed}
  }

  ghost predicate HasListing(d: Data, l: Id) { exists i :: 0 <= i < |d.listings| && d.listings[i].id == l }

  /** `v` is a fault of this order's row. */
  ghost predicate OrderFault(d: Data, now: Time, o: OrderRow, v: Violation) {
    && v.subject == OrderOf(o.id)
    && (v.severity.Warning? <==> v.rule.OverdueOrder?)
    && match v.rule
       case OrphanOrder => !HasListing(d, o.listingId)
       case OrderQuantity => o.quantity < 1
       case OverdueOrder =>
         || (o.status.Pending? && Unanswered(o, now))
         || (o.status.Confirmed? && Missed(o.disputeDeadline, now))
       case OrderAmount =>
         || o.amountPence < 1
         || (!o.legacyWholeLot && o.quantity > 0 && o.amountPence % o.quantity != 0)
       case DisputeWindow =>
         || (Accepted(o.status) && o.disputeDeadline.None?)
         || (!o.legacyWholeLot && o.status.Pending? && o.disputeDeadline.Some?)
       case _ => false
  }

  ghost predicate CuratedTwice(d: Data, key: string) {
    exists i, j :: 0 <= i < j < |d.passports| && key != ""
                   && d.passports[i].catalogueKey == Some(key) && d.passports[j].catalogueKey == Some(key)
  }

  ghost predicate StaleHash(p: PassportRow) {
    p.storedHash.Some? && p.storedHash.value != "" && p.storedHash.value != p.computedHash
  }

  /** `v` is a violation of some rule in this data. */
  ghost predicate IsViolation(d: Data, now: Time, v: Violation) {
    || (exists i :: 0 <= i < |d.listings| && ListingFault(d, now, d.listings[i], v))
    || (exists p :: LiveFault(d, p, v))
    || (exists i :: 0 <= i < |d.orders| && OrderFault(d, now, d.orders[i], v))
    || (v.severity.Warning? && v.rule.OneOfEach? && v.subject.Product? && CuratedTwice(d, v.subject.key))
    || (exists i :: 0 <= i < |d.passports| && StaleHash(d.passports[i])
                    && v == Violation(Error, StaleFingerprint, PassportNamed(d.passports[i].productName)))
  }

  // ---------------------------------------------------------------------------
  // What the checker asks of a row
  // ---------------------------------------------------------------------------

  predicate Late(limit: Option<Time>, now: Time) { limit.Some? && now - limit.value > SWEEP_GRACE_MS }

  /** The passport statuses each live listing status allows. */
  predicate PassportMay(listing: Lots.ListingStatus, passport: Lots.PassportStatus) {
    match listing
    case Active => passport.Listed?
    case Reserved => passport.Reserved?
    case Sold => passport.Sold? || passport.Installed? || passport.Decommissioned?
    case _ => true
  }

  function ResponseDeadline(o: OrderRow): Option<Time> {
    if o.responseDeadline.Some? then o.responseDeadline
    else if o.createdAt.Some? then Some(o.createdAt.value + Lots.RESPONSE_WINDOW_MS)
    else None
  }

  predicate NeedsWindow(status: Lots.OrderStatus) { status.Confirmed? || status.Disputed? || Lots.IsSale(status) }

  /** A present, non-empty text. */
  predicate Given(t: Option<string>) { t.Some? && t.value != "" }

  // ---------------------------------------------------------------------------
  // Maps the checker fills
  // ---------------------------------------------------------------------------

  function OrdersOf(orders: seq<OrderRow>, l: Id): seq<OrderRow> {
    if orders == [] then []
    else
      var o := orders[|orders| - 1];
      OrdersOf(orders[..|orders| - 1], l) + (if o.listingId == l then [o] else [])
  }

  function LiveOf(listings: seq<ListingRow>, p: Id): seq<ListingRow> {
    if listings == [] then []
    else
      var l := listings[|listings| - 1];
      LiveOf(listings[..|listings| - 1], p) + (if Lots.IsLive(l.status) && l.passportId == p then [l] else [])
  }

  function CuratedOf(passports: seq<PassportRow>, key: string): seq<PassportRow> {
    if passports == [] then []
    else
      var p := passports[|passports| - 1];
      CuratedOf(passports[..|passports| - 1], key) + (if Given(p.catalogueKey) && p.catalogueKey.value == key then [p] else [])
  }

  function Lookup<K, V>(m: map<K, seq<V>>, k: K): seq<V> { if k in m then m[k] else [] }

  /** The filter and reduce of one listing's orders. */
  method OpenAndTaken(orders: seq<OrderRow>) returns (open: nat, taken: int)
    ensures taken == TakenAmong(orders)
    ensures open > 0 <==> AnyOpen(orders)
  {
    open, taken := 0, 0;
    for i := 0 to |orders|
      invariant taken == TakenAmong(orders[..i])
      invariant open > 0 <==> AnyOpen(orders[..i])
    {
      assert orders[..i + 1][..i] == orders[..i] && orders[..i + 1] == orders[..i] + [orders[i]];
      if Lots.IsOpen(orders[i].status) {
        open := open + 1;
      }
      if Lots.Takes(orders[i].status) {
        taken := taken + orders[i].quantity;
      }
    }
    assert orders[..|orders|] == orders;
  }

  function TakenAmong(orders: seq<OrderRow>): int {
    if orders == [] then 0
    else
      var o := orders[|orders| - 1];
      TakenAmong(orders[..|orders| - 1]) + (if Lots.Takes(o.status) then o.quantity else 0)
  }

  /** A listing's bucket says what the whole table says about it. */
  lemma {:induction false} BucketTakes(orders: seq<OrderRow>, l: Id)
    ensures TakenAmong(OrdersOf(orders, l)) == TakenBy(orders, l)
  {
    if orders != [] {
      var n := |orders| - 1;
      BucketTakes(orders[..n], l);
      var bucket := OrdersOf(orders[..n], l);
      if orders[n].listingId == l {
        assert OrdersOf(orders, l)[..|bucket|] == bucket;
      } else {
        assert OrdersOf(orders, l) == bucket;
      }
    }
  }

  lemma {:induction false} BucketMembers(orders: seq<OrderRow>, l: Id)
    ensures forall o :: o in OrdersOf(orders, l) <==> o in orders && o.listingId == l
  {
    if orders != [] {
      var n := |orders| - 1;
      BucketMembers(orders[..n], l);
      assert orders == orders[..n] + [orders[n]];
    }
  }

  lemma {:induction false} TwoInBucket(d: Data, p: Id)
    ensures |LiveOf(d.listings, p)| > 1 <==> LiveTwice(d, p)
    ensures |LiveOf(d.listings, p)| > 0
       <==> exists i :: 0 <= i < |d.listings| && OnMarket(d.listings[i].status) && d.listings[i].passportId == p
    decreases |d.listings|
  {
    if d.listings != [] {
      var n := |d.listings| - 1;
      var rest := d.(listings := d.listings[..n]);
      TwoInBucket(rest, p);
      assert forall i :: 0 <= i < n ==> rest.listings[i] == d.listings[i];
    }
  }

  lemma {:induction false} TwoCurated(d: Data, key: string)
    ensures |CuratedOf(d.passports, key)| > 1 <==> CuratedTwice(d, key)
    ensures |CuratedOf(d.passports, key)| > 0
       <==> exists i :: 0 <= i < |d.passports| && key != "" && d.passports[i].catalogueKey == Some(key)
    decreases |d.passports|
  {
    if d.passports != [] {
      var n := |d.passports| - 1;
      var rest := d.(passports := d.passports[..n]);
      TwoCurated(rest, key);
      assert forall i :: 0 <= i < n ==> rest.passports[i] == d.passports[i];
    }
  }

  // ---------------------------------------------------------------------------
  // The checker
  // ---------------------------------------------------------------------------

  method FillOrders(orders: seq<OrderRow>) returns (m: map<Id, seq<OrderRow>>)
    ensures forall l: Id :: Lookup(m, l) == OrdersOf(orders, l)
  {
    m := map[];
    for i := 0 to |orders|
      invariant forall l: Id :: Lookup(m, l) == OrdersOf(orders[..i], l)
    {
      var o := orders[i];
      assert orders[..i + 1][..i] == orders[..i];
      m := m[o.listingId := Lookup(m, o.listingId) + [o]];
    }
    assert orders[..|orders|] == orders;
  }

  method FillPassports(passports: seq<PassportRow>) returns (m: map<Id, PassportRow>)
    ensures forall p: Id :: PassportRowOf(passports, p) == if p in m then Some(m[p]) else None
  {
    m := map[];
    for i := 0 to |passports|
      invariant forall p: Id :: PassportRowOf(passports[..i], p) == if p in m then Some(m[p]) else None
    {
      assert passports[..i + 1][..i] == passports[..i];
      m := m[passports[i].id := passports[i]];
    }
    assert passports[..|passports|] == passports;
  }

  method FillListings(d: Data) returns (m: map<Id, ListingRow>)
    ensures forall l: Id :: l in m <==> HasListing(d, l)
  {
    m := map[];
    for i := 0 to |d.listings|
      invariant forall l: Id :: l in m <==> exists j :: 0 <= j < i && d.listings[j].id == l
    {
      m := m[d.listings[i].id := d.listings[i]];
    }
  }

  method CheckStock(d: Data, now: Time, l: ListingRow, taken: int) returns (found: seq<Violation>)
    requires taken == TakenBy(d.orders, l.id)
    ensures forall v :: v in found <==>
              ListingFault(d, now, l, v) && (v.rule.StockRange? || v.rule.StockSum? || v.rule.MinimumOrder?)
  {
    var subject := ListingOf(l.id);
    found := [];
    if l.available < 0 || l.available > l.quantity {
      found := found + [Violation(Error, StockRange, subject)];
    }
    if l.available != l.quantity - taken {
      found := found + [Violation(Error, StockSum, subject)];
    }
    if l.minOrderQuantity < 1 || l.minOrderQuantity > l.quantity {
      found := found + [Violation(Error, MinimumOrder, subject)];
    }
  }

  method CheckStatus(d: Data, now: Time, l: ListingRow, open: nat) returns (found: seq<Violation>)
    requires open > 0 <==> HasOpen(d.orders, l.id)
    ensures forall v :: v in found <==> ListingFault(d, now, l, v) && v.rule.StatusStock?
  {
    var subject := ListingOf(l.id);
    found := [];
    if l.status.Active? && l.available == 0 {
      found := found + [Violation(Error, StatusStock, subject)];
    }
    if l.status.Reserved? && (l.available != 0 || open == 0) {
      found := found + [Violation(Error, StatusStock, subject)];
    }
    if l.status.Sold? && (l.available != 0 || open > 0) {
      found := found + [Violation(Error, StatusStock, subject)];
    }
  }

  method CheckDateAndPassport(d: Data, now: Time, l: ListingRow, open: nat, passport: Option<PassportRow>)
    returns (found: seq<Violation>)
    requires open > 0 <==> HasOpen(d.orders, l.id)
    requires passport == PassportRowOf(d.passports, l.passportId)
    ensures forall v :: v in found <==>
              ListingFault(d, now, l, v)
              && (v.rule.OverdueListing? || v.rule.StrandedOrder? || v.rule.PassportStatus?)
  {
    var subject := ListingOf(l.id);
    found := [];
    if l.status.Active? && open == 0 && Late(l.expiresAt, now) {
      found := found + [Violation(Warning, OverdueListing, subject)];
    }
    if (l.status.Cancelled? || l.status.Expired?) && open > 0 {
      found := found + [Violation(Error, StrandedOrder, subject)];
    }
    if Lots.IsLive(l.status) && passport.Some? && !PassportMay(l.status, passport.value.status) {
      found := found + [Violation(Error, PassportStatus, subject)];
    }
  }

  /** The body of the listing loop. */
  method CheckListing(d: Data, now: Time, l: ListingRow, orders: seq<OrderRow>, passport: Option<PassportRow>)
    returns (found: seq<Violation>)
    requires orders == OrdersOf(d.orders, l.id) && passport == PassportRowOf(d.passports, l.passportId)
    ensures forall v :: v in found <==> ListingFault(d, now, l, v)
  {
    var open, taken := OpenAndTaken(orders);
    BucketTakes(d.orders, l.id);
    BucketMembers(d.orders, l.id);
    assert AnyOpen(orders) <==> HasOpen(d.orders, l.id);
    var stock := CheckStock(d, now, l, taken);
    var status := CheckStatus(d, now, l, open);
    var rest := CheckDateAndPassport(d, now, l, open, passport);
    found := stock + status + rest;
  }

  /** The body of the order loop. */
  method CheckOrder(d: Data, now: Time, o: OrderRow, hasListing: bool) returns (found: seq<Violation>)
    requires hasListing == HasListing(d, o.listingId)
    ensures forall v :: v in found <==> OrderFault(d, now, o, v)
  {
    var subject := OrderOf(o.id);
    found := [];
    if !hasListing {
      found := found + [Violation(Error, OrphanOrder, subject)];
    }
    if o.quantity < 1 {
      found := found + [Violation(Error, OrderQuantity, subject)];
    }
    if o.status.Pending? && Late(ResponseDeadline(o), now) {
      found := found + [Violation(Warning, OverdueOrder, subject)];
    }
    if o.status.Confirmed? && Late(o.disputeDeadline, now) {
      found := found + [Violation(Warning, OverdueOrder, subject)];
    }
    if o.amountPence < 1 {
      found := found + [Violation(Error, OrderAmount, subject)];
    }
    if NeedsWindow(o.status) && o.disputeDeadline.None? {
      found := found + [Violation(Error, DisputeWindow, subject)];
    }
    if !o.legacyWholeLot {
      if o.status.Pending? && o.disputeDeadline.Some? {
        found := found + [Violation(Error, DisputeWindow, subject)];
      }
      if o.quantity > 0 && o.amountPence % o.quantity != 0 {
        found := found + [Violation(Error, OrderAmount, subject)];
      }
    }
  }

  /** The bucket of a live listing's passport grows by it. */
  method AddLive(listings: seq<ListingRow>, i: nat, before: map<Id, seq<ListingRow>>)
    returns (live: map<Id, seq<ListingRow>>)
    requires i < |listings| && forall p: Id :: Lookup(before, p) == LiveOf(listings[..i], p)
    ensures forall p: Id :: Lookup(live, p) == LiveOf(listings[..i + 1], p)
  {
    var l := listings[i];
    live := before;
    if Lots.IsLive(l.status) {
      live := live[l.passportId := Lookup(live, l.passportId) + [l]];
    }
    assert listings[..i + 1][..i] == listings[..i];
  }

  method CheckListings(d: Data, now: Time, ordersByListing: map<Id, seq<OrderRow>>, passportById: map<Id, PassportRow>)
    returns (found: seq<Violation>, live: map<Id, seq<ListingRow>>)
    requires forall l: Id :: Lookup(ordersByListing, l) == OrdersOf(d.orders, l)
    requires forall p: Id :: PassportRowOf(d.passports, p) == if p in passportById then Some(passportById[p]) else None
    ensures forall v :: v in found <==> SomeListingFault(d, now, |d.listings|, v)
    ensures forall p: Id :: Lookup(live, p) == LiveOf(d.listings, p)
  {
    found, live := [], map[];
    for i := 0 to |d.listings|
      invariant forall v :: v in found <==> SomeListingFault(d, now, i, v)
      invariant forall p: Id :: Lookup(live, p) == LiveOf(d.listings[..i], p)
    {
      var l := d.listings[i];
      var passport := if l.passportId in passportById then Some(passportById[l.passportId]) else None;
      var here := CheckListing(d, now, l, Lookup(ordersByListing, l.id), passport);
      ghost var earlier := found;
      found := found + here;
      forall v
        ensures v in found <==> SomeListingFault(d, now, i + 1, v)
      {
        OneMoreListing(d, now, i, v);
        assert v in found <==> v in earlier || v in here;
      }
      live := AddLive(d.listings, i, live);
    }
    assert d.listings[..|d.listings|] == d.listings;
  }

  ghost predicate SomeListingFault(d: Data, now: Time, n: nat, v: Violation)
    requires n <= |d.listings|
  {
    exists i :: 0 <= i < n && ListingFault(d, now, d.listings[i], v)
  }

  lemma OneMoreListing(d: Data, now: Time, n: nat, v: Violation)
    requires n < |d.listings|
    ensures SomeListingFault(d, now, n + 1, v)
       <==> SomeListingFault(d, now, n, v) || ListingFault(d, now, d.listings[n], v)
  {
  }

  method CheckLive(d: Data, live: map<Id, seq<ListingRow>>, passportById: map<Id, PassportRow>)
    returns (found: seq<Violation>)
    requires forall p: Id :: Lookup(live, p) == LiveOf(d.listings, p)
    requires forall p: Id :: PassportRowOf(d.passports, p) == if p in passportById then Some(passportById[p]) else None
    ensures forall v :: v in found <==> exists p :: LiveFault(d, p, v)
  {
    found := [];
    var left := live.Keys;
    while left != {}
      invariant left <= live.Keys
      invariant forall v :: v in found <==> exists p :: p in live.Keys - left && LiveFault(d, p, v)
      decreases left
    {
      var p :| p in left;
      TwoInBucket(d, p);
      ghost var before := found;
      if |live[p]| > 1 {
        var name := if p in passportById then PassportNamed(passportById[p].productName) else PassportOf(p);
        found := found + [Violation(Error, OneLiveListing, name)];
      }
      assert forall v :: v in found <==> v in before || LiveFault(d, p, v);
      left := left - {p};
      assert forall q: Id :: q in live.Keys - left <==> q in live.Keys - (left + {p}) || q == p;
    }
    forall p: Id | p !in live.Keys
      ensures !LiveTwice(d, p)
    {
      TwoInBucket(d, p);
    }
  }

  method CheckOrders(d: Data, now: Time, listingById: map<Id, ListingRow>) returns (found: seq<Violation>)
    requires forall l: Id :: l in listingById <==> HasListing(d, l)
    ensures forall v :: v in found <==> exists i :: 0 <= i < |d.orders| && OrderFault(d, now, d.orders[i], v)
  {
    found := [];
    for i := 0 to |d.orders|
      invariant forall v :: v in found <==> exists j :: 0 <= j < i && OrderFault(d, now, d.orders[j], v)
    {
      var here := CheckOrder(d, now, d.orders[i], d.orders[i].listingId in listingById);
      found := found + here;
    }
  }

  ghost predicate CuratedFault(d: Data, v: Violation) {
    v.severity.Warning? && v.rule.OneOfEach? && v.subject.Product? && CuratedTwice(d, v.subject.key)
  }

  method FillCurated(passports: seq<PassportRow>) returns (curated: map<string, seq<PassportRow>>)
    ensures forall key :: Lookup(curated, key) == CuratedOf(passports, key)
  {
    curated := map[];
    for i := 0 to |passports|
      invariant forall key :: Lookup(curated, key) == CuratedOf(passports[..i], key)
    {
      curated := AddCurated(passports, i, curated);
    }
    assert passports[..|passports|] == passports;
  }

  method AddCurated(passports: seq<PassportRow>, i: nat, before: map<string, seq<PassportRow>>)
    returns (curated: map<string, seq<PassportRow>>)
    requires i < |passports| && forall key :: Lookup(before, key) == CuratedOf(passports[..i], key)
    ensures forall key :: Lookup(curated, key) == CuratedOf(passports[..i + 1], key)
  {
    var p := passports[i];
    curated := before;
    if Given(p.catalogueKey) {
      curated := curated[p.catalogueKey.value := Lookup(curated, p.catalogueKey.value) + [p]];
    }
    assert passports[..i + 1][..i] == passports[..i];
  }

  method CheckCurated(d: Data) returns (found: seq<Violation>)
    ensures forall v :: v in found <==> CuratedFault(d, v)
  {
    var curated := FillCurated(d.passports);
    found := [];
    var left := curated.Keys;
    while left != {}
      invariant left <= curated.Keys
      invariant forall v :: v in found <==> CuratedFault(d, v) && v.subject.key in curated.Keys - left
      decreases left
    {
      var key :| key in left;
      TwoCurated(d, key);
      if |curated[key]| > 1 {
        found := found + [Violation(Warning, OneOfEach, Product(key))];
      }
      left := left - {key};
    }
    forall key | key !in curated.Keys
      ensures !CuratedTwice(d, key)
    {
      TwoCurated(d, key);
    }
  }

  ghost predicate HashFault(p: PassportRow, v: Violation) {
    StaleHash(p) && v == Violation(Error, StaleFingerprint, PassportNamed(p.productName))
  }

  method CheckHashes(d: Data) returns (found: seq<Violation>)
    ensures forall v :: v in found <==> exists i :: 0 <= i < |d.passports| && HashFault(d.passports[i], v)
  {
    found := [];
    for i := 0 to |d.passports|
      invariant forall v :: v in found <==> exists j :: 0 <= j < i && HashFault(d.passports[j], v)
    {
      var p := d.passports[i];
      if Given(p.storedHash) && p.storedHash.value != p.computedHash {
        found := found + [Violation(Error, StaleFingerprint, PassportNamed(p.productName))];
      }
    }
  }

  /** The checker reports a violation exactly when the data breaks that rule for that subject. */
  method CheckInvariants(d: Data, now: Time) returns (violations: seq<Violation>)
    ensures forall v :: v in violations <==> IsViolation(d, now, v)
    ensures (forall v :: v in violations ==> v.severity.Warning?) <==> Clean(d)
  {
    var ordersByListing := FillOrders(d.orders);
    var passportById := FillPassports(d.passports);
    var listingById := FillListings(d);
    var ofListings, live := CheckListings(d, now, ordersByListing, passportById);
    var ofLive := CheckLive(d, live, passportById);
    var ofOrders := CheckOrders(d, now, listingById);
    var ofCurated := CheckCurated(d);
    var ofHashes := CheckHashes(d);
    violations := ofListings + ofLive + ofOrders + ofCurated + ofHashes;
    forall v
      ensures v in violations <==> IsViolation(d, now, v)
    {
      assert v in violations <==> v in ofListings || v in ofLive || v in ofOrders || v in ofCurated || v in ofHashes;
      assert v in ofHashes <==> exists i :: 0 <= i < |d.passports| && HashFault(d.passports[i], v);
    }
    CleanMeansNoErrors(d, now);
  }

  // ---------------------------------------------------------------------------
  // What no error means
  // ---------------------------------------------------------------------------

  ghost predicate ListingClean(d: Data, l: ListingRow) {
    && 0 <= l.available <= l.quantity
    && l.available == l.quantity - TakenBy(d.orders, l.id)
    && 1 <= l.minOrderQuantity <= l.quantity
    && StatusStockOk(d, l)
    && (HasOpen(d.orders, l.id) ==> OnMarket(l.status))
    && (PassportRowOf(d.passports, l.passportId).Some? ==>
          !WrongPassport(l.status, PassportRowOf(d.passports, l.passportId).value.status))
  }

  ghost predicate OrderClean(d: Data, o: OrderRow) {
    && HasListing(d, o.listingId)
    && 1 <= o.quantity && 1 <= o.amountPence
    && (Accepted(o.status) ==> o.disputeDeadline.Some?)
    && (!o.legacyWholeLot ==>
          (o.status.Pending? ==> o.disputeDeadline.None?) && o.amountPence % o.quantity == 0)
  }

  /** The declared invariant of the data: no query, no map, no loop. */
  ghost predicate Clean(d: Data) {
    && (forall i :: 0 <= i < |d.listings| ==> ListingClean(d, d.listings[i]))
    && (forall p :: !LiveTwice(d, p))
    && (forall i :: 0 <= i < |d.orders| ==> OrderClean(d, d.orders[i]))
    && (forall i :: 0 <= i < |d.passports| ==> !StaleHash(d.passports[i]))
  }

  lemma ListingCleanMeans(d: Data, now: Time, l: ListingRow)
    ensures ListingClean(d, l) <==> forall v :: ListingFault(d, now, l, v) ==> v.severity.Warning?
  {
    if !ListingClean(d, l) {
      var rule :=
        if !(0 <= l.available <= l.quantity) then StockRange
        else if l.available != l.quantity - TakenBy(d.orders, l.id) then StockSum
        else if !(1 <= l.minOrderQuantity <= l.quantity) then MinimumOrder
        else if !StatusStockOk(d, l) then StatusStock
        else if HasOpen(d.orders, l.id) && !OnMarket(l.status) then StrandedOrder
        else PassportStatus;
      assert ListingFault(d, now, l, Violation(Error, rule, ListingOf(l.id)));
    }
  }

  lemma OrderCleanMeans(d: Data, now: Time, o: OrderRow)
    ensures OrderClean(d, o) <==> forall v :: OrderFault(d, now, o, v) ==> v.severity.Warning?
  {
    if !OrderClean(d, o) {
      var rule :=
        if !HasListing(d, o.listingId) then OrphanOrder
        else if o.quantity < 1 then OrderQuantity
        else if o.amountPence < 1 || (!o.legacyWholeLot && o.amountPence % o.quantity != 0) then OrderAmount
        else DisputeWindow;
      assert OrderFault(d, now, o, Violation(Error, rule, OrderOf(o.id)));
    }
  }

  /** No violation is an error exactly when the declared invariant holds. */
  lemma CleanMeansNoErrors(d: Data, now: Time)
    ensures Clean(d) <==> forall v :: IsViolation(d, now, v) ==> v.severity.Warning?
  {
    forall i | 0 <= i < |d.listings|
      ensures ListingClean(d, d.listings[i]) <==> forall v :: ListingFault(d, now, d.listings[i], v) ==> v.severity.Warning?
    {
      ListingCleanMeans(d, now, d.listings[i]);
    }
    forall i | 0 <= i < |d.orders|
      ensures OrderClean(d, d.orders[i]) <==> forall v :: OrderFault(d, now, d.orders[i], v) ==> v.severity.Warning?
    {
      OrderCleanMeans(d, now, d.orders[i]);
    }
    if !Clean(d) {
      if p :| LiveTwice(d, p) {
        assert LiveFault(d, p, Violation(Error, OneLiveListing, NameOf(d, p)));
      } else if i :| 0 <= i < |d.passports| && StaleHash(d.passports[i]) {
        assert IsViolation(d, now, Violation(Error, StaleFingerprint, PassportNamed(d.passports[i].productName)));
      }
    }
  }

  // ---------------------------------------------------------------------------
  // The marketplace stays clean
  // ---------------------------------------------------------------------------

  /** The rows the checker reads of a marketplace state; fingerprints and names are not part of that state. */
  ghost predicate Mirrors(d: Data, s: Lots.State) {
    && |d.listings| == |s.listings| && |d.orders| == |s.orders| && |d.passports| == |s.passports|
    && (forall l :: 0 <= l < |s.listings| ==>
          var row := s.listings[l];
          d.listings[l] == ListingRow(l, row.passportId, row.status, row.quantity, row.available,
                                      row.minOrderQuantity, row.expiresAt))
    && (forall o :: 0 <= o < |s.orders| ==>
          var row := s.orders[o];
          d.orders[o] == OrderRow(o, row.listingId, row.status, row.quantity, row.amountPence, row.disputeDeadline,
                                  false, row.responseDeadline, Some(row.createdAt)))
    && (forall p :: 0 <= p < |s.passports| ==> d.passports[p].id == p && d.passports[p].status == s.passports[p].status)
  }

  lemma {:induction false} MirroredSums(rows: seq<OrderRow>, orders: seq<Lots.Order>, l: Id)
    requires |rows| == |orders|
    requires forall o :: 0 <= o < |orders| ==>
               && rows[o].listingId == orders[o].listingId && rows[o].status == orders[o].status
               && rows[o].quantity == orders[o].quantity
    ensures TakenBy(rows, l) == Lots.Taken(orders, l)
    ensures HasOpen(rows, l) <==> Lots.OpenCount(orders, l) > 0
  {
    if rows != [] {
      var n := |rows| - 1;
      MirroredSums(rows[..n], orders[..n], l);
      assert rows == rows[..n] + [rows[n]];
    }
  }

  lemma {:induction false} MirroredPassport(passports: seq<PassportRow>, p: Id)
    requires forall q :: 0 <= q < |passports| ==> passports[q].id == q
    ensures PassportRowOf(passports, p) == if p < |passports| then Some(passports[p]) else None
  {
    if passports != [] {
      MirroredPassport(passports[..|passports| - 1], p);
    }
  }

  /**
   * On every state a run of the marketplace can reach, the checker can report
   * no error but a minimum order an edit outgrew and a stale fingerprint.
   */
  lemma ReachableIsClean(start: Lots.State, rs: seq<Runs.Request>, d: Data, now: Time, v: Violation)
    requires Runs.Start(start) && forall i :: 0 <= i < |rs| ==> Runs.Valid(rs[i])
    requires Mirrors(d, Runs.Run(start, rs)) && IsViolation(d, now, v)
    ensures v.severity.Error? ==> v.rule.MinimumOrder? || v.rule.StaleFingerprint?
  {
    var s := Runs.Run(start, rs);
    Runs.EveryRunKeeps(start, rs);
    if p :| LiveFault(d, p, v) {
      MirroredLive(d, s, p);
    } else if i :| 0 <= i < |d.listings| && ListingFault(d, now, d.listings[i], v) {
      ListingIsClean(d, s, now, i, v);
    } else if i :| 0 <= i < |d.orders| && OrderFault(d, now, d.orders[i], v) {
      OrderIsClean(d, s, now, i, v);
    }
  }

  lemma ListingIsClean(d: Data, s: Lots.State, now: Time, i: nat, v: Violation)
    requires Mirrors(d, s) && LotInvariant.Inv(s) && i < |d.listings| && ListingFault(d, now, d.listings[i], v)
    ensures v.severity.Error? ==> v.rule.MinimumOrder?
  {
    assert LotInvariant.LotOk(s, i);
    MirroredSums(d.orders, s.orders, i);
    MirroredPassport(d.passports, s.listings[i].passportId);
  }

  lemma OrderIsClean(d: Data, s: Lots.State, now: Time, i: nat, v: Violation)
    requires Mirrors(d, s) && LotInvariant.Inv(s) && i < |d.orders| && OrderFault(d, now, d.orders[i], v)
    ensures v.severity.Warning?
  {
    assert LotInvariant.OrderOk(s.orders[i]);
    assert d.listings[s.orders[i].listingId].id == s.orders[i].listingId;
  }

  lemma MirroredLive(d: Data, s: Lots.State, p: Id)
    requires Mirrors(d, s) && LotInvariant.OneLivePerPassport(s)
    ensures !LiveTwice(d, p)
  {
    if LiveTwice(d, p) {
      var i, j :| 0 <= i < j < |d.listings|
                  && OnMarket(d.listings[i].status) && d.listings[i].passportId == p
                  && OnMarket(d.listings[j].status) && d.listings[j].passportId == p;
      assert LotInvariant.LiveOn(s, i, p) && LotInvariant.LiveOn(s, j, p);
      assert false;
    }
  }
}
