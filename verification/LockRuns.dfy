/**
 * Every schedule of any number of transactions on row locks: the committed
 * tables are those of the serial run in the order the transactions finished,
 * and some transaction can always move until all have finished.
 */
module LockRuns {
  import opened Wrappers
  import opened Lots
  import opened LotInvariant
  import opened Offers
  import opened RowLocks
  import opened Schedules
  import opened SweepBatch

  datatype Row = OrderRow(id: Id) | ListingRow(id: Id) | PassportRow(id: Id)

  /** The order rows are locked in. */
  function Level(r: Row): nat {
    match r
    case OrderRow(_) => 0
    case ListingRow(_) => 1
    case PassportRow(_) => 2
  }

  datatype Pc = Begin | HasOrder | HasListing | HasPassport | Counted | Ready | Done(accepted: bool)

  /** A transaction under way: where it is, what it has read, and the rows it has locked. */
  datatype Proc = Proc(
    pc: Pc, order: Option<Order>, listing: Option<Listing>, passport: PassportStatus, curated: bool, open: nat,
    locks: set<Row>)

  const FRESH := Proc(Begin, None, None, Free, false, 0, {})

  /** `finished` lists the processes in the order they finished. */
  datatype Sys = Sys(db: State, procs: seq<Proc>, finished: seq<nat>)

  predicate Reading(pc: Pc) { pc.HasListing? || pc.HasPassport? || pc.Counted? || pc.Ready? }

  function LocalPlan(tx: Tx, p: Proc): Plan
    requires p.listing.Some?
  {
    PlanOf(tx, p.order, p.listing.value, p.passport, p.curated)
  }

  /** The row a process locks next, if its next step locks one. */
  function Wants(db: State, tx: Tx, p: Proc): Option<Row> {
    match p.pc
    case Begin =>
      if OrderOf(tx).Some? then
        if OrderOf(tx).value < |db.orders| then Some(OrderRow(OrderOf(tx).value)) else None
      else if ListingOf(tx, None) < |db.listings| then Some(ListingRow(ListingOf(tx, None)))
      else None
    case HasOrder =>
      if p.order.None? || (tx.CloseTx? && TimedStep(p.order.value, tx.now).None?) then None
      else Some(ListingRow(p.order.value.listingId))
    case HasListing =>
      if p.listing.Some? && ReadsPassport(tx, p.listing.value) then Some(PassportRow(p.listing.value.passportId))
      else None
    case Counted =>
      if p.listing.Some? && PassportAfter(LocalPlan(tx, p), p.listing.value, p.open).Some?
         && PassportRow(p.listing.value.passportId) !in p.locks
      then Some(PassportRow(p.listing.value.passportId)) else None
    case _ => None
  }

  predicate HeldByOther(s: Sys, r: Row, i: nat) {
    exists j :: 0 <= j < |s.procs| && j != i && r in s.procs[j].locks
  }

  /** A process moves unless it has finished or waits for a row another holds. */
  predicate CanStep(txs: seq<Tx>, s: Sys, i: nat) {
    && i < |s.procs| == |txs| && !s.procs[i].pc.Done?
    && (Wants(s.db, txs[i], s.procs[i]).Some? ==> !HeldByOther(s, Wants(s.db, txs[i], s.procs[i]).value, i))
  }

  function Put(s: Sys, i: nat, p: Proc): Sys
    requires i < |s.procs|
  {
    s.(procs := s.procs[i := p])
  }

  /** Finishing releases every lock. */
  function Finish(s: Sys, i: nat, db: State, accepted: bool): Sys
    requires i < |s.procs|
  {
    Sys(db, s.procs[i := s.procs[i].(pc := Done(accepted), locks := {})], s.finished + [i])
  }

  function ReadListing(s: Sys, i: nat, l: Id): Sys
    requires i < |s.procs| && l < |s.db.listings|
  {
    var p := s.procs[i];
    var row := s.db.listings[l];
    Put(s, i, p.(pc := HasListing, listing := Some(row), curated := s.db.passports[row.passportId].curated,
                 locks := p.locks + {ListingRow(l)}))
  }

  /** The plan is made; unless there is nothing to write, the open orders are counted. */
  function Count(s: Sys, i: nat, tx: Tx): Sys
    requires i < |s.procs| && s.procs[i].listing.Some?
  {
    var p := s.procs[i];
    var plan := LocalPlan(tx, p);
    if plan.Refuse? then Finish(s, i, s.db, false)
    else if plan.Nothing? then Finish(s, i, s.db, true)
    else
      Put(s, i, p.(pc := Counted, open := OpenCount(Overlay(s.db.orders, WriteOf(plan)), ListingOf(tx, p.order))))
  }

  function Commit(s: Sys, i: nat, tx: Tx): Sys
    requires i < |s.procs| && s.procs[i].listing.Some?
  {
    var p := s.procs[i];
    var l, plan := ListingOf(tx, p.order), LocalPlan(tx, p);
    if l < |s.db.listings| && FitsListing(plan, s.db, l) then Finish(s, i, Apply(s.db, l, plan, p.open), true) else s
  }

  /** One step of process `i`. */
  function Step(txs: seq<Tx>, s: Sys, i: nat): Sys
    requires CanStep(txs, s, i)
  {
    var tx, p := txs[i], s.procs[i];
    var want := Wants(s.db, tx, p);
    match p.pc
    case Begin =>
      (match want
       case None => Finish(s, i, s.db, tx.CloseTx? || tx.ExpireTx?)
       case Some(OrderRow(o)) =>
         Put(s, i, p.(pc := HasOrder, order := Some(s.db.orders[o]), locks := {OrderRow(o)}))
       case Some(ListingRow(l)) => ReadListing(s, i, l)
       case Some(PassportRow(_)) => s)
    case HasOrder =>
      if want.None? then Finish(s, i, s.db, true)
      else if want.value.id < |s.db.listings| then ReadListing(s, i, want.value.id)
      else s
    case HasListing =>
      if p.listing.None? then s
      else if want.Some? then
        if want.value.id < |s.db.passports| then
          Put(s, i, p.(pc := HasPassport, passport := s.db.passports[want.value.id].status,
                       locks := p.locks + {want.value}))
        else s
      else Count(s, i, tx)
    case HasPassport => if p.listing.None? then s else Count(s, i, tx)
    case Counted =>
      if p.listing.None? then s
      else if want.Some? then Put(s, i, p.(pc := Ready, locks := p.locks + {want.value}))
      else Commit(s, i, tx)
    case Ready => if p.listing.None? then s else Commit(s, i, tx)
    case Done(_) => s
  }

  /** A process picked when it cannot move lets its turn pass. */
  function Turn(txs: seq<Tx>, s: Sys, i: nat): Sys { if CanStep(txs, s, i) then Step(txs, s, i) else s }

  /** Any schedule. */
  function Run(txs: seq<Tx>, s: Sys, schedule: seq<nat>): Sys { Fold(Turns(txs), s, schedule) }

  function Turns(txs: seq<Tx>): (Sys, nat) -> Sys { (s: Sys, i: nat) => Turn(txs, s, i) }

  function Launch(db: State, txs: seq<Tx>): Sys { Sys(db, seq(|txs|, _ => FRESH), []) }

  /** The tables after the given transactions ran one after another. */
  function SerialRun(db: State, txs: seq<Tx>, sequence: seq<nat>): State {
    if sequence == [] then db
    else
      var n := |sequence| - 1;
      var before := SerialRun(db, txs, sequence[..n]);
      if sequence[n] < |txs| then SerialCommit(before, txs[sequence[n]]) else before
  }

  // ---------------------------------------------------------------------------
  // The invariant
  // ---------------------------------------------------------------------------

  ghost predicate OrderRead(db: State, tx: Tx, p: Proc) {
    && (OrderOf(tx).Some? <==> p.order.Some?)
    && (p.order.Some? ==> OrderOf(tx).value < |db.orders| && p.order.value == db.orders[OrderOf(tx).value])
  }

  function OrderLocks(tx: Tx): set<Row> { if OrderOf(tx).Some? then {OrderRow(OrderOf(tx).value)} else {} }

  ghost predicate ListingRead(db: State, tx: Tx, p: Proc) {
    var l := ListingOf(tx, p.order);
    && OrderRead(db, tx, p)
    && l < |db.listings| && p.listing == Some(db.listings[l])
    && p.curated == db.passports[db.listings[l].passportId].curated
  }

  ghost predicate PassportRead(db: State, tx: Tx, p: Proc) {
    && p.listing.Some?
    && (ReadsPassport(tx, p.listing.value) ==>
          && p.listing.value.passportId < |db.passports|
          && p.passport == db.passports[p.listing.value.passportId].status
          && PassportRow(p.listing.value.passportId) in p.locks)
  }

  /** The count a process has read is still the count of what is committed and its own order write. */
  ghost predicate CountRead(db: State, l: Id, plan: Plan, open: nat)
    requires l < |db.listings|
  {
    && !plan.Refuse? && !plan.Nothing? && FitsListing(plan, db, l)
    && open == OpenCount(Overlay(db.orders, WriteOf(plan)), l)
  }

  /** What a process has read is still what is committed, because it holds the locks. */
  ghost predicate ProcOk(db: State, tx: Tx, p: Proc) {
    match p.pc
    case Begin => p == FRESH
    case HasOrder => OrderOf(tx).Some? && OrderRead(db, tx, p) && p.locks == OrderLocks(tx)
    case Done(_) => p.locks == {}
    case _ =>
      var l := ListingOf(tx, p.order);
      && ListingRead(db, tx, p)
      && OrderLocks(tx) + {ListingRow(l)} <= p.locks
                       <= OrderLocks(tx) + {ListingRow(l), PassportRow(p.listing.value.passportId)}
      && (p.pc.HasListing? ==> p.locks == OrderLocks(tx) + {ListingRow(l)})
      && (!p.pc.HasListing? ==> PassportRead(db, tx, p))
      && (p.pc.HasPassport? || p.pc.Ready? ==> PassportRow(p.listing.value.passportId) in p.locks)
      && (p.pc.Counted? || p.pc.Ready? ==> CountRead(db, l, LocalPlan(tx, p), p.open))
  }

  ghost predicate Mutex(s: Sys) {
    forall i, j :: 0 <= i < j < |s.procs| ==> s.procs[i].locks !! s.procs[j].locks
  }

  ghost predicate Finished(txs: seq<Tx>, s: Sys) {
    && (forall i: nat :: i in s.finished <==> i < |s.procs| && s.procs[i].pc.Done?)
    && (forall j, k :: 0 <= j < k < |s.finished| ==> s.finished[j] != s.finished[k])
  }

  /** The `k`th to finish gave the answer the serial run gives it. */
  ghost predicate AnsweredSerially(db: State, txs: seq<Tx>, s: Sys, k: nat)
    requires |s.procs| == |txs|
  {
    k < |s.finished| && s.finished[k] < |txs| ==>
      s.procs[s.finished[k]].pc == Done(Serial(SerialRun(db, txs, s.finished[..k]), txs[s.finished[k]]).Ok?)
  }

  /** The tables are the serial run's so far, and every answer given is the serial run's answer. */
  ghost predicate Serialised(db: State, txs: seq<Tx>, s: Sys)
    requires |s.procs| == |txs|
  {
    s.db == SerialRun(db, txs, s.finished) && forall k: nat :: AnsweredSerially(db, txs, s, k)
  }

  ghost predicate SysInv(db: State, txs: seq<Tx>, s: Sys) {
    && |s.procs| == |txs|
    && (forall i :: 0 <= i < |txs| ==> ProcOk(s.db, txs[i], s.procs[i]))
    && Mutex(s) && Finished(txs, s) && Serialised(db, txs, s)
  }

  // ---------------------------------------------------------------------------
  // A step that commits nothing
  // ---------------------------------------------------------------------------

  lemma TakingFreeRows(s: Sys, i: nat, p: Proc)
    requires Mutex(s) && i < |s.procs|
    requires forall r :: r in p.locks && r !in s.procs[i].locks ==> !HeldByOther(s, r, i)
    ensures Mutex(Put(s, i, p))
  {
    forall j | 0 <= j < |s.procs| && j != i
      ensures s.procs[j].locks !! p.locks
    {
      assert s.procs[j].locks !! s.procs[i].locks;
      forall r | r in p.locks
        ensures r !in s.procs[j].locks
      {
        if r !in s.procs[i].locks {
          assert !HeldByOther(s, r, i);
        }
      }
    }
  }

  /** No answer is touched by a process that has none yet. */
  lemma PutSerialised(db: State, txs: seq<Tx>, s: Sys, i: nat, p: Proc)
    requires |s.procs| == |txs| && Finished(txs, s) && Serialised(db, txs, s) && i < |txs| && !s.procs[i].pc.Done?
    ensures Serialised(db, txs, Put(s, i, p))
  {
    forall k: nat
      ensures AnsweredSerially(db, txs, Put(s, i, p), k)
    {
      assert AnsweredSerially(db, txs, s, k);
      assert k < |s.finished| ==> s.finished[k] in s.finished;
    }
  }

  /** Reading and locking keep the invariant. */
  lemma PutKeeps(db: State, txs: seq<Tx>, s: Sys, i: nat, p: Proc)
    requires SysInv(db, txs, s) && i < |txs| && !s.procs[i].pc.Done? && !p.pc.Done?
    requires ProcOk(s.db, txs[i], p)
    requires forall r :: r in p.locks && r !in s.procs[i].locks ==> !HeldByOther(s, r, i)
    ensures SysInv(db, txs, Put(s, i, p))
  {
    var t := Put(s, i, p);
    TakingFreeRows(s, i, p);
    PutSerialised(db, txs, s, i, p);
    forall j | 0 <= j < |txs|
      ensures ProcOk(t.db, txs[j], t.procs[j])
    {
      assert j != i ==> t.procs[j] == s.procs[j];
    }
  }

  lemma OneMoreSerial(db: State, txs: seq<Tx>, s: Sys, i: nat, after: State, accepted: bool)
    requires |s.procs| == |txs| && Serialised(db, txs, s) && Finished(txs, s)
    requires i < |txs| && !s.procs[i].pc.Done?
    requires after == SerialCommit(s.db, txs[i]) && accepted == Serial(s.db, txs[i]).Ok?
    ensures Serialised(db, txs, Finish(s, i, after, accepted)) && Finished(txs, Finish(s, i, after, accepted))
  {
    var t := Finish(s, i, after, accepted);
    OneMoreFinished(txs, s, i, after, accepted);
    assert t.finished[..|s.finished|] == s.finished && t.finished[|s.finished|] == i;
    assert SerialRun(db, txs, t.finished) == SerialCommit(SerialRun(db, txs, s.finished), txs[i]);
    forall k: nat
      ensures AnsweredSerially(db, txs, t, k)
    {
      if k < |s.finished| {
        assert AnsweredSerially(db, txs, s, k);
        assert t.finished[..k] == s.finished[..k] && s.finished[k] in s.finished;
        assert t.procs[s.finished[k]] == s.procs[s.finished[k]];
      }
    }
  }

  lemma OneMoreFinished(txs: seq<Tx>, s: Sys, i: nat, after: State, accepted: bool)
    requires Finished(txs, s) && i < |s.procs| && !s.procs[i].pc.Done?
    ensures Finished(txs, Finish(s, i, after, accepted))
  {
    var t := Finish(s, i, after, accepted);
    assert forall j: nat :: j in t.finished <==> j in s.finished || j == i;
  }

  /** Finishing keeps it when the others' reads still stand and the answer is the serial one. */
  lemma FinishKeeps(db: State, txs: seq<Tx>, s: Sys, i: nat, after: State, accepted: bool)
    requires SysInv(db, txs, s) && i < |txs| && !s.procs[i].pc.Done?
    requires after == SerialCommit(s.db, txs[i]) && accepted == Serial(s.db, txs[i]).Ok?
    requires forall j :: 0 <= j < |txs| && j != i ==> ProcOk(after, txs[j], s.procs[j])
    ensures SysInv(db, txs, Finish(s, i, after, accepted))
  {
    OneMoreSerial(db, txs, s, i, after, accepted);
    LettingGo(s, i, after, accepted);
    var t := Finish(s, i, after, accepted);
    forall j | 0 <= j < |txs|
      ensures ProcOk(t.db, txs[j], t.procs[j])
    {
      if j == i {
        assert t.procs[j].pc.Done? && t.procs[j].locks == {};
      } else {
        assert t.procs[j] == s.procs[j];
      }
    }
  }

  lemma LettingGo(s: Sys, i: nat, after: State, accepted: bool)
    requires Mutex(s) && i < |s.procs|
    ensures Mutex(Finish(s, i, after, accepted))
  {
    var t := Finish(s, i, after, accepted);
    forall j, k | 0 <= j < k < |t.procs|
      ensures t.procs[j].locks !! t.procs[k].locks
    {
      assert s.procs[j].locks !! s.procs[k].locks;
    }
  }

  // ---------------------------------------------------------------------------
  // A commit, and the other processes' reads
  // ---------------------------------------------------------------------------

  /** A process's own order write shifts its count by a fixed amount. */
  lemma OverlayCount(orders: seq<Order>, others: seq<Order>, w: OrderWrite, l: Id)
    requires OpenCount(orders, l) == OpenCount(others, l)
    requires w.Replace? ==> w.id < |orders| && w.id < |others| && orders[w.id] == others[w.id]
    ensures OpenCount(Overlay(orders, w), l) == OpenCount(Overlay(others, w), l)
  {
    match w
    case NoWrite =>
    case Insert(o) =>
      SumAppend(orders, o, l, OpenOrders);
      SumAppend(others, o, l, OpenOrders);
    case Replace(id, o) =>
      SumUpdate(orders, id, o, l, OpenOrders);
      SumUpdate(others, id, o, l, OpenOrders);
  }

  /** An order write counts only on its own listing. */
  lemma CountElsewhere(s: State, w: OrderWrite, l: Id, k: Id)
    requires k != l
    requires w.Insert? ==> w.order.listingId == l
    requires w.Replace? ==> w.id < |s.orders| && s.orders[w.id].listingId == l && w.order.listingId == l
    ensures OpenCount(Overlay(s.orders, w), k) == OpenCount(s.orders, k)
  {
    match w
    case NoWrite =>
    case Insert(o) => SumAppend(s.orders, o, k, OpenOrders);
    case Replace(id, o) => SumUpdate(s.orders, id, o, k, OpenOrders);
  }

  /** The rows a commit writes. */
  ghost predicate Writes(s: State, l: Id, plan: Plan, open: nat, r: Row)
    requires l < |s.listings|
  {
    || r == ListingRow(l)
    || (WriteOf(plan).Replace? && r == OrderRow(WriteOf(plan).id))
    || (PassportAfter(plan, s.listings[l], open).Some? && r == PassportRow(s.listings[l].passportId))
  }

  lemma ApplyTouches(s: State, l: Id, plan: Plan, open: nat)
    requires l < |s.listings| && FitsListing(plan, s, l)
    ensures var t := Apply(s, l, plan, open);
            && t.orders == Overlay(s.orders, WriteOf(plan))
            && |t.listings| == |s.listings| && |t.passports| == |s.passports|
            && (forall k :: 0 <= k < |s.listings| && k != l ==> t.listings[k] == s.listings[k])
            && (forall p :: 0 <= p < |s.passports| ==> t.passports[p].curated == s.passports[p].curated)
            && (forall p :: 0 <= p < |s.passports| && !Writes(s, l, plan, open, PassportRow(p)) ==>
                  t.passports[p] == s.passports[p])
  {
  }

  /** Another listing's count, and the plan made from it, stand. */
  lemma CountStands(s: State, t: State, l: Id, w: OrderWrite, k: Id, plan: Plan, open: nat)
    requires k != l && k < |s.listings| && |t.listings| == |s.listings| && t.listings[k] == s.listings[k]
    requires t.orders == Overlay(s.orders, w)
    requires w.Insert? ==> w.order.listingId == l
    requires w.Replace? ==> w.id < |s.orders| && s.orders[w.id].listingId == l && w.order.listingId == l
    requires CountRead(s, k, plan, open)
    ensures CountRead(t, k, plan, open)
  {
    CountElsewhere(s, w, l, k);
    OverlayCount(s.orders, t.orders, WriteOf(plan), k);
  }

  /** The rows a process has read and locked stand. */
  lemma ReadsStand(s: State, l: Id, plan: Plan, open: nat, tx: Tx, p: Proc)
    requires l < |s.listings| && FitsListing(plan, s, l)
    requires OrderRead(s, tx, p) && OrderLocks(tx) <= p.locks
    requires forall r :: r in p.locks ==> !Writes(s, l, plan, open, r)
    ensures OrderRead(Apply(s, l, plan, open), tx, p)
    ensures ListingRead(s, tx, p) && ListingRow(ListingOf(tx, p.order)) in p.locks ==>
              && ListingRead(Apply(s, l, plan, open), tx, p) && ListingOf(tx, p.order) != l
              && (PassportRead(s, tx, p) ==> PassportRead(Apply(s, l, plan, open), tx, p))
  {
    ApplyTouches(s, l, plan, open);
    if OrderOf(tx).Some? {
      assert OrderRow(OrderOf(tx).value) in p.locks;
    }
  }

  /** A process that holds none of the rows written still reads what is committed. */
  lemma OthersReadOn(s: State, l: Id, plan: Plan, open: nat, tx: Tx, p: Proc)
    requires l < |s.listings| && FitsListing(plan, s, l) && ProcOk(s, tx, p)
    requires forall r :: r in p.locks ==> !Writes(s, l, plan, open, r)
    ensures ProcOk(Apply(s, l, plan, open), tx, p)
  {
    if p.pc.HasOrder? {
      ReadsStand(s, l, plan, open, tx, p);
    } else if Reading(p.pc) {
      ReadsStand(s, l, plan, open, tx, p);
      var k := ListingOf(tx, p.order);
      if p.pc.Counted? || p.pc.Ready? {
        ApplyTouches(s, l, plan, open);
        CountStands(s, Apply(s, l, plan, open), l, WriteOf(plan), k, LocalPlan(tx, p), p.open);
      }
    }
  }

  lemma CommitKeeps(db: State, txs: seq<Tx>, s: Sys, i: nat)
    requires SysInv(db, txs, s) && i < |txs| && (s.procs[i].pc.Counted? || s.procs[i].pc.Ready?)
    requires CanStep(txs, s, i) && Wants(s.db, txs[i], s.procs[i]).None?
    ensures SysInv(db, txs, Commit(s, i, txs[i]))
    ensures Commit(s, i, txs[i]).procs[i].pc.Done?
  {
    var tx, p := txs[i], s.procs[i];
    var l, plan := ListingOf(tx, p.order), LocalPlan(tx, p);
    CommitIsSerial(s.db, tx, p.order, p.listing.value, p.passport, p.curated);
    WritesAreLocked(s.db, tx, p);
    forall j | 0 <= j < |txs| && j != i
      ensures ProcOk(Apply(s.db, l, plan, p.open), txs[j], s.procs[j])
    {
      assert s.procs[i].locks !! s.procs[j].locks;
      OthersReadOn(s.db, l, plan, p.open, txs[j], s.procs[j]);
    }
    FinishKeeps(db, txs, s, i, Apply(s.db, l, plan, p.open), true);
  }

  /** A process about to commit has locked every row it writes. */
  lemma WritesAreLocked(db: State, tx: Tx, p: Proc)
    requires ProcOk(db, tx, p) && (p.pc.Counted? || p.pc.Ready?) && Wants(db, tx, p).None?
    ensures forall r :: Writes(db, ListingOf(tx, p.order), LocalPlan(tx, p), p.open, r) ==> r in p.locks
  {
  }

  // ---------------------------------------------------------------------------
  // Each step
  // ---------------------------------------------------------------------------

  /** A transaction that writes nothing is the serial transaction on what it has read. */
  lemma NoWriteFinishKeeps(db: State, txs: seq<Tx>, s: Sys, i: nat, accepted: bool)
    requires SysInv(db, txs, s) && i < |txs| && !s.procs[i].pc.Done?
    requires SerialCommit(s.db, txs[i]) == s.db && accepted == Serial(s.db, txs[i]).Ok?
    ensures SysInv(db, txs, Finish(s, i, s.db, accepted))
  {
    FinishKeeps(db, txs, s, i, s.db, accepted);
  }

  lemma ReadListingKeeps(db: State, txs: seq<Tx>, s: Sys, i: nat)
    requires SysInv(db, txs, s) && i < |txs| && (s.procs[i].pc.Begin? || s.procs[i].pc.HasOrder?)
    requires s.procs[i].pc.Begin? ==> OrderOf(txs[i]).None?
    requires ListingOf(txs[i], s.procs[i].order) < |s.db.listings|
    requires !HeldByOther(s, ListingRow(ListingOf(txs[i], s.procs[i].order)), i)
    ensures SysInv(db, txs, ReadListing(s, i, ListingOf(txs[i], s.procs[i].order)))
  {
    var l := ListingOf(txs[i], s.procs[i].order);
    PutKeeps(db, txs, s, i, ReadListing(s, i, l).procs[i]);
  }

  lemma CountKeeps(db: State, txs: seq<Tx>, s: Sys, i: nat)
    requires SysInv(db, txs, s) && i < |txs| && (s.procs[i].pc.HasListing? || s.procs[i].pc.HasPassport?)
    requires s.procs[i].pc.HasListing? ==> !ReadsPassport(txs[i], s.procs[i].listing.value)
    ensures SysInv(db, txs, Count(s, i, txs[i]))
  {
    var tx, p := txs[i], s.procs[i];
    var plan := LocalPlan(tx, p);
    CountedPlan(s.db, tx, p);
    if plan.Refuse? || plan.Nothing? {
      NoWriteFinishKeeps(db, txs, s, i, plan.Nothing?);
    } else {
      PutKeeps(db, txs, s, i, Count(s, i, tx).procs[i]);
    }
  }

  /** What is planned from rows under lock fits them, and a plan to write nothing is the serial transaction. */
  lemma CountedPlan(db: State, tx: Tx, p: Proc)
    requires ProcOk(db, tx, p) && (p.pc.HasListing? || p.pc.HasPassport?)
    requires p.pc.HasListing? ==> !ReadsPassport(tx, p.listing.value)
    ensures var plan := LocalPlan(tx, p);
            && FitsListing(plan, db, ListingOf(tx, p.order))
            && (plan.Refuse? || plan.Nothing? ==>
                  SerialCommit(db, tx) == db && (Serial(db, tx).Ok? <==> plan.Nothing?))
  {
    var l, plan := ListingOf(tx, p.order), LocalPlan(tx, p);
    CommitIsSerial(db, tx, p.order, p.listing.value, p.passport, p.curated);
    if plan.Refuse? || plan.Nothing? {
      NoWriteIsNothing(db, l, plan, OpenCount(Overlay(db.orders, WriteOf(plan)), l));
    }
  }

  lemma FirstStepsKeep(db: State, txs: seq<Tx>, s: Sys, i: nat)
    requires SysInv(db, txs, s) && CanStep(txs, s, i) && (s.procs[i].pc.Begin? || s.procs[i].pc.HasOrder?)
    ensures SysInv(db, txs, Step(txs, s, i))
  {
    var tx, p := txs[i], s.procs[i];
    assert ProcOk(s.db, tx, p);
    if Wants(s.db, tx, p).None? {
      NoWriteFinishKeeps(db, txs, s, i, p.pc.HasOrder? || tx.CloseTx? || tx.ExpireTx?);
    } else if p.pc.Begin? && OrderOf(tx).Some? {
      PutKeeps(db, txs, s, i, Step(txs, s, i).procs[i]);
    } else {
      ReadListingKeeps(db, txs, s, i);
    }
  }

  lemma PassportReadOk(db: State, tx: Tx, p: Proc)
    requires ProcOk(db, tx, p) && p.pc.HasListing? && Wants(db, tx, p).Some?
    ensures p.listing.Some? && p.listing.value.passportId < |db.passports|
    ensures ProcOk(db, tx, p.(pc := HasPassport, passport := db.passports[p.listing.value.passportId].status,
                              locks := p.locks + {Wants(db, tx, p).value}))
  {
  }

  lemma PassportLockedOk(db: State, tx: Tx, p: Proc)
    requires ProcOk(db, tx, p) && p.pc.Counted? && Wants(db, tx, p).Some?
    ensures ProcOk(db, tx, p.(pc := Ready, locks := p.locks + {Wants(db, tx, p).value}))
  {
  }

  lemma PassportStepsKeep(db: State, txs: seq<Tx>, s: Sys, i: nat)
    requires SysInv(db, txs, s) && CanStep(txs, s, i) && (s.procs[i].pc.HasListing? || s.procs[i].pc.Counted?)
    requires Wants(s.db, txs[i], s.procs[i]).Some?
    ensures SysInv(db, txs, Step(txs, s, i))
  {
    var tx, p := txs[i], s.procs[i];
    assert ProcOk(s.db, tx, p);
    if p.pc.HasListing? {
      PassportReadOk(s.db, tx, p);
      PutKeeps(db, txs, s, i, p.(pc := HasPassport, passport := s.db.passports[p.listing.value.passportId].status,
                                 locks := p.locks + {Wants(s.db, tx, p).value}));
    } else {
      PassportLockedOk(s.db, tx, p);
      PutKeeps(db, txs, s, i, p.(pc := Ready, locks := p.locks + {Wants(s.db, tx, p).value}));
    }
  }

  lemma StepKeepsSys(db: State, txs: seq<Tx>, s: Sys, i: nat)
    requires SysInv(db, txs, s) && CanStep(txs, s, i)
    ensures SysInv(db, txs, Step(txs, s, i))
  {
    var tx, p := txs[i], s.procs[i];
    assert ProcOk(s.db, tx, p);
    if p.pc.Begin? || p.pc.HasOrder? {
      FirstStepsKeep(db, txs, s, i);
    } else if Wants(s.db, tx, p).Some? {
      PassportStepsKeep(db, txs, s, i);
    } else if p.pc.HasListing? || p.pc.HasPassport? {
      CountKeeps(db, txs, s, i);
    } else {
      CommitKeeps(db, txs, s, i);
    }
  }

  lemma LaunchKeeps(db: State, txs: seq<Tx>)
    ensures SysInv(db, txs, Launch(db, txs))
  {
  }

  /**
   * Serialisability: after any schedule the committed tables are the serial
   * run's in finishing order, and each answer is the serial run's answer. In
   * particular every count was exact when its transaction committed.
   */
  lemma {:induction false} EveryScheduleIsSerial(db: State, txs: seq<Tx>, schedule: seq<nat>)
    ensures SysInv(db, txs, Run(txs, Launch(db, txs), schedule))
  {
    if schedule == [] {
      LaunchKeeps(db, txs);
    } else {
      var n := |schedule| - 1;
      var before := Run(txs, Launch(db, txs), schedule[..n]);
      EveryScheduleIsSerial(db, txs, schedule[..n]);
      if CanStep(txs, before, schedule[n]) {
        StepKeepsSys(db, txs, before, schedule[n]);
      }
    }
  }

  /** What that says: the tables committed so far, and each answer given, are the serial run's in finishing order. */
  lemma CommittedIsSerial(db: State, txs: seq<Tx>, schedule: seq<nat>)
    ensures var s := Run(txs, Launch(db, txs), schedule);
            && |s.procs| == |txs| && s.db == SerialRun(db, txs, s.finished)
            && (forall i: nat :: i in s.finished <==> i < |txs| && s.procs[i].pc.Done?)
            && (forall k :: 0 <= k < |s.finished| ==>
                  s.finished[k] < |txs|
                  && s.procs[s.finished[k]].pc
                       == Done(Serial(SerialRun(db, txs, s.finished[..k]), txs[s.finished[k]]).Ok?))
  {
    EveryScheduleIsSerial(db, txs, schedule);
    var s := Run(txs, Launch(db, txs), schedule);
    forall k | 0 <= k < |s.finished|
      ensures s.finished[k] < |txs| && AnsweredSerially(db, txs, s, k)
    {
      assert s.finished[k] in s.finished;
    }
  }

  /** Under every schedule, the count a process is about to settle its lot by is the true one. */
  lemma CountIsExact(db: State, txs: seq<Tx>, schedule: seq<nat>, i: nat)
    requires var s := Run(txs, Launch(db, txs), schedule);
             i < |txs| && i < |s.procs| && (s.procs[i].pc.Counted? || s.procs[i].pc.Ready?)
    ensures var s := Run(txs, Launch(db, txs), schedule); var p := s.procs[i];
            && p.listing.Some?
            && p.open == OpenCount(Overlay(s.db.orders, WriteOf(LocalPlan(txs[i], p))), ListingOf(txs[i], p.order))
  {
    EveryScheduleIsSerial(db, txs, schedule);
    var s := Run(txs, Launch(db, txs), schedule);
    assert ProcOk(s.db, txs[i], s.procs[i]);
  }

  // ---------------------------------------------------------------------------
  // The marketplace invariant under every schedule
  // ---------------------------------------------------------------------------

  predicate ValidTx(tx: Tx) {
    match tx
    case OfferTx(offer, _, _, _) => ValidOffer(offer)
    case EditTx(_, edit, _, _) => ValidEdit(edit)
    case _ => true
  }

  lemma SerialKeeps(s: State, tx: Tx)
    requires Inv(s) && ValidTx(tx)
    ensures Inv(SerialCommit(s, tx))
  {
    match tx
    case OfferTx(offer, buyer, keepLast, now) => OfferKeeps(s, offer, buyer, keepLast, now);
    case EditTx(l, edit, organisationId, now) => EditKeeps(s, l, edit, organisationId, now);
    case CloseTx(o, now) => CloseKeeps(s, o, now);
    case StepTx(o, act, viewer, timedOut, now) => TakeStepKeeps(s, o, act, viewer, timedOut, now);
    case ExpireTx(l, now) => ExpireKeeps(s, l, now);
  }

  lemma {:induction false} SerialRunKeeps(db: State, txs: seq<Tx>, sequence: seq<nat>)
    requires Inv(db) && forall i :: 0 <= i < |txs| ==> ValidTx(txs[i])
    ensures Inv(SerialRun(db, txs, sequence))
  {
    if sequence != [] {
      var n := |sequence| - 1;
      SerialRunKeeps(db, txs, sequence[..n]);
      if sequence[n] < |txs| {
        SerialKeeps(SerialRun(db, txs, sequence[..n]), txs[sequence[n]]);
      }
    }
  }

  /** Whatever runs at once, the committed tables keep the marketplace invariant at every moment. */
  lemma ConcurrentRunsKeep(db: State, txs: seq<Tx>, schedule: seq<nat>)
    requires Inv(db) && forall i :: 0 <= i < |txs| ==> ValidTx(txs[i])
    ensures Inv(Run(txs, Launch(db, txs), schedule).db)
  {
    EveryScheduleIsSerial(db, txs, schedule);
    SerialRunKeeps(db, txs, Run(txs, Launch(db, txs), schedule).finished);
  }

  // ---------------------------------------------------------------------------
  // Nobody gets stuck
  // ---------------------------------------------------------------------------

  /** Locks are taken in the order: order row, listing row, passport row. */
  lemma LocksGoUp(db: State, txs: seq<Tx>, s: Sys, i: nat)
    requires SysInv(db, txs, s) && i < |txs| && Wants(s.db, txs[i], s.procs[i]).Some?
    ensures forall r :: r in s.procs[i].locks ==> Level(r) < Level(Wants(s.db, txs[i], s.procs[i]).value)
  {
    assert ProcOk(s.db, txs[i], s.procs[i]);
  }

  /** From any unfinished process the chain of waiting ends at one that can move. */
  lemma SomeoneCanStep(db: State, txs: seq<Tx>, s: Sys, i: nat) returns (j: nat)
    requires SysInv(db, txs, s) && i < |txs| && !s.procs[i].pc.Done?
    ensures CanStep(txs, s, j)
    decreases var want := Wants(s.db, txs[i], s.procs[i]); if want.Some? then 3 - Level(want.value) else 0
  {
    var want := Wants(s.db, txs[i], s.procs[i]);
    if want.Some? && HeldByOther(s, want.value, i) {
      var k: nat :| k < |s.procs| && k != i && want.value in s.procs[k].locks;
      assert ProcOk(s.db, txs[k], s.procs[k]);
      if Wants(s.db, txs[k], s.procs[k]).Some? {
        LocksGoUp(db, txs, s, k);
      }
      j := SomeoneCanStep(db, txs, s, k);
    } else {
      j := i;
    }
  }

  /** Steps a process may still take. */
  function Left(pc: Pc): nat {
    match pc
    case Begin => 6
    case HasOrder => 5
    case HasListing => 4
    case HasPassport => 3
    case Counted => 2
    case Ready => 1
    case Done(_) => 0
  }

  function StepsLeft(procs: seq<Proc>): nat {
    if procs == [] then 0 else StepsLeft(procs[..|procs| - 1]) + Left(procs[|procs| - 1].pc)
  }

  lemma {:induction false} StepsLeftUpdate(procs: seq<Proc>, i: nat, p: Proc)
    requires i < |procs|
    ensures StepsLeft(procs[i := p]) == StepsLeft(procs) - Left(procs[i].pc) + Left(p.pc)
  {
    var n := |procs| - 1;
    if i == n {
      assert procs[i := p][..n] == procs[..n];
    } else {
      StepsLeftUpdate(procs[..n], i, p);
      assert procs[i := p][..n] == procs[..n][i := p];
    }
  }

  /** What the invariant says a process has read, as far as its next step needs it. */
  ghost predicate CanMove(db: State, tx: Tx, p: Proc) {
    && (p.pc.HasOrder? ==> p.order.Some? && p.order.value.listingId < |db.listings|)
    && (Reading(p.pc) ==> p.listing.Some? && p.listing.value.passportId < |db.passports|)
    && (p.pc.Counted? || p.pc.Ready? ==>
          ListingOf(tx, p.order) < |db.listings| && FitsListing(LocalPlan(tx, p), db, ListingOf(tx, p.order)))
  }

  lemma HasRead(db: State, tx: Tx, p: Proc)
    requires ProcOk(db, tx, p)
    ensures CanMove(db, tx, p)
  {
  }

  /** A step moves its own process forward, and only that one. */
  lemma StepMoves(txs: seq<Tx>, s: Sys, i: nat)
    requires CanStep(txs, s, i) && CanMove(s.db, txs[i], s.procs[i])
    ensures var t := Step(txs, s, i);
            |t.procs| == |s.procs| && t.procs == s.procs[i := t.procs[i]] && Left(t.procs[i].pc) < Left(s.procs[i].pc)
  {
  }

  /** Every step leaves fewer steps, so a schedule that keeps moving someone finishes everyone. */
  lemma StepsRunOut(txs: seq<Tx>, s: Sys, i: nat)
    requires CanStep(txs, s, i) && CanMove(s.db, txs[i], s.procs[i])
    ensures StepsLeft(Step(txs, s, i).procs) < StepsLeft(s.procs)
  {
    StepMoves(txs, s, i);
    StepsLeftUpdate(s.procs, i, Step(txs, s, i).procs[i]);
  }

  lemma RunConcat(txs: seq<Tx>, s: Sys, schedule: seq<nat>, more: seq<nat>)
    ensures Run(txs, s, schedule + more) == Run(txs, Run(txs, s, schedule), more)
  {
    FoldConcat(Turns(txs), s, schedule, more);
  }

  ghost predicate AllDone(s: Sys) { forall i :: 0 <= i < |s.procs| ==> s.procs[i].pc.Done? }

  /** From any reachable point with work left, someone can step and less is left. */
  lemma LessIsLeft(db: State, txs: seq<Tx>, s: Sys) returns (j: nat)
    requires SysInv(db, txs, s) && !AllDone(s)
    ensures CanStep(txs, s, j) && StepsLeft(Step(txs, s, j).procs) < StepsLeft(s.procs)
  {
    var i: nat :| i < |s.procs| && !s.procs[i].pc.Done?;
    j := SomeoneCanStep(db, txs, s, i);
    HasRead(s.db, txs[j], s.procs[j]);
    StepsRunOut(txs, s, j);
  }

  lemma OneTurn(txs: seq<Tx>, s: Sys, i: nat)
    ensures Run(txs, s, []) == s && Run(txs, s, [i]) == Turn(txs, s, i)
  {
    assert [i][..0] == [];
  }

  lemma {:induction false} FinishFrom(db: State, txs: seq<Tx>, s: Sys) returns (more: seq<nat>)
    requires SysInv(db, txs, s)
    ensures AllDone(Run(txs, s, more))
    decreases StepsLeft(s.procs)
  {
    more := [];
    if !AllDone(s) {
      var j := LessIsLeft(db, txs, s);
      StepKeepsSys(db, txs, s, j);
      var rest := FinishFrom(db, txs, Step(txs, s, j));
      more := [j] + rest;
      RunConcat(txs, s, [j], rest);
      OneTurn(txs, s, j);
    }
  }

  /** From any reachable point some schedule finishes every transaction: there is no deadlock. */
  lemma EveryoneCanFinish(db: State, txs: seq<Tx>, schedule: seq<nat>) returns (more: seq<nat>)
    ensures AllDone(Run(txs, Launch(db, txs), schedule + more))
  {
    EveryScheduleIsSerial(db, txs, schedule);
    more := FinishFrom(db, txs, Run(txs, Launch(db, txs), schedule));
    RunConcat(txs, Launch(db, txs), schedule, more);
  }

  // ---------------------------------------------------------------------------
  // Simultaneous orders share a lot exactly
  // ---------------------------------------------------------------------------

  /** An order of `q` units of lot `l`, by someone who may place it. */
  predicate OrdersLot(tx: Tx, db: State, l: Id, q: int)
    requires l < |db.listings|
  {
    var lot := db.listings[l];
    && tx.OfferTx? && tx.offer == OfferInput(l, Some(q))
    && tx.buyer.userId != lot.sellerId && tx.buyer.organisationId != Some(lot.organisationId)
    && (lot.expiresAt.Some? ==> tx.now <= lot.expiresAt.value)
    && !(tx.keepLast && db.passports[lot.passportId].curated)
  }

  /** The lot as it was, but for stock and status; nothing else about it has changed. */
  ghost predicate SameLot(s: State, db: State, l: Id)
    requires l < |db.listings|
  {
    && l < |s.listings| && s.listings[l].passportId < |s.passports|
    && s.listings[l] == db.listings[l].(available := s.listings[l].available, status := s.listings[l].status)
    && s.passports[s.listings[l].passportId].curated == db.passports[db.listings[l].passportId].curated
    && (s.listings[l].status.Active? <==> s.listings[l].available > 0)
  }

  /** An order of `q` succeeds exactly while `q` units are left, and takes them. */
  lemma OneOrder(s: State, db: State, l: Id, q: int, tx: Tx)
    requires Inv(s) && l < |db.listings| && SameLot(s, db, l) && OrdersLot(tx, db, l, q)
    requires 1 <= db.listings[l].minOrderQuantity <= q && db.listings[l].pricePence * q <= MAX_AMOUNT_PENCE
    ensures Serial(s, tx).Ok? <==> q <= s.listings[l].available
    ensures var t := SerialCommit(s, tx);
            && Inv(t) && SameLot(t, db, l)
            && t.listings[l].available == s.listings[l].available - (if Serial(s, tx).Ok? then q else 0)
  {
    SerialKeeps(s, tx);
    OfferIsTakenWhen(s, tx.offer, tx.buyer, tx.keepLast, tx.now);
    if Serial(s, tx).Ok? {
      OfferTakesItsSize(s, tx.offer, tx.buyer, tx.keepLast, tx.now);
      FullLot(SerialCommit(s, tx), l);
      FullLot(s, l);
    }
  }

  lemma FullLot(s: State, l: Id)
    requires Inv(s) && l < |s.listings| && IsLive(s.listings[l].status)
    ensures s.listings[l].available >= 0 && (s.listings[l].status.Active? <==> s.listings[l].available > 0)
  {
    assert LotOk(s, l);
  }

  /** How many of a serial run's transactions were accepted. */
  function Accepted(db: State, txs: seq<Tx>, sequence: seq<nat>): nat {
    if sequence == [] then 0
    else
      var n := |sequence| - 1;
      Accepted(db, txs, sequence[..n])
      + (if sequence[n] < |txs| && Serial(SerialRun(db, txs, sequence[..n]), txs[sequence[n]]).Ok? then 1 else 0)
  }

  /** After `k` orders of `q`, `a` of them accepted. */
  ghost predicate Shared(db: State, s: State, l: Id, q: int, a: nat, k: nat)
    requires l < |db.listings|
  {
    && Inv(s) && SameLot(s, db, l)
    && s.listings[l].available == db.listings[l].available - a * q && 0 <= s.listings[l].available
    && a <= k && (a < k ==> s.listings[l].available < q)
  }

  lemma SharedNext(db: State, s: State, l: Id, q: int, a: nat, k: nat, tx: Tx)
    requires l < |db.listings| && Shared(db, s, l, q, a, k) && OrdersLot(tx, db, l, q)
    requires 1 <= db.listings[l].minOrderQuantity <= q && db.listings[l].pricePence * q <= MAX_AMOUNT_PENCE
    ensures Shared(db, SerialCommit(s, tx), l, q, if Serial(s, tx).Ok? then a + 1 else a, k + 1)
  {
    OneOrder(s, db, l, q, tx);
    assert (a + 1) * q == a * q + q;
  }

  /** `p` says what `Shared` says. */
  ghost predicate SaysShared(p: (State, nat, nat) -> bool, db: State, l: Id, q: int)
    requires l < |db.listings|
  {
    forall s, a: nat, k: nat {:trigger Shared(db, s, l, q, a, k)} :: p(s, a, k) <==> Shared(db, s, l, q, a, k)
  }

  predicate OrdersFit(db: State, l: Id, q: int)
    requires l < |db.listings|
  {
    1 <= db.listings[l].minOrderQuantity <= q && db.listings[l].pricePence * q <= MAX_AMOUNT_PENCE
  }

  lemma OneMoreShares(p: (State, nat, nat) -> bool, db: State, s: State, l: Id, q: int, a: nat, k: nat, tx: Tx)
    requires l < |db.listings| && SaysShared(p, db, l, q) && p(s, a, k)
    requires OrdersLot(tx, db, l, q) && OrdersFit(db, l, q)
    ensures p(SerialCommit(s, tx), if Serial(s, tx).Ok? then a + 1 else a, k + 1)
  {
    assert Shared(db, s, l, q, a, k);
    SharedNext(db, s, l, q, a, k, tx);
  }

  lemma SerialRunTail(db: State, txs: seq<Tx>, sequence: seq<nat>)
    requires sequence != [] && sequence[|sequence| - 1] < |txs|
    ensures var n := |sequence| - 1;
            var s, tx := SerialRun(db, txs, sequence[..n]), txs[sequence[n]];
            && SerialRun(db, txs, sequence) == SerialCommit(s, tx)
            && Accepted(db, txs, sequence)
                 == if Serial(s, tx).Ok? then Accepted(db, txs, sequence[..n]) + 1 else Accepted(db, txs, sequence[..n])
  {
  }

  /** The same for any way of saying it, which keeps the rows out of the induction. */
  lemma {:induction false} SerialShares(p: (State, nat, nat) -> bool, db: State, txs: seq<Tx>, sequence: seq<nat>, l: Id, q: int)
    requires l < |db.listings| && SaysShared(p, db, l, q) && OrdersFit(db, l, q) && p(db, 0, 0)
    requires forall i :: 0 <= i < |txs| ==> OrdersLot(txs[i], db, l, q)
    requires forall i :: i in sequence ==> i < |txs|
    ensures p(SerialRun(db, txs, sequence), Accepted(db, txs, sequence), |sequence|)
  {
    if sequence != [] {
      var n := |sequence| - 1;
      assert sequence[n] in sequence && forall i :: i in sequence[..n] ==> i in sequence;
      SerialShares(p, db, txs, sequence[..n], l, q);
      SerialRunTail(db, txs, sequence);
      OneMoreShares(p, db, SerialRun(db, txs, sequence[..n]), l, q, Accepted(db, txs, sequence[..n]), n, txs[sequence[n]]);
    }
  }

  lemma SerialOrdersShare(db: State, txs: seq<Tx>, sequence: seq<nat>, l: Id, q: int)
    requires Inv(db) && l < |db.listings| && db.listings[l].status.Active? && OrdersFit(db, l, q)
    requires forall i :: 0 <= i < |txs| ==> OrdersLot(txs[i], db, l, q)
    requires forall i :: i in sequence ==> i < |txs|
    ensures Shared(db, SerialRun(db, txs, sequence), l, q, Accepted(db, txs, sequence), |sequence|)
  {
    var p := (s: State, a: nat, k: nat) => Shared(db, s, l, q, a, k);
    assert LotOk(db, l);
    SerialShares(p, db, txs, sequence, l, q);
  }

  /**
   * Any number of simultaneous orders of `q` on one lot, under any schedule:
   * once all have answered, exactly as many are accepted as whole orders fit.
   */
  lemma SimultaneousOrdersShareExactly(db: State, txs: seq<Tx>, schedule: seq<nat>, l: Id, q: int)
    requires Inv(db) && l < |db.listings| && db.listings[l].status.Active?
    requires 1 <= db.listings[l].minOrderQuantity <= q && db.listings[l].pricePence * q <= MAX_AMOUNT_PENCE
    requires forall i :: 0 <= i < |txs| ==> OrdersLot(txs[i], db, l, q)
    requires AllDone(Run(txs, Launch(db, txs), schedule))
    ensures var s := Run(txs, Launch(db, txs), schedule);
            |set i | 0 <= i < |s.procs| && s.procs[i].pc == Done(true)|
              == Min(|txs|, db.listings[l].available / q)
  {
    EveryScheduleIsSerial(db, txs, schedule);
    var s := Run(txs, Launch(db, txs), schedule);
    SerialOrdersShare(db, txs, s.finished, l, q);
    AcceptedAreDone(db, txs, s);
    EveryoneFinishedOnce(txs, s);
    var a := Accepted(db, txs, s.finished);
    WholeOrders(db.listings[l].available, q, a, |txs|, SerialRun(db, txs, s.finished).listings[l].available);
  }

  lemma WholeOrders(stock: int, q: int, a: nat, n: nat, left: int)
    requires q >= 1 && left == stock - a * q && 0 <= left && a <= n && (a < n ==> left < q)
    ensures a == Min(n, stock / q)
  {
    assert stock == q * (stock / q) + stock % q;
    var d := stock / q - a;
    assert left == d * q + stock % q;
    assert d <= -1 ==> d * q <= -q;
    assert d >= 1 ==> d * q >= q;
  }

  lemma EveryoneFinishedOnce(txs: seq<Tx>, s: Sys)
    requires Finished(txs, s) && AllDone(s)
    ensures |s.finished| == |s.procs|
  {
    DistinctCounts(s.finished);
    var all := AllBelow(|s.procs|);
    assert Members(s.finished) == all;
  }

  /** The accepted processes in the first `k` to finish. */
  ghost predicate AcceptedAmong(s: Sys, k: nat, done: set<nat>)
    requires k <= |s.finished|
  {
    forall i: nat :: i in done <==> i in s.finished[..k] && i < |s.procs| && s.procs[i].pc == Done(true)
  }

  /** What one finished process adds to the accepted ones. */
  lemma AcceptedNext(db: State, txs: seq<Tx>, s: Sys, k: nat)
    requires |s.procs| == |txs| && Finished(txs, s) && Serialised(db, txs, s) && k < |s.finished|
    ensures s.finished[k] < |s.procs|
    ensures Accepted(db, txs, s.finished[..k + 1])
         == Accepted(db, txs, s.finished[..k]) + (if s.procs[s.finished[k]].pc == Done(true) then 1 else 0)
  {
    var first := s.finished[..k + 1];
    assert s.finished[k] in s.finished;
    assert first[..k] == s.finished[..k] && first[k] == s.finished[k];
    var answer := Serial(SerialRun(db, txs, s.finished[..k]), txs[s.finished[k]]).Ok?;
    assert AnsweredSerially(db, txs, s, k) && s.procs[s.finished[k]].pc == Done(answer);
    assert Accepted(db, txs, first) == Accepted(db, txs, s.finished[..k]) + if answer then 1 else 0;
  }

  lemma AcceptedSetNext(s: Sys, k: nat, done: set<nat>) returns (more: set<nat>)
    requires k < |s.finished| && s.finished[k] < |s.procs| && AcceptedAmong(s, k, done)
    requires forall j, k :: 0 <= j < k < |s.finished| ==> s.finished[j] != s.finished[k]
    ensures AcceptedAmong(s, k + 1, more)
    ensures |more| == |done| + (if s.procs[s.finished[k]].pc == Done(true) then 1 else 0)
  {
    var i := s.finished[k];
    assert s.finished[..k + 1] == s.finished[..k] + [i];
    more := if s.procs[i].pc == Done(true) then done + {i} else done;
    forall j: nat
      ensures j in more <==> j in s.finished[..k + 1] && j < |s.procs| && s.procs[j].pc == Done(true)
    {
      assert j in s.finished[..k + 1] <==> j in s.finished[..k] || j == i;
    }
    assert i !in s.finished[..k];
  }

  lemma {:induction false} AcceptedSet(db: State, txs: seq<Tx>, s: Sys, k: nat) returns (done: set<nat>)
    requires |s.procs| == |txs| && Finished(txs, s) && Serialised(db, txs, s) && k <= |s.finished|
    ensures |done| == Accepted(db, txs, s.finished[..k]) && AcceptedAmong(s, k, done)
  {
    done := {};
    if k > 0 {
      done := AcceptedSet(db, txs, s, k - 1);
      AcceptedNext(db, txs, s, k - 1);
      done := AcceptedSetNext(s, k - 1, done);
    }
  }

  /** The processes that answered "accepted" are as many as the serial run accepts. */
  lemma AcceptedAreDone(db: State, txs: seq<Tx>, s: Sys)
    requires |s.procs| == |txs| && Finished(txs, s) && Serialised(db, txs, s)
    ensures |set i | 0 <= i < |s.procs| && s.procs[i].pc == Done(true)| == Accepted(db, txs, s.finished)
  {
    var done := AcceptedSet(db, txs, s, |s.finished|);
    assert s.finished[..|s.finished|] == s.finished;
    assert done == set i | 0 <= i < |s.procs| && s.procs[i].pc == Done(true);
  }
}
