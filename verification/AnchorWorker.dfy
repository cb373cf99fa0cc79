/**
 * The anchor worker and its sweep over all passports: reconcile stale anchors,
 * queue what has no transaction, and drain the queue, within batch limits.
 */
module AnchorWorker {
  import opened Wrappers
  import opened Anchor
  import opened SweepBatch

  const SWEEP_BATCH_SIZE := 50
  const RECONCILE_BATCH_SIZE := 200

  /** The job under a passport's stable id, as the queue keeps it. */
  datatype JobState = Waiting | Active | Completed | Failed

  /** The passports among `scan`, in its order, that the query asks for. */
  function Anchored(worlds: seq<World>, scan: seq<nat>): seq<nat> {
    if scan == [] then []
    else
      var i := scan[|scan| - 1];
      Anchored(worlds, scan[..|scan| - 1]) + (if i < |worlds| && worlds[i].row.tx.Some? then [i] else [])
  }

  function WithoutTx(worlds: seq<World>, scan: seq<nat>): seq<nat> {
    if scan == [] then []
    else
      var i := scan[|scan| - 1];
      WithoutTx(worlds, scan[..|scan| - 1]) + (if i < |worlds| && Unanchored(worlds[i]) then [i] else [])
  }

  lemma {:induction false} AnchoredAre(worlds: seq<World>, scan: seq<nat>)
    requires Distinct(scan)
    ensures Distinct(Anchored(worlds, scan))
    ensures forall i :: i in Anchored(worlds, scan) <==> i in scan && i < |worlds| && worlds[i].row.tx.Some?
  {
    if scan != [] {
      AnchoredAre(worlds, scan[..|scan| - 1]);
      assert scan == scan[..|scan| - 1] + [scan[|scan| - 1]];
    }
  }

  lemma {:induction false} WithoutTxAre(worlds: seq<World>, scan: seq<nat>)
    requires Distinct(scan)
    ensures Distinct(WithoutTx(worlds, scan))
    ensures forall i :: i in WithoutTx(worlds, scan) <==> i in scan && i < |worlds| && Unanchored(worlds[i])
  {
    if scan != [] {
      WithoutTxAre(worlds, scan[..|scan| - 1]);
      assert scan == scan[..|scan| - 1] + [scan[|scan| - 1]];
    }
  }

  /** The passports once the jobs of some of them have run. */
  function RanAll(worlds: seq<World>, ran: set<nat>, wallet: Address): (r: seq<World>)
    requires forall i :: 0 <= i < |worlds| ==> worlds[i].jobs == []
    ensures |r| == |worlds|
    ensures forall i :: 0 <= i < |worlds| ==> r[i] == if i in ran then JobRun(worlds[i], wallet) else worlds[i]
  {
    seq(|worlds|, i requires 0 <= i < |worlds| && worlds[i].jobs == [] =>
      if i in ran then JobRun(worlds[i], wallet) else worlds[i])
  }

  lemma RanOneMore(worlds: seq<World>, ran: set<nat>, i: nat, wallet: Address)
    requires i < |worlds| && i !in ran && forall k :: 0 <= k < |worlds| ==> worlds[k].jobs == []
    ensures RanAll(worlds, ran, wallet)[i] == worlds[i]
    ensures RanAll(worlds, ran + {i}, wallet) == RanAll(worlds, ran, wallet)[i := JobRun(worlds[i], wallet)]
  {
  }

  /** A table with `f` applied at the given places. */
  function Applied<T>(f: T -> T, s: seq<T>, ids: seq<nat>): (r: seq<T>)
    ensures |r| == |s| && forall i :: 0 <= i < |r| ==> r[i] == if i in ids then f(s[i]) else s[i]
  {
    seq(|s|, i requires 0 <= i < |s| => if i in ids then f(s[i]) else s[i])
  }

  /** The places two tables differ in. */
  ghost function Changed<T>(s: seq<T>, t: seq<T>): set<nat>
    requires |t| == |s|
  {
    set i | 0 <= i < |s| && t[i] != s[i]
  }

  lemma AppliedNowhere<T>(f: T -> T, s: seq<T>)
    ensures Applied(f, s, []) == s && Changed(s, s) == {}
  {
  }

  lemma AppliedOneMore<T>(f: T -> T, s: seq<T>, ids: seq<nat>, k: nat)
    requires k < |ids| && ids[k] < |s| && Distinct(ids)
    ensures var i, before, after := ids[k], Applied(f, s, ids[..k]), Applied(f, s, ids[..k + 1]);
            && before[i] == s[i] && after == before[i := f(s[i])]
            && |Changed(s, after)| == |Changed(s, before)| + if f(s[i]) != s[i] then 1 else 0
  {
    var i, before, after := ids[k], Applied(f, s, ids[..k]), Applied(f, s, ids[..k + 1]);
    assert ids[..k + 1] == ids[..k] + [i];
    assert i !in ids[..k];
    assert after == before[i := f(s[i])];
    if f(s[i]) != s[i] {
      assert Changed(s, after) == Changed(s, before) + {i};
    } else {
      assert after == before;
    }
  }

  /** What the reconciliation fetches: distinct anchored passports. */
  lemma RecentAre(worlds: seq<World>, byUpdate: seq<nat>, limit: nat)
    requires Distinct(byUpdate)
    ensures var recent := Limit(Anchored(worlds, byUpdate), limit);
            Distinct(recent) && forall i :: i in recent ==> i < |worlds| && worlds[i].row.tx.Some?
  {
    AnchoredAre(worlds, byUpdate);
    var recent := Limit(Anchored(worlds, byUpdate), limit);
    forall i | i in recent
      ensures i in Anchored(worlds, byUpdate)
    {
    }
  }

  /** What the sweep queues: passports without a transaction. */
  lemma PendingAre(worlds: seq<World>, byAge: seq<nat>, limit: nat)
    requires Distinct(byAge)
    ensures forall i :: i in Limit(WithoutTx(worlds, byAge), limit) ==> i < |worlds| && Unanchored(worlds[i])
  {
    WithoutTxAre(worlds, byAge);
    forall i | i in Limit(WithoutTx(worlds, byAge), limit)
      ensures i in WithoutTx(worlds, byAge)
    {
    }
  }

  /** No sweep changes the passport: it converged, or no transaction can be restored, or it is a draft without one. */
  ghost predicate AtRest(w: World) {
    || Converged(w)
    || (w.row.tx.None? && (w.row.draft || (LostReceipt(w) && w.row.stored == Some(w.row.current))))
  }

  lemma AtRestStays(w: World, wallet: Address)
    requires AtRest(w) && w.jobs == []
    ensures Reconciled(w) == w && (Unanchored(w) ==> JobRun(w, wallet) == w)
  {
    JobRunIsDone(w, wallet);
  }

  /** The queue's state under a passport's id. */
  predicate IsWaiting(queue: map<nat, JobState>, i: nat) { i in queue && queue[i].Waiting? }

  predicate UnderWay(queue: map<nat, JobState>, i: nat) { i in queue && (queue[i].Waiting? || queue[i].Active?) }

  /** The passports of these with no job waiting or running. */
  ghost function Absent(queue: map<nat, JobState>, ids: set<nat>): set<nat> { set i | i in ids && !UnderWay(queue, i) }

  /** The queue once a job is added for each of these that has none under way. */
  ghost function Requeued(queue: map<nat, JobState>, ids: set<nat>): map<nat, JobState> {
    map i | i in queue.Keys + ids :: if i in Absent(queue, ids) then Waiting else queue[i]
  }

  lemma RequeuedOneMore(queue: map<nat, JobState>, ids: set<nat>, i: nat)
    ensures var before := Requeued(queue, ids);
            Requeued(queue, ids + {i}) == if UnderWay(before, i) then before else before[i := Waiting]
  {
  }

  lemma AbsentOneMore(queue: map<nat, JobState>, ids: set<nat>, i: nat)
    ensures |Absent(queue, ids + {i})| == |Absent(queue, ids)| + if UnderWay(Requeued(queue, ids), i) then 0 else 1
  {
    if i !in ids && !UnderWay(queue, i) {
      assert Absent(queue, ids + {i}) == Absent(queue, ids) + {i};
    } else {
      assert Absent(queue, ids + {i}) == Absent(queue, ids);
    }
  }

  class Worker {
    const wallet: Address
    var worlds: seq<World>
    var queue: map<nat, JobState>

    /** Edits have stopped and no job is running; jobs may be waiting. */
    ghost predicate Quiet()
      reads this
    {
      && (forall i :: 0 <= i < |worlds| ==>
            Sound(worlds[i], wallet) && worlds[i].jobs == [] && worlds[i].clearing == 0)
      && (forall i :: i in queue ==> i < |worlds| && queue[i] != Active)
    }

    constructor (wallet: Address, worlds: seq<World>, queue: map<nat, JobState>)
      ensures this.wallet == wallet && this.worlds == worlds && this.queue == queue
    {
      this.wallet, this.worlds, this.queue := wallet, worlds, queue;
    }

    /** One job, with nothing else happening to its passport. */
    method ProcessAnchorJob(i: nat)
      requires i < |worlds| && worlds[i].jobs == []
      modifies this`worlds
      ensures |worlds| == |old(worlds)| && JobDone(old(worlds)[i], worlds[i], wallet)
      ensures forall k :: 0 <= k < |worlds| && k != i ==> worlds[k] == old(worlds)[k]
    {
      JobRunIsDone(worlds[i], wallet);
      var w := Next(worlds[i], wallet, JobStarts);
      w := Next(w, wallet, JobReads(0));
      if w.jobs[0].action.Skip? {
        w := Next(w, wallet, JobSkips(0));
      } else {
        if NeedsRepair(w.jobs[0], wallet) {
          w := Next(w, wallet, JobRepairs(0));
        }
        w := Next(w, wallet, JobSubmits(0));
        w := Next(w, wallet, JobRecords(0));
        w := Next(w, wallet, JobLogs(0));
      }
      worlds := worlds[i := w];
    }

    /** The most recently updated anchored passports, checked one by one. */
    method ReconcileStaleAnchors(byUpdate: seq<nat>, limit: nat) returns (marked: nat)
      requires Distinct(byUpdate)
      modifies this`worlds
      ensures worlds == Applied(Reconciled, old(worlds), Limit(Anchored(old(worlds), byUpdate), limit))
      ensures marked == |Changed(old(worlds), worlds)|
    {
      ghost var before := worlds;
      var recent := Limit(Anchored(worlds, byUpdate), limit);
      RecentAre(worlds, byUpdate, limit);
      marked := 0;
      AppliedNowhere(Reconciled, before);
      for k := 0 to |recent|
        invariant worlds == Applied(Reconciled, before, recent[..k]) && marked == |Changed(before, worlds)|
      {
        var i := recent[k];
        assert i in recent;
        AppliedOneMore(Reconciled, before, recent, k);
        if worlds[i].row.stored != Some(worlds[i].row.current) {
          worlds := worlds[i := worlds[i].(row := Cleared(worlds[i].row))];
          marked := marked + 1;
        }
      }
      assert recent[..|recent|] == recent;
    }

    /** Queue a job under the passport's stable id, unless one is waiting or running. */
    method EnqueueSweepAnchor(i: nat) returns (queued: bool)
      modifies this`queue
      ensures queued == !UnderWay(old(queue), i)
      ensures queue == if queued then old(queue)[i := Waiting] else old(queue)
    {
      if i in queue {
        if queue[i] != Completed && queue[i] != Failed { return false; }
        // A finished job is kept, and an add under its id would be ignored: it goes first.
        queue := queue - {i};
      }
      queue := queue[i := Waiting];
      return true;
    }

    method EnqueueAll(pending: seq<nat>) returns (queued: nat)
      modifies this`queue
      ensures queued == |Absent(old(queue), Members(pending))|
      ensures queue == Requeued(old(queue), Members(pending))
    {
      queued := 0;
      for k := 0 to |pending|
        invariant queued == |Absent(old(queue), Members(pending[..k]))|
        invariant queue == Requeued(old(queue), Members(pending[..k]))
      {
        assert Members(pending[..k + 1]) == Members(pending[..k]) + {pending[k]};
        RequeuedOneMore(old(queue), Members(pending[..k]), pending[k]);
        AbsentOneMore(old(queue), Members(pending[..k]), pending[k]);
        var done := EnqueueSweepAnchor(pending[k]);
        if done {
          queued := queued + 1;
        }
      }
      assert pending[..|pending|] == pending;
    }

    /** One waiting job, when those of `ran` have run before it. */
    method RunJob(i: nat, ghost before: seq<World>, ghost ran: set<nat>)
      requires forall k :: 0 <= k < |before| ==> before[k].jobs == []
      requires i < |before| && i !in ran && worlds == RanAll(before, ran, wallet)
      modifies this`worlds, this`queue
      ensures worlds == RanAll(before, ran + {i}, wallet) && queue == old(queue)[i := Completed]
    {
      RanOneMore(before, ran, i, wallet);
      JobRunIsDone(before[i], wallet);
      ProcessAnchorJob(i);
      JobDoneIsOneOutcome(before[i], worlds[i], JobRun(before[i], wallet), wallet);
      assert worlds == RanAll(before, ran, wallet)[i := JobRun(before[i], wallet)];
      queue := queue[i := Completed];
    }

    /** The worker takes waiting jobs, in whatever order, until there are none. */
    method Drain()
      requires (forall i :: 0 <= i < |worlds| ==> worlds[i].jobs == []) && forall i :: i in queue ==> i < |worlds|
      modifies this`worlds, this`queue
      ensures |worlds| == |old(worlds)| && queue.Keys == old(queue).Keys
      ensures forall i :: i in queue ==> queue[i] == if old(queue)[i].Waiting? then Completed else old(queue)[i]
      ensures forall i :: 0 <= i < |worlds| ==>
                worlds[i] == if i in old(queue) && old(queue)[i].Waiting? then JobRun(old(worlds)[i], wallet)
                             else old(worlds)[i]
    {
      var waiting := set i | i in queue && queue[i].Waiting?;
      ghost var ran: set<nat> := {};
      ghost var all := waiting;
      ghost var before := worlds;
      ghost var queued := queue;
      while waiting != {}
        invariant all == ran + waiting && ran !! waiting && (forall i :: i in ran ==> i < |before|)
        invariant worlds == RanAll(before, ran, wallet)
        invariant queue.Keys == queued.Keys
        invariant forall i :: i in queued ==> queue[i] == if i in ran then Completed else queued[i]
        decreases waiting
      {
        var i :| i in waiting;
        assert i in all && i < |before|;
        RunJob(i, before, ran);
        waiting := waiting - {i};
        ran := ran + {i};
      }
    }

    /** One sweep: `byUpdate` and `byAge` read the table most recently updated and oldest first. */
    method ProcessSweepJob(byUpdate: seq<nat>, byAge: seq<nat>)
      requires Quiet() && ScanOf(byUpdate, |worlds|) && ScanOf(byAge, |worlds|)
      modifies this`worlds, this`queue
      ensures worlds == Applied(Reconciled, old(worlds), Limit(Anchored(old(worlds), byUpdate), 200))
      ensures forall i :: i in queue ==> i < |worlds| && queue[i] != Active
      ensures forall i: nat :: IsWaiting(queue, i) <==>
                IsWaiting(old(queue), i) || i in Limit(WithoutTx(worlds, byAge), 50)
    {
      var marked := ReconcileStaleAnchors(byUpdate, RECONCILE_BATCH_SIZE);
      PendingAre(worlds, byAge, SWEEP_BATCH_SIZE);
      var queued := EnqueueAll(Limit(WithoutTx(worlds, byAge), SWEEP_BATCH_SIZE));
    }

    /**
     * A sweep and the jobs it queued. Within the batch limits every registered
     * passport converges, save where a lost receipt leaves nothing to restore;
     * and where passports are at rest, sweeps change nothing.
     */
    method SweepAndDrain(byUpdate: seq<nat>, byAge: seq<nat>)
      requires Quiet() && ScanOf(byUpdate, |worlds|) && ScanOf(byAge, |worlds|)
      modifies this`worlds, this`queue
      ensures |worlds| == |old(worlds)| && forall i: nat :: !IsWaiting(queue, i)
      ensures forall i :: 0 <= i < |worlds| ==>
                worlds[i].jobs == [] && worlds[i].row.current == old(worlds)[i].row.current
      ensures old(FitsOneSweep(worlds, byUpdate, byAge)) ==>
                forall i :: 0 <= i < |worlds| ==> BroughtToRest(old(worlds)[i], worlds[i])
      ensures (forall i :: 0 <= i < |worlds| ==> AtRest(old(worlds)[i])) && (forall i: nat :: !IsWaiting(old(queue), i)) ==>
                worlds == old(worlds)
    {
      ghost var was, queued := worlds, queue;
      ProcessSweepJob(byUpdate, byAge);
      ghost var before, all := worlds, queue;
      Drain();
      assert forall i :: 0 <= i < |was| ==>
          worlds[i] == if IsWaiting(all, i) then JobRun(before[i], wallet) else before[i];
      SweptTable(was, before, worlds, wallet, byUpdate, byAge, queued, all);
    }
  }

  /** The table's queries are within the batch sizes. */
  ghost predicate FitsOneSweep(worlds: seq<World>, byUpdate: seq<nat>, byAge: seq<nat>) {
    && |Anchored(worlds, byUpdate)| <= 200
    && |WithoutTx(ReconciledAll(worlds), byAge)| <= 50
  }

  /** At rest, and converged but for a receipt that was lost. */
  ghost predicate BroughtToRest(w: World, t: World) {
    AtRest(t) && (!w.row.draft ==> (Converged(t) <==> Reconciled(w).row.tx.Some? || !LostReceipt(w)))
  }

  /** What a sweep from `was` through `before` to `after` makes of the table, when `all` was the queue to drain. */
  lemma SweptTable(was: seq<World>, before: seq<World>, after: seq<World>, wallet: Address,
                   byUpdate: seq<nat>, byAge: seq<nat>, queued: map<nat, JobState>, all: map<nat, JobState>)
    requires |after| == |was|
    requires forall i :: 0 <= i < |was| ==> Sound(was[i], wallet) && was[i].jobs == [] && was[i].clearing == 0
    requires ScanOf(byUpdate, |was|) && ScanOf(byAge, |was|)
    requires before == Applied(Reconciled, was, Limit(Anchored(was, byUpdate), RECONCILE_BATCH_SIZE))
    requires forall i: nat :: IsWaiting(all, i) <==>
               IsWaiting(queued, i) || i in Limit(WithoutTx(before, byAge), SWEEP_BATCH_SIZE)
    requires forall i :: 0 <= i < |was| ==>
               after[i] == if IsWaiting(all, i) then JobRun(before[i], wallet) else before[i]
    ensures forall i :: 0 <= i < |was| ==> after[i].jobs == [] && after[i].row.current == was[i].row.current
    ensures FitsOneSweep(was, byUpdate, byAge) ==> forall i :: 0 <= i < |was| ==> BroughtToRest(was[i], after[i])
    ensures (forall i :: 0 <= i < |was| ==> AtRest(was[i])) && (forall i: nat :: !IsWaiting(queued, i)) ==> after == was
  {
    PendingAre(before, byAge, SWEEP_BATCH_SIZE);
    forall i | 0 <= i < |was|
      ensures after[i].jobs == [] && after[i].row.current == was[i].row.current
      ensures AtRest(was[i]) && !IsWaiting(queued, i) ==> after[i] == was[i]
    {
      OneIdle(was[i], before[i], after[i], wallet, IsWaiting(all, i));
    }
    if FitsOneSweep(was, byUpdate, byAge) {
      SweptWithinLimits(was, before, byUpdate, byAge);
      forall i | 0 <= i < |was|
        ensures BroughtToRest(was[i], after[i])
      {
        OnePassport(was[i], after[i], wallet, IsWaiting(all, i));
      }
    }
  }

  /** Within the limits every stale anchor is cleared and everything without a transaction is queued. */
  lemma SweptWithinLimits(was: seq<World>, before: seq<World>, byUpdate: seq<nat>, byAge: seq<nat>)
    requires ScanOf(byUpdate, |was|) && ScanOf(byAge, |was|) && FitsOneSweep(was, byUpdate, byAge)
    requires before == Applied(Reconciled, was, Limit(Anchored(was, byUpdate), RECONCILE_BATCH_SIZE))
    ensures before == ReconciledAll(was)
    ensures forall i :: 0 <= i < |was| && Unanchored(before[i]) ==> i in Limit(WithoutTx(before, byAge), SWEEP_BATCH_SIZE)
  {
    AnchoredAre(was, byUpdate);
    forall i | 0 <= i < |was|
      ensures before[i] == Reconciled(was[i])
    {
      assert i in byUpdate;
    }
    WithoutTxAre(before, byAge);
  }

  function ReconciledAll(worlds: seq<World>): (r: seq<World>)
    ensures |r| == |worlds| && forall i :: 0 <= i < |r| ==> r[i] == Reconciled(worlds[i])
  {
    seq(|worlds|, i requires 0 <= i < |worlds| => Reconciled(worlds[i]))
  }

  /** What a sweep makes of one passport, whichever batches it was in. */
  lemma OneIdle(w: World, r: World, t: World, wallet: Address, ran: bool)
    requires w.jobs == [] && (r == w || r == Reconciled(w))
    requires t == if ran then JobRun(r, wallet) else r
    ensures t.jobs == [] && t.row.current == w.row.current
    ensures AtRest(w) && (ran ==> Unanchored(r)) ==> t == w
  {
    JobRunIsDone(r, wallet);
    if AtRest(w) {
      AtRestStays(w, wallet);
    }
  }

  /** What reconciling, and then a job if one was waiting, makes of one passport. */
  lemma OnePassport(w: World, t: World, wallet: Address, ran: bool)
    requires Sound(w, wallet) && w.jobs == [] && w.clearing == 0
    requires t == if ran then JobRun(Reconciled(w), wallet) else Reconciled(w)
    requires Unanchored(Reconciled(w)) ==> ran
    ensures BroughtToRest(w, t)
  {
    JobRunIsDone(Reconciled(w), wallet);
  }
}
