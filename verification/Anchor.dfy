/**
 * Anchoring a passport's fingerprint on chain: the row's anchor columns, the
 * registry, the log of chain transactions, and the jobs and sweeps that bring
 * them together while people keep editing.
 *
 * A passport's hashed data is represented by the fingerprint recomputed from
 * it. A transaction takes effect on the registry when it is submitted or not
 * at all; its receipt may still be lost.
 */
module Anchor {
  import opened Wrappers

  type Hash = nat
  type TxId = nat
  type Address = nat

  /** The anchor columns of a passport's row, and the fingerprint of its data as it is now. */
  datatype Row = Row(draft: bool, current: Hash, stored: Option<Hash>, tx: Option<TxId>)

  /** What the registry holds for a registered passport. */
  datatype Entry = Entry(hash: Hash, owner: Address)

  datatype Action = Register | Update | Skip

  /** A job: the row it loaded, then what it decided from the registry, then its transaction. */
  datatype Job =
    | Loaded(hash: Hash, stored: Option<Hash>, seen: Option<TxId>)
    | Decided(action: Action, hash: Hash, stored: Option<Hash>, seen: Option<TxId>, owner: Address)
    | Submitted(hash: Hash, tx: TxId)
    | Recorded(hash: Hash, tx: TxId)

  /**
   * Everything about one passport. `held` are the fingerprints the registry
   * ever held for it, `log` the succeeded transactions with the fingerprint
   * each anchored, and `clearing` the reports that have changed the grade and
   * not yet marked the passport pending.
   */
  datatype World = World(
    row: Row, entry: Option<Entry>, held: set<Hash>, log: seq<(Hash, TxId)>, clearing: nat,
    jobs: seq<Job>, nextTx: TxId)

  /** What the registry decides is never taken from the database. */
  function DecideAnchorAction(entry: Option<Entry>, recomputed: Hash): Action {
    match entry
    case None => Register
    case Some(e) => if e.hash == recomputed then Skip else Update
  }

  // The registry's own rules.

  function RegistryRegister(entry: Option<Entry>, hash: Hash, signer: Address): Option<Entry> {
    if entry.None? then Some(Entry(hash, signer)) else None
  }

  function RegistryUpdate(entry: Option<Entry>, hash: Hash, signer: Address): Option<Entry> {
    if entry.Some? && entry.value.owner == signer then Some(Entry(hash, signer)) else None
  }

  // ---------------------------------------------------------------------------
  // Steps
  // ---------------------------------------------------------------------------

  datatype Step =
    | Activate
    | EditPassport(hash: Hash)
    | GradeWritten(hash: Hash)
    | GradeCleared
    | MarkedStale
    | JobStarts
    | JobReads(job: nat)
    | JobRepairs(job: nat)
    | JobSkips(job: nat)
    | JobSubmits(job: nat)
    | JobRecords(job: nat)
    | JobLogs(job: nat)
    | JobFails(job: nat)

  function Cleared(r: Row): Row { r.(stored := None, tx := None) }

  function PutJob(w: World, i: nat, j: Job): World
    requires i < |w.jobs|
  {
    w.(jobs := w.jobs[i := j])
  }

  function DropJob(w: World, i: nat): World
    requires i < |w.jobs|
  {
    w.(jobs := w.jobs[..i] + w.jobs[i + 1..])
  }

  /** The latest logged transaction that anchored this fingerprint. */
  function AnchoringTx(log: seq<(Hash, TxId)>, hash: Hash): Option<TxId> {
    if log == [] then None
    else if log[|log| - 1].0 == hash then Some(log[|log| - 1].1)
    else AnchoringTx(log[..|log| - 1], hash)
  }

  lemma LogGrows(log: seq<(Hash, TxId)>, e: (Hash, TxId), hash: Hash)
    ensures AnchoringTx(log + [e], hash) == if e.0 == hash then Some(e.1) else AnchoringTx(log, hash)
  {
    assert (log + [e])[..|log|] == log;
  }

  /** The registry already holds the fingerprint: restore the anchor columns from the log. */
  function Synced(w: World, hash: Hash, stored: Option<Hash>, seen: Option<TxId>): Row {
    if seen.Some? && stored == Some(hash) then w.row
    else
      var found := AnchoringTx(w.log, hash);
      w.row.(stored := Some(hash), tx := if found.Some? then found else seen)
  }

  /** What the registry answers a decided job, signed by the organisation's wallet. */
  function Answer(w: World, j: Job, wallet: Address): Option<Entry>
    requires j.Decided?
  {
    match j.action
    case Register => RegistryRegister(w.entry, j.hash, wallet)
    case Update => RegistryUpdate(w.entry, j.hash, wallet)
    case Skip => None
  }

  /** An update whose passport some other address owns is handed back to the organisation's wallet first. */
  predicate NeedsRepair(j: Job, wallet: Address) { j.Decided? && j.action.Update? && j.owner != wallet }

  predicate Enabled(w: World, wallet: Address, s: Step) {
    match s
    case Activate => w.row.draft
    case EditPassport(_) => true
    case GradeWritten(_) => !w.row.draft
    case GradeCleared => w.clearing > 0
    case MarkedStale => true
    case JobStarts => true
    case JobReads(i) => i < |w.jobs| && w.jobs[i].Loaded?
    case JobSkips(i) => i < |w.jobs| && w.jobs[i].Decided? && w.jobs[i].action.Skip?
    case JobRepairs(i) => i < |w.jobs| && NeedsRepair(w.jobs[i], wallet)
    case JobSubmits(i) =>
      i < |w.jobs| && w.jobs[i].Decided? && !w.jobs[i].action.Skip? && !NeedsRepair(w.jobs[i], wallet)
    case JobRecords(i) => i < |w.jobs| && w.jobs[i].Submitted?
    case JobLogs(i) => i < |w.jobs| && w.jobs[i].Recorded?
    case JobFails(i) => i < |w.jobs|
  }

  function Next(w: World, wallet: Address, s: Step): World
    requires Enabled(w, wallet, s)
  {
    match s
    case Activate => w.(row := w.row.(draft := false))
    // One update writes the data and clears the anchor columns.
    case EditPassport(h) => w.(row := Cleared(w.row).(current := h))
    // A report changes the grade in one update and marks the passport pending in another.
    case GradeWritten(h) => w.(row := w.row.(current := h), clearing := w.clearing + 1)
    case GradeCleared => w.(row := Cleared(w.row), clearing := w.clearing - 1)
    // The sweep marks by id, from rows it read earlier.
    case MarkedStale => w.(row := Cleared(w.row))
    case JobStarts => w.(jobs := w.jobs + [Loaded(w.row.current, w.row.stored, w.row.tx)])
    case JobReads(i) =>
      var j := w.jobs[i];
      PutJob(w, i, Decided(DecideAnchorAction(w.entry, j.hash), j.hash, j.stored, j.seen,
                           if w.entry.Some? then w.entry.value.owner else wallet))
    // The deployer transfers the passport; a registry without it refuses, and the job fails.
    case JobRepairs(i) =>
      if w.entry.None? then DropJob(w, i)
      else PutJob(w.(entry := Some(w.entry.value.(owner := wallet))), i, w.jobs[i].(owner := wallet))
    case JobSkips(i) =>
      var j := w.jobs[i];
      DropJob(w.(row := Synced(w, j.hash, j.stored, j.seen)), i)
    case JobSubmits(i) =>
      (match Answer(w, w.jobs[i], wallet)
       case None => DropJob(w, i)
       case Some(e) =>
         PutJob(w.(entry := Some(e), held := w.held + {e.hash}, nextTx := w.nextTx + 1), i,
                Submitted(w.jobs[i].hash, w.nextTx)))
    case JobRecords(i) =>
      var j := w.jobs[i];
      PutJob(w.(row := w.row.(stored := Some(j.hash), tx := Some(j.tx))), i, Recorded(j.hash, j.tx))
    case JobLogs(i) => DropJob(w.(log := w.log + [(w.jobs[i].hash, w.jobs[i].tx)]), i)
    case JobFails(i) => DropJob(w, i)
  }

  /** What people and the sweep may do whenever they like, and what that leaves of the row: a change clears the anchor. */
  lemma OutsideSteps(w: World, wallet: Address, hash: Hash)
    ensures Enabled(w, wallet, EditPassport(hash)) && Enabled(w, wallet, MarkedStale) && Enabled(w, wallet, JobStarts)
    ensures Enabled(w, wallet, Activate) <==> w.row.draft
    ensures Enabled(w, wallet, GradeWritten(hash)) <==> !w.row.draft
    ensures Enabled(w, wallet, GradeCleared) <==> w.clearing >= 1
    ensures Next(w, wallet, EditPassport(hash)) == w.(row := Row(w.row.draft, hash, None, None))
    ensures Next(w, wallet, MarkedStale) == w.(row := Row(w.row.draft, w.row.current, None, None))
    ensures w.row.draft ==>
              Next(w, wallet, Activate) == w.(row := Row(false, w.row.current, w.row.stored, w.row.tx))
  {
  }

  /** A report's two statements, one after the other, do what an edit does, and leave the same number to clear. */
  lemma GradeIsAnEdit(w: World, wallet: Address, hash: Hash)
    requires !w.row.draft
    ensures var graded := Next(w, wallet, GradeWritten(hash));
            && graded.row == Row(false, hash, w.row.stored, w.row.tx) && Enabled(graded, wallet, GradeCleared)
            && Next(graded, wallet, GradeCleared) == Next(w, wallet, EditPassport(hash))
  {
  }

  /** A run: each step is taken when it is enabled, and passed over when it is not. */
  function Run(w: World, wallet: Address, steps: seq<Step>): World {
    if steps == [] then w
    else
      var n := |steps| - 1;
      var before := Run(w, wallet, steps[..n]);
      if Enabled(before, wallet, steps[n]) then Next(before, wallet, steps[n]) else before
  }

  /** Jobs of one passport follow one another: none starts while another is under way. */
  ghost predicate JobsApart(w: World, wallet: Address, steps: seq<Step>) {
    forall k :: 0 <= k < |steps| && steps[k].JobStarts? ==> Run(w, wallet, steps[..k]).jobs == []
  }

  // ---------------------------------------------------------------------------
  // Honesty: what a row with a transaction claims, the registry really held
  // ---------------------------------------------------------------------------

  ghost predicate JobHonest(w: World, j: Job) {
    match j
    case Loaded(_, stored, seen) => seen.Some? ==> stored.Some? && stored.value in w.held
    case Decided(action, hash, stored, seen, _) =>
      && (seen.Some? ==> stored.Some? && stored.value in w.held)
      && (action.Skip? ==> hash in w.held)
    case Submitted(hash, _) => hash in w.held
    case Recorded(hash, _) => hash in w.held
  }

  ghost predicate Honest(w: World) {
    && (w.row.tx.Some? ==> w.row.stored.Some? && w.row.stored.value in w.held)
    && (w.entry.Some? ==> w.entry.value.hash in w.held)
    && (forall e :: e in w.log ==> e.0 in w.held)
    && (forall i :: 0 <= i < |w.jobs| ==> JobHonest(w, w.jobs[i]))
  }

  lemma SubmitHonest(w: World, wallet: Address, i: nat)
    requires Honest(w) && Enabled(w, wallet, JobSubmits(i))
    ensures Honest(Next(w, wallet, JobSubmits(i)))
  {
    assert JobHonest(w, w.jobs[i]);
  }

  lemma SkipHonest(w: World, wallet: Address, i: nat)
    requires Honest(w) && Enabled(w, wallet, JobSkips(i))
    ensures Honest(Next(w, wallet, JobSkips(i)))
  {
    assert JobHonest(w, w.jobs[i]);
  }

  lemma RecordHonest(w: World, wallet: Address, i: nat)
    requires Honest(w) && Enabled(w, wallet, JobRecords(i))
    ensures Honest(Next(w, wallet, JobRecords(i)))
  {
    assert JobHonest(w, w.jobs[i]);
  }

  lemma LogHonest(w: World, wallet: Address, i: nat)
    requires Honest(w) && Enabled(w, wallet, JobLogs(i))
    ensures Honest(Next(w, wallet, JobLogs(i)))
  {
    assert JobHonest(w, w.jobs[i]);
  }

  /** The job's steps that write nothing but the registry's owner. */
  lemma LookHonest(w: World, wallet: Address, s: Step)
    requires Honest(w) && Enabled(w, wallet, s) && (s.JobReads? || s.JobRepairs? || s.JobFails?)
    ensures Honest(Next(w, wallet, s))
  {
    match s
    case JobReads(i) => assert JobHonest(w, w.jobs[i]);
    case JobRepairs(i) => assert JobHonest(w, w.jobs[i]);
    case JobFails(_) =>
  }

  lemma NextHonest(w: World, wallet: Address, s: Step)
    requires Honest(w) && Enabled(w, wallet, s)
    ensures Honest(Next(w, wallet, s))
  {
    match s
    case JobSkips(i) => SkipHonest(w, wallet, i);
    case JobSubmits(i) => SubmitHonest(w, wallet, i);
    case JobRecords(i) => RecordHonest(w, wallet, i);
    case JobLogs(i) => LogHonest(w, wallet, i);
    case JobReads(_) => LookHonest(w, wallet, s);
    case JobRepairs(_) => LookHonest(w, wallet, s);
    case JobFails(_) => LookHonest(w, wallet, s);
    case _ =>
  }

  /**
   * In every interleaving whatever, jobs overlapping or not, a passport with a
   * transaction stores a fingerprint the registry held.
   */
  lemma {:induction false} AnchorsAreHonest(w: World, wallet: Address, steps: seq<Step>)
    requires Honest(w)
    ensures Honest(Run(w, wallet, steps))
  {
    if steps != [] {
      var n := |steps| - 1;
      AnchorsAreHonest(w, wallet, steps[..n]);
      if Enabled(Run(w, wallet, steps[..n]), wallet, steps[n]) {
        NextHonest(Run(w, wallet, steps[..n]), wallet, steps[n]);
      }
    }
  }

  // ---------------------------------------------------------------------------
  // Jobs apart: a row that looks anchored is
  // ---------------------------------------------------------------------------

  ghost predicate LooksAnchored(w: World) {
    w.row.tx.Some? && w.row.stored == Some(w.row.current) && w.clearing == 0
  }

  /** The only job, and what it knows of the registry that nobody else changes. */
  ghost predicate LoneJob(w: World, wallet: Address, j: Job) {
    match j
    case Loaded(hash, _, _) => LooksAnchored(w) ==> hash == w.row.current
    case Decided(action, hash, _, _, owner) =>
      && action == DecideAnchorAction(w.entry, hash)
      && (w.entry.Some? ==> owner == w.entry.value.owner)
      && (LooksAnchored(w) ==> hash == w.row.current)
    case Submitted(hash, _) => w.entry == Some(Entry(hash, wallet)) && (LooksAnchored(w) ==> hash == w.row.current)
    case Recorded(hash, _) => w.entry == Some(Entry(hash, wallet))
  }

  ghost predicate Sound(w: World, wallet: Address) {
    && |w.jobs| <= 1
    && (LooksAnchored(w) ==> w.entry.Some? && w.entry.value.hash == w.row.current)
    && (|w.jobs| == 1 ==> LoneJob(w, wallet, w.jobs[0]))
  }

  lemma NextSound(w: World, wallet: Address, s: Step)
    requires Sound(w, wallet) && Enabled(w, wallet, s) && (s.JobStarts? ==> w.jobs == [])
    ensures Sound(Next(w, wallet, s), wallet)
  {
  }

  /**
   * A lone job never registers a registered passport, nor updates one its wallet does
   * not own: the registry accepts it.
   */
  lemma RegistryNeverRefuses(w: World, wallet: Address)
    requires Sound(w, wallet) && Enabled(w, wallet, JobSubmits(0))
    ensures Answer(w, w.jobs[0], wallet) == Some(Entry(w.jobs[0].hash, wallet))
  {
  }

  lemma {:induction false} JobsApartStaySound(w: World, wallet: Address, steps: seq<Step>)
    requires Sound(w, wallet) && JobsApart(w, wallet, steps)
    ensures Sound(Run(w, wallet, steps), wallet)
  {
    if steps != [] {
      var n := |steps| - 1;
      forall k | 0 <= k < n && steps[..n][k].JobStarts?
        ensures Run(w, wallet, steps[..n][..k]).jobs == []
      {
        assert steps[..n][..k] == steps[..k];
      }
      JobsApartStaySound(w, wallet, steps[..n]);
      if Enabled(Run(w, wallet, steps[..n]), wallet, steps[n]) {
        NextSound(Run(w, wallet, steps[..n]), wallet, steps[n]);
      }
    }
  }

  // ---------------------------------------------------------------------------
  // The sweep
  // ---------------------------------------------------------------------------

  /** An anchored passport whose data no longer matches is marked pending. */
  function Reconciled(w: World): World {
    if w.row.tx.Some? && w.row.stored != Some(w.row.current) then w.(row := Cleared(w.row)) else w
  }

  predicate Unanchored(w: World) { w.row.tx.None? && !w.row.draft }

  /** A job that starts with no other under way, and that the chain answers throughout. */
  function JobRun(w: World, wallet: Address): World
    requires w.jobs == []
  {
    var w1 := Next(w, wallet, JobStarts);
    var w2 := Next(w1, wallet, JobReads(0));
    if w2.jobs[0].action.Skip? then Next(w2, wallet, JobSkips(0))
    else
      var w3 := if NeedsRepair(w2.jobs[0], wallet) then Next(w2, wallet, JobRepairs(0)) else w2;
      var w4 := Next(w3, wallet, JobSubmits(0));
      var w5 := Next(w4, wallet, JobRecords(0));
      Next(w5, wallet, JobLogs(0))
  }

  /**
   * What a job alone makes of a passport: stored, recomputed and registered
   * fingerprints agree. If the registry held the fingerprint already, only the
   * row changes, and its transaction is the logged one where there is one; if
   * not, one transaction signed by the organisation's wallet is in the
   * registry, the log and the row.
   */
  ghost predicate JobDone(w: World, t: World, wallet: Address) {
    var hash := w.row.current;
    && t.jobs == [] && t.clearing == w.clearing && t.row.draft == w.row.draft && t.row.current == hash
    && t.row.stored == Some(hash) && t.entry.Some? && t.entry.value.hash == hash
    && (if w.entry.Some? && w.entry.value.hash == hash then
          && t.entry == w.entry && t.held == w.held && t.log == w.log && t.nextTx == w.nextTx
          && t.row.tx == if (w.row.tx.Some? && w.row.stored == Some(hash)) || AnchoringTx(w.log, hash).None? then w.row.tx
                         else AnchoringTx(w.log, hash)
        else
          && t.entry.value.owner == wallet && t.held == w.held + {hash} && t.nextTx == w.nextTx + 1
          && t.log == w.log + [(hash, w.nextTx)] && t.row.tx == Some(w.nextTx))
  }

  lemma JobRunIsDone(w: World, wallet: Address)
    requires w.jobs == []
    ensures JobDone(w, JobRun(w, wallet), wallet)
  {
    if w.entry.Some? && w.entry.value.hash == w.row.current {
      KnownJobIsDone(w, wallet);
    } else {
      NewJobIsDone(w, wallet);
    }
  }

  lemma KnownJobIsDone(w: World, wallet: Address)
    requires w.jobs == [] && w.entry.Some? && w.entry.value.hash == w.row.current
    ensures JobDone(w, JobRun(w, wallet), wallet)
  {
    var w2 := Next(Next(w, wallet, JobStarts), wallet, JobReads(0));
    assert w2.jobs == [Decided(Skip, w.row.current, w.row.stored, w.row.tx, w.entry.value.owner)];
  }

  lemma NewJobIsDone(w: World, wallet: Address)
    requires w.jobs == [] && (w.entry.Some? ==> w.entry.value.hash != w.row.current)
    ensures JobDone(w, JobRun(w, wallet), wallet)
  {
    var w2 := Next(Next(w, wallet, JobStarts), wallet, JobReads(0));
    var w3 := if NeedsRepair(w2.jobs[0], wallet) then Next(w2, wallet, JobRepairs(0)) else w2;
    assert |w3.jobs| == 1 && w3.jobs[0].Decided? && !w3.jobs[0].action.Skip? && w3.jobs[0].hash == w.row.current;
    var w4 := Next(w3, wallet, JobSubmits(0));
    assert w4.jobs == [Submitted(w.row.current, w.nextTx)];
    var w5 := Next(w4, wallet, JobRecords(0));
    assert w5.jobs == [Recorded(w.row.current, w.nextTx)];
  }

  /** That is all there is to a passport. */
  lemma JobDoneIsOneOutcome(w: World, t: World, u: World, wallet: Address)
    requires JobDone(w, t, wallet) && JobDone(w, u, wallet)
    ensures t == u
  {
  }

  /** One sweep of one passport: reconcile, queue if unanchored, and drain. */
  function Swept(w: World, wallet: Address): World
    requires w.jobs == []
  {
    var r := Reconciled(w);
    if Unanchored(r) then JobRun(r, wallet) else r
  }

  /** Stored, recomputed and registered fingerprints agree, with a transaction to show for it. */
  predicate Converged(w: World) {
    && w.row.tx.Some? && w.row.stored == Some(w.row.current)
    && w.entry.Some? && w.entry.value.hash == w.row.current
  }

  /** The registry holds the current fingerprint but no transaction in the log says so. */
  ghost predicate LostReceipt(w: World) {
    && w.entry.Some? && w.entry.value.hash == w.row.current
    && AnchoringTx(w.log, w.row.current).None?
  }

  /**
   * Once edits have stopped, with no job under way and the chain answering,
   * one sweep converges a passport exactly when it does not have to restore an
   * anchor whose receipt was lost.
   */
  lemma SweepConverges(w: World, wallet: Address)
    requires Sound(w, wallet) && w.jobs == [] && w.clearing == 0 && !w.row.draft
    ensures Converged(Swept(w, wallet)) <==> (Reconciled(w).row.tx.Some? || !LostReceipt(w))
    ensures Swept(w, wallet).jobs == [] && Swept(w, wallet).row.current == w.row.current
  {
    var r := Reconciled(w);
    if Unanchored(r) {
      var w2 := Next(Next(r, wallet, JobStarts), wallet, JobReads(0));
      assert w2.jobs[0].Decided? && w2.jobs[0].hash == w.row.current;
    }
  }

  /** Sweeping a converged passport, or running a job left in the queue for it, changes nothing. */
  lemma ConvergedStays(w: World, wallet: Address)
    requires Converged(w) && w.jobs == []
    ensures Swept(w, wallet) == w && JobRun(w, wallet) == w
  {
    var w2 := Next(Next(w, wallet, JobStarts), wallet, JobReads(0));
    assert w2.jobs == [Decided(Skip, w.row.current, w.row.stored, w.row.tx, w.entry.value.owner)];
    assert w2.(jobs := []) == w;
  }

  /** After a lost receipt no number of sweeps brings the transaction back: only another edit does. */
  lemma LostReceiptStays(w: World, wallet: Address)
    requires w.jobs == [] && Unanchored(w) && LostReceipt(w)
    ensures var t := Swept(w, wallet); t.jobs == [] && Unanchored(t) && LostReceipt(t) && Swept(t, wallet) == t
  {
    var w2 := Next(Next(w, wallet, JobStarts), wallet, JobReads(0));
    assert w2.jobs == [Decided(Skip, w.row.current, w.row.stored, None, w.entry.value.owner)];
    var t := Swept(w, wallet);
    assert t == w.(row := w.row.(stored := Some(w.row.current)));
    var t2 := Next(Next(t, wallet, JobStarts), wallet, JobReads(0));
    assert t2.jobs == [Decided(Skip, t.row.current, t.row.stored, None, t.entry.value.owner)];
  }

  /**
   * A lone job that has decided on an update, and the same passport after its
   * transaction went in and its wait failed.
   */
  const DECIDED := World(
    Row(false, 1, None, None), Some(Entry(0, 9)), {0}, [(0, 0)], 0, [Decided(Update, 1, None, None, 9)], 1)
  const LOST := World(Row(false, 1, None, None), Some(Entry(1, 9)), {0, 1}, [(0, 0)], 0, [], 2)

  lemma DecideAlone() returns (steps: seq<Step>)
    ensures steps == [EditPassport(1), JobStarts, JobReads(0)] && Run(ANCHORED, 9, steps) == DECIDED
    ensures Run(ANCHORED, 9, steps[..1]).jobs == []
  {
    assert Run(ANCHORED, 9, []) == ANCHORED;
    var first, w := Then(ANCHORED, 9, [], ANCHORED, EditPassport(1));
    steps, w := Then(ANCHORED, 9, first, w, JobStarts);
    assert w.jobs == [Loaded(1, None, None)];
    steps, w := Then(ANCHORED, 9, steps, w, JobReads(0));
    assert w.jobs == [Decided(Update, 1, None, None, 9)];
    assert steps[..1] == first;
  }

  lemma LoseReceipt(steps: seq<Step>) returns (more: seq<Step>)
    requires Run(ANCHORED, 9, steps) == DECIDED
    ensures more == steps + [JobSubmits(0), JobFails(0)] && Run(ANCHORED, 9, more) == LOST
  {
    var w;
    more, w := Then(ANCHORED, 9, steps, DECIDED, JobSubmits(0));
    assert w.jobs == [Submitted(1, 1)];
    more, w := Then(ANCHORED, 9, more, w, JobFails(0));
    assert w.jobs == [];
  }

  /** A receipt can be lost with a single job: the registry takes the transaction, the wait for it fails. */
  lemma ReceiptCanBeLost()
    ensures exists steps ::
              var t := Run(ANCHORED, 9, steps);
              JobsApart(ANCHORED, 9, steps) && t.jobs == [] && t.clearing == 0 && Unanchored(t) && LostReceipt(t)
  {
    var first := DecideAlone();
    var steps := LoseReceipt(first);
    assert steps[..1] == first[..1];
    assert JobsApart(ANCHORED, 9, steps);
    assert AnchoringTx([(0, 0)], 1) == AnchoringTx([], 1);
  }

  // Receipts that are not lost keep the log complete.

  ghost predicate Logged(w: World) {
    w.entry.Some? ==>
      || AnchoringTx(w.log, w.entry.value.hash).Some?
      || (exists i :: 0 <= i < |w.jobs| && (w.jobs[i].Submitted? || w.jobs[i].Recorded?)
                      && w.jobs[i].hash == w.entry.value.hash)
  }

  /** No job fails between its transaction and its log entry. */
  ghost predicate ReceiptsArrive(w: World, wallet: Address, steps: seq<Step>) {
    forall k :: 0 <= k < |steps| && steps[k].JobFails? ==>
      var before := Run(w, wallet, steps[..k]);
      steps[k].job < |before.jobs| ==> before.jobs[steps[k].job].Loaded? || before.jobs[steps[k].job].Decided?
  }

  lemma NextLogged(w: World, wallet: Address, s: Step)
    requires Logged(w) && |w.jobs| <= 1 && Enabled(w, wallet, s) && (s.JobStarts? ==> w.jobs == [])
    requires s.JobFails? ==> w.jobs[s.job].Loaded? || w.jobs[s.job].Decided?
    requires Sound(w, wallet)
    ensures Logged(Next(w, wallet, s))
  {
    var t := Next(w, wallet, s);
    match s
    case JobSubmits(i) =>
      RegistryNeverRefuses(w, wallet);
      assert t.jobs[0].Submitted? && t.jobs[0].hash == t.entry.value.hash;
    case JobRecords(i) => assert t.jobs[0].Recorded? && t.jobs[0].hash == w.jobs[0].hash;
    case JobLogs(i) =>
      LogGrows(w.log, (w.jobs[0].hash, w.jobs[0].tx), t.entry.value.hash);
    case JobReads(i) => assert t.jobs[0].Decided?;
    case JobRepairs(i) => assert t.jobs[0].Decided?;
    case JobStarts => assert w.jobs == [];
    case _ =>
  }

  lemma {:induction false} LogStaysComplete(w: World, wallet: Address, steps: seq<Step>)
    requires Sound(w, wallet) && Logged(w) && JobsApart(w, wallet, steps) && ReceiptsArrive(w, wallet, steps)
    ensures Logged(Run(w, wallet, steps)) && Sound(Run(w, wallet, steps), wallet)
  {
    JobsApartStaySound(w, wallet, steps);
    if steps != [] {
      var n := |steps| - 1;
      forall k | 0 <= k < n
        ensures Run(w, wallet, steps[..n][..k]) == Run(w, wallet, steps[..k])
      {
        assert steps[..n][..k] == steps[..k];
      }
      LogStaysComplete(w, wallet, steps[..n]);
      var before := Run(w, wallet, steps[..n]);
      if Enabled(before, wallet, steps[n]) {
        NextLogged(before, wallet, steps[n]);
      }
    }
  }

  /**
   * Convergence: after any run of edits, reports and jobs, jobs apart and
   * receipts arriving, one sweep brings a registered passport to agreement,
   * and later sweeps change nothing.
   */
  lemma OneSweepConverges(w: World, wallet: Address, steps: seq<Step>)
    requires Sound(w, wallet) && Logged(w) && JobsApart(w, wallet, steps) && ReceiptsArrive(w, wallet, steps)
    requires var q := Run(w, wallet, steps); q.jobs == [] && q.clearing == 0 && !q.row.draft
    ensures var t := Swept(Run(w, wallet, steps), wallet);
            Converged(t) && t.jobs == [] && Swept(t, wallet) == t
  {
    LogStaysComplete(w, wallet, steps);
    var q := Run(w, wallet, steps);
    SweepConverges(q, wallet);
    ConvergedStays(Swept(q, wallet), wallet);
  }

  // ---------------------------------------------------------------------------
  // Overlapping jobs
  // ---------------------------------------------------------------------------

  lemma Then(w: World, wallet: Address, steps: seq<Step>, at: World, s: Step) returns (longer: seq<Step>, next: World)
    requires Run(w, wallet, steps) == at && Enabled(at, wallet, s)
    ensures longer == steps + [s] && next == Next(at, wallet, s) && Run(w, wallet, longer) == next
  {
    longer, next := steps + [s], Next(at, wallet, s);
    assert longer[..|steps|] == steps;
  }

  const ANCHORED := World(Row(false, 0, Some(0), Some(0)), Some(Entry(0, 9)), {0}, [(0, 0)], 0, [], 1)

  /** Two jobs have read the registry, the first before an edit and the second after it. */
  const BOTH_DECIDED := World(
    Row(false, 2, None, None), Some(Entry(0, 9)), {0}, [(0, 0)], 0,
    [Decided(Update, 1, None, None, 9), Decided(Update, 2, None, None, 9)], 1)

  /** The second submits first, so the registry ends with the first one's fingerprint. */
  const BOTH_SUBMITTED := World(
    Row(false, 2, None, None), Some(Entry(1, 9)), {0, 2, 1}, [(0, 0)], 0, [Submitted(1, 2), Submitted(2, 1)], 3)

  /** The second records last, so the row ends with the second one's. */
  const DISAGREED := World(
    Row(false, 2, Some(2), Some(1)), Some(Entry(1, 9)), {0, 2, 1}, [(0, 0), (1, 2), (2, 1)], 0, [], 3)

  lemma BothDecide() returns (steps: seq<Step>)
    ensures Run(ANCHORED, 9, steps) == BOTH_DECIDED
  {
    assert Run(ANCHORED, 9, []) == ANCHORED;
    var w;
    steps, w := Then(ANCHORED, 9, [], ANCHORED, EditPassport(1));
    steps, w := Then(ANCHORED, 9, steps, w, JobStarts);
    assert w.jobs == [Loaded(1, None, None)];
    steps, w := Then(ANCHORED, 9, steps, w, JobReads(0));
    assert w.jobs == [Decided(Update, 1, None, None, 9)];
    steps, w := Then(ANCHORED, 9, steps, w, EditPassport(2));
    steps, w := Then(ANCHORED, 9, steps, w, JobStarts);
    assert w.jobs == [Decided(Update, 1, None, None, 9), Loaded(2, None, None)];
    steps, w := Then(ANCHORED, 9, steps, w, JobReads(1));
    assert w.jobs == BOTH_DECIDED.jobs;
  }

  lemma BothSubmit(steps: seq<Step>) returns (more: seq<Step>)
    requires Run(ANCHORED, 9, steps) == BOTH_DECIDED
    ensures Run(ANCHORED, 9, more) == BOTH_SUBMITTED
  {
    var w;
    more, w := Then(ANCHORED, 9, steps, BOTH_DECIDED, JobSubmits(1));
    assert w.jobs == [Decided(Update, 1, None, None, 9), Submitted(2, 1)];
    more, w := Then(ANCHORED, 9, more, w, JobSubmits(0));
    assert w.jobs == BOTH_SUBMITTED.jobs;
  }

  lemma BothRecord(steps: seq<Step>) returns (more: seq<Step>)
    requires Run(ANCHORED, 9, steps) == BOTH_SUBMITTED
    ensures Run(ANCHORED, 9, more) == DISAGREED
  {
    var w;
    more, w := Then(ANCHORED, 9, steps, BOTH_SUBMITTED, JobRecords(0));
    assert w.jobs == [Recorded(1, 2), Submitted(2, 1)];
    more, w := Then(ANCHORED, 9, more, w, JobRecords(1));
    assert w.jobs == [Recorded(1, 2), Recorded(2, 1)];
    more, w := Then(ANCHORED, 9, more, w, JobLogs(0));
    assert w.jobs == [Recorded(2, 1)];
    more, w := Then(ANCHORED, 9, more, w, JobLogs(0));
    assert w.jobs == [];
  }

  /**
   * Two jobs of one passport at once can leave the row vouching for a
   * fingerprint the registry does not hold, and no sweep notices.
   */
  lemma OverlapCanDisagree()
    ensures exists steps ::
              var t := Run(ANCHORED, 9, steps);
              && t.jobs == [] && t.clearing == 0 && LooksAnchored(t)
              && t.entry.Some? && t.entry.value.hash != t.row.current
              && Swept(t, 9) == t
  {
    var steps := BothDecide();
    steps := BothSubmit(steps);
    steps := BothRecord(steps);
  }
}
