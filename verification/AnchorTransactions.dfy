/**
 * Whether the transaction a passport's row shows is one that anchored the
 * fingerprint beside it: exactly when no job restores an anchor from a log
 * that lacks it.
 */
module AnchorTransactions {
  import opened Wrappers
  import opened Anchor
  import opened AnchorOverlap

  /** The transactions the registry accepted in a run, each with the fingerprint it anchored. */
  ghost function AcceptedIn(w: World, wallet: Address, steps: seq<Step>): set<(Hash, TxId)> {
    if steps == [] then {}
    else
      var n := |steps| - 1;
      var before := Run(w, wallet, steps[..n]);
      AcceptedIn(w, wallet, steps[..n]) + AcceptedNow(before, wallet, steps[n])
  }

  function AcceptedNow(w: World, wallet: Address, s: Step): set<(Hash, TxId)> {
    if Enabled(w, wallet, s) && s.JobSubmits? && Answer(w, w.jobs[s.job], wallet).Some?
    then {(w.jobs[s.job].hash, w.nextTx)} else {}
  }

  /** The row's transaction is one that anchored the row's fingerprint. */
  predicate TrueTx(w: World, accepted: set<(Hash, TxId)>) {
    w.row.tx.Some? ==> w.row.stored.Some? && (w.row.stored.value, w.row.tx.value) in accepted
  }

  /** A step that would restore an anchor, knowing an older transaction, from a log without the one it needs. */
  predicate RestoresBlindly(w: World, wallet: Address, s: Step) {
    && Enabled(w, wallet, s) && s.JobSkips? && WritesRow(w, s).Some?
    && w.jobs[s.job].seen.Some? && AnchoringTx(w.log, w.jobs[s.job].hash).None?
  }

  ghost predicate TrueThroughout(w: World, wallet: Address, steps: seq<Step>) {
    TrueTx(Run(w, wallet, steps), AcceptedIn(w, wallet, steps))
    && (steps == [] || TrueThroughout(w, wallet, steps[..|steps| - 1]))
  }

  ghost predicate NeverBlind(w: World, wallet: Address, steps: seq<Step>) {
    steps == [] ||
    (var n := |steps| - 1;
     NeverBlind(w, wallet, steps[..n]) && !RestoresBlindly(Run(w, wallet, steps[..n]), wallet, steps[n]))
  }

  // ---------------------------------------------------------------------------
  // While no job restores blindly
  // ---------------------------------------------------------------------------

  predicate JobTrue(j: Job, accepted: set<(Hash, TxId)>) {
    match j
    case Loaded(_, stored, seen) => seen.Some? ==> stored.Some? && (stored.value, seen.value) in accepted
    case Decided(_, _, stored, seen, _) => seen.Some? ==> stored.Some? && (stored.value, seen.value) in accepted
    case Submitted(hash, tx) => (hash, tx) in accepted
    case Recorded(hash, tx) => (hash, tx) in accepted
  }

  ghost predicate AllTrue(w: World, accepted: set<(Hash, TxId)>) {
    && TrueTx(w, accepted)
    && (forall e :: e in w.log ==> e in accepted)
    && (forall i :: 0 <= i < |w.jobs| ==> JobTrue(w.jobs[i], accepted))
    // A transaction anchors one fingerprint, and the next one is new.
    && (forall a :: a in accepted ==> a.1 < w.nextTx)
    && (forall a, b :: a in accepted && b in accepted && a.1 == b.1 ==> a == b)
  }

  lemma {:induction false} FoundInLog(log: seq<(Hash, TxId)>, hash: Hash)
    ensures AnchoringTx(log, hash).Some? ==> (hash, AnchoringTx(log, hash).value) in log
  {
    if log != [] && log[|log| - 1].0 != hash {
      FoundInLog(log[..|log| - 1], hash);
    }
  }

  lemma SubmitTrue(w: World, wallet: Address, i: nat, accepted: set<(Hash, TxId)>)
    requires AllTrue(w, accepted) && Enabled(w, wallet, JobSubmits(i))
    ensures AllTrue(Next(w, wallet, JobSubmits(i)), accepted + AcceptedNow(w, wallet, JobSubmits(i)))
  {
    assert JobTrue(w.jobs[i], accepted);
  }

  /** Restoring an anchor keeps the row true exactly when it does not do so blindly. */
  lemma SkipTrue(w: World, wallet: Address, i: nat, accepted: set<(Hash, TxId)>)
    requires AllTrue(w, accepted) && Enabled(w, wallet, JobSkips(i))
    ensures TrueTx(Next(w, wallet, JobSkips(i)), accepted) <==> !RestoresBlindly(w, wallet, JobSkips(i))
    ensures !RestoresBlindly(w, wallet, JobSkips(i)) ==> AllTrue(Next(w, wallet, JobSkips(i)), accepted)
  {
    var j := w.jobs[i];
    assert JobTrue(j, accepted);
    FoundInLog(w.log, j.hash);
    if RestoresBlindly(w, wallet, JobSkips(i)) {
      assert (j.stored.value, j.seen.value) in accepted && j.stored.value != j.hash;
    }
  }

  lemma OtherStepTrue(w: World, wallet: Address, s: Step, accepted: set<(Hash, TxId)>)
    requires AllTrue(w, accepted) && Enabled(w, wallet, s) && !s.JobSubmits? && !s.JobSkips?
    ensures AllTrue(Next(w, wallet, s), accepted)
  {
    match s
    case JobReads(i) => assert JobTrue(w.jobs[i], accepted);
    case JobRepairs(i) => assert JobTrue(w.jobs[i], accepted);
    case JobRecords(i) => assert JobTrue(w.jobs[i], accepted);
    case JobLogs(i) => assert JobTrue(w.jobs[i], accepted);
    case _ =>
  }

  lemma NextTrue(w: World, wallet: Address, s: Step, accepted: set<(Hash, TxId)>)
    requires AllTrue(w, accepted) && Enabled(w, wallet, s)
    ensures var t, now := Next(w, wallet, s), accepted + AcceptedNow(w, wallet, s);
            && (TrueTx(t, now) <==> !RestoresBlindly(w, wallet, s))
            && (!RestoresBlindly(w, wallet, s) ==> AllTrue(t, now))
  {
    assert !s.JobSubmits? ==> accepted + AcceptedNow(w, wallet, s) == accepted;
    match s
    case JobSubmits(i) => SubmitTrue(w, wallet, i, accepted);
    case JobSkips(i) => SkipTrue(w, wallet, i, accepted);
    case _ => OtherStepTrue(w, wallet, s, accepted);
  }

  lemma {:induction false} NeverBlindIsTrue(w: World, wallet: Address, steps: seq<Step>)
    requires Fresh(w) && NeverBlind(w, wallet, steps)
    ensures AllTrue(Run(w, wallet, steps), AcceptedIn(w, wallet, steps))
  {
    if steps != [] {
      var n := |steps| - 1;
      NeverBlindIsTrue(w, wallet, steps[..n]);
      var before := Run(w, wallet, steps[..n]);
      if Enabled(before, wallet, steps[n]) {
        NextTrue(before, wallet, steps[n], AcceptedIn(w, wallet, steps[..n]));
      } else {
        assert AcceptedIn(w, wallet, steps) == AcceptedIn(w, wallet, steps[..n]);
      }
    }
  }

  /**
   * Over every interleaving from a passport's creation, the row's transaction
   * is at every point one that anchored the row's fingerprint, exactly when
   * every job that restores an anchor while knowing an older transaction
   * finds the fingerprint in the log.
   */
  lemma {:induction false} TransactionIsTrueWhen(w: World, wallet: Address, steps: seq<Step>)
    requires Fresh(w)
    ensures TrueThroughout(w, wallet, steps) <==> NeverBlind(w, wallet, steps)
  {
    if steps != [] {
      var n := |steps| - 1;
      TransactionIsTrueWhen(w, wallet, steps[..n]);
      if NeverBlind(w, wallet, steps[..n]) {
        NeverBlindIsTrue(w, wallet, steps[..n]);
        var before := Run(w, wallet, steps[..n]);
        if Enabled(before, wallet, steps[n]) {
          NextTrue(before, wallet, steps[n], AcceptedIn(w, wallet, steps[..n]));
        } else {
          assert AcceptedIn(w, wallet, steps) == AcceptedIn(w, wallet, steps[..n]);
        }
      }
    }
  }

  /** A lone job that finds its fingerprint registered finds it logged. */
  lemma LoneSkipSees(w: World, wallet: Address, s: Step)
    requires Sound(w, wallet) && Logged(w)
    ensures !RestoresBlindly(w, wallet, s)
  {
  }

  lemma FreshIsSound(w: World, wallet: Address)
    requires Fresh(w)
    ensures Sound(w, wallet) && Logged(w)
  {
  }

  lemma SoFarApart(w: World, wallet: Address, steps: seq<Step>)
    requires steps != [] && JobsApart(w, wallet, steps) && ReceiptsArrive(w, wallet, steps)
    ensures JobsApart(w, wallet, steps[..|steps| - 1]) && ReceiptsArrive(w, wallet, steps[..|steps| - 1])
  {
    var before := steps[..|steps| - 1];
    forall k | 0 <= k < |before|
      ensures before[k] == steps[k] && Run(w, wallet, before[..k]) == Run(w, wallet, steps[..k])
    {
      assert before[..k] == steps[..k];
    }
  }

  /** Jobs kept apart whose receipts arrive never restore blindly. */
  lemma {:induction false} ApartIsNeverBlind(w: World, wallet: Address, steps: seq<Step>)
    requires Fresh(w) && JobsApart(w, wallet, steps) && ReceiptsArrive(w, wallet, steps)
    ensures NeverBlind(w, wallet, steps)
  {
    if steps != [] {
      var n := |steps| - 1;
      SoFarApart(w, wallet, steps);
      ApartIsNeverBlind(w, wallet, steps[..n]);
      FreshIsSound(w, wallet);
      LogStaysComplete(w, wallet, steps[..n]);
      LoneSkipSees(Run(w, wallet, steps[..n]), wallet, steps[n]);
    }
  }

  /** So with jobs apart and receipts arriving the row's transaction is always the one that anchored its fingerprint. */
  lemma ApartIsTrue(w: World, wallet: Address, steps: seq<Step>)
    requires Fresh(w) && JobsApart(w, wallet, steps) && ReceiptsArrive(w, wallet, steps)
    ensures TrueTx(Run(w, wallet, steps), AcceptedIn(w, wallet, steps))
  {
    ApartIsNeverBlind(w, wallet, steps);
    NeverBlindIsTrue(w, wallet, steps);
  }

  // ---------------------------------------------------------------------------
  // A run that restores blindly
  // ---------------------------------------------------------------------------

  const CREATED := World(Row(false, 0, None, None), None, {}, [], 0, [], 0)

  /** Anchored with fingerprint 0 by transaction 0, then regraded, before the grade's second update. */
  const REGRADED := World(Row(false, 1, Some(0), Some(0)), Some(Entry(0, 9)), {0}, [(0, 0)], 1, [], 1)

  /** The registry took the new fingerprint and the receipt was lost; the next job knows the old transaction. */
  const KNOWS_THE_OLD := World(
    Row(false, 1, Some(0), Some(0)), Some(Entry(1, 9)), {0, 1}, [(0, 0)], 1,
    [Decided(Skip, 1, Some(0), Some(0), 9)], 2)

  lemma AnchorThenRegrade() returns (steps: seq<Step>)
    ensures Run(CREATED, 9, steps) == REGRADED
  {
    var w;
    assert Run(CREATED, 9, []) == CREATED;
    steps, w := Then(CREATED, 9, [], CREATED, JobStarts);
    assert w.jobs == [Loaded(0, None, None)];
    steps, w := Then(CREATED, 9, steps, w, JobReads(0));
    assert w.jobs == [Decided(Register, 0, None, None, 9)];
    steps, w := Then(CREATED, 9, steps, w, JobSubmits(0));
    assert w.jobs == [Submitted(0, 0)];
    steps, w := Then(CREATED, 9, steps, w, JobRecords(0));
    assert w.jobs == [Recorded(0, 0)];
    steps, w := Then(CREATED, 9, steps, w, JobLogs(0));
    steps, w := Then(CREATED, 9, steps, w, GradeWritten(1));
  }

  lemma LoseTheReceipt(steps: seq<Step>) returns (more: seq<Step>)
    requires Run(CREATED, 9, steps) == REGRADED
    ensures Run(CREATED, 9, more) == KNOWS_THE_OLD
  {
    var w;
    more, w := Then(CREATED, 9, steps, REGRADED, JobStarts);
    assert w.jobs == [Loaded(1, Some(0), Some(0))];
    more, w := Then(CREATED, 9, more, w, JobReads(0));
    assert w.jobs == [Decided(Update, 1, Some(0), Some(0), 9)];
    more, w := Then(CREATED, 9, more, w, JobSubmits(0));
    assert w.jobs == [Submitted(1, 1)];
    more, w := Then(CREATED, 9, more, w, JobFails(0));
    more, w := Then(CREATED, 9, more, w, JobStarts);
    assert w.jobs == [Loaded(1, Some(0), Some(0))];
    more, w := Then(CREATED, 9, more, w, JobReads(0));
    assert w.jobs == [Decided(Skip, 1, Some(0), Some(0), 9)];
  }

  /** After a lost receipt, a row can end up showing an earlier transaction beside the new fingerprint. */
  lemma TransactionCanBeStale()
    ensures exists steps ::
              && Fresh(CREATED) && !TrueThroughout(CREATED, 9, steps)
              && Run(CREATED, 9, steps).row == Row(false, 1, Some(1), Some(0))
  {
    var steps := AnchorThenRegrade();
    steps := LoseTheReceipt(steps);
    var longer, w := Then(CREATED, 9, steps, KNOWS_THE_OLD, JobSkips(0));
    assert AnchoringTx([(0, 0)], 1) == AnchoringTx([], 1);
    assert longer[..|longer| - 1] == steps && longer[|longer| - 1] == JobSkips(0);
    assert RestoresBlindly(KNOWS_THE_OLD, 9, JobSkips(0));
    TransactionIsTrueWhen(CREATED, 9, longer);
  }
}
