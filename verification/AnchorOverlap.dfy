/**
 * Overlapping jobs for one passport: exactly when the row and the registry
 * agree once they are done. A history follows each job through the schedule:
 * the fingerprint it carries, and how many transactions the registry had
 * accepted at its last look at the registry.
 */
module AnchorOverlap {
  import opened Wrappers
  import opened Anchor

  /**
   * `ids` numbers the jobs under way, in the order of `World.jobs`; a number
   * indexes `carries` and `access`. `writer` wrote the anchor columns last,
   * and `accepted` sent the transaction the registry accepted last.
   */
  datatype Track = Track(
    ids: seq<nat>, carries: seq<Hash>, access: seq<nat>,
    writer: Option<nat>, accepts: nat, accepted: Option<nat>)

  const NOTHING_YET := Track([], [], [], None, 0, None)

  function Drop(t: Track, i: nat): Track
    requires i < |t.ids|
  {
    t.(ids := t.ids[..i] + t.ids[i + 1..])
  }

  /** The registry is looked at, or answers, now. */
  function Access(t: Track, i: nat): Track
    requires i < |t.ids| && t.ids[i] < |t.access|
  {
    t.(access := t.access[t.ids[i] := t.accepts])
  }

  predicate Fits(w: World, t: Track) {
    |t.ids| == |w.jobs| && |t.carries| == |t.access| && forall i :: 0 <= i < |t.ids| ==> t.ids[i] < |t.access|
  }

  /** The job among those under way that a step has write the anchor columns. */
  function WritesRow(w: World, s: Step): Option<nat> {
    match s
    case JobRecords(i) => if i < |w.jobs| && w.jobs[i].Submitted? then Some(i) else None
    case JobSkips(i) =>
      if i < |w.jobs| && w.jobs[i].Decided? && w.jobs[i].action.Skip?
         && !(w.jobs[i].seen.Some? && w.jobs[i].stored == Some(w.jobs[i].hash))
      then Some(i) else None
    case _ => None
  }

  /** What an enabled step adds to the history. */
  function Note(w: World, wallet: Address, t: Track, s: Step): Track
    requires Enabled(w, wallet, s) && Fits(w, t)
  {
    match s
    case JobStarts =>
      t.(ids := t.ids + [|t.carries|], carries := t.carries + [w.row.current], access := t.access + [t.accepts])
    case JobReads(i) => Access(t, i)
    case JobRepairs(i) => if w.entry.None? then Drop(t, i) else t
    case JobSubmits(i) =>
      if Answer(w, w.jobs[i], wallet).None? then Drop(t, i)
      else Access(t.(accepts := t.accepts + 1, accepted := Some(t.ids[i])), i)
    case JobRecords(i) => t.(writer := Some(t.ids[i]))
    case JobSkips(i) => Drop(if WritesRow(w, s).Some? then t.(writer := Some(t.ids[i])) else t, i)
    case JobLogs(i) => Drop(t, i)
    case JobFails(i) => Drop(t, i)
    case _ => t
  }

  /** A passport as created: nothing anchored, nothing registered, no job. */
  predicate Fresh(w: World) {
    w.row.stored == None && w.row.tx == None && w.entry == None && w.jobs == [] && w.log == [] && w.clearing == 0
  }

  // ---------------------------------------------------------------------------
  // What the history knows
  // ---------------------------------------------------------------------------

  predicate Distinct(ids: seq<nat>) { forall i, j :: 0 <= i < j < |ids| ==> ids[i] != ids[j] }

  /** A job that was the last to look at the registry, or to be accepted by it, knows what the registry holds. */
  predicate Knows(w: World, t: Track, id: nat)
    requires id < |t.access| == |t.carries|
  {
    && t.access[id] <= t.accepts
    && (t.access[id] == t.accepts ==> w.entry.Some? && w.entry.value.hash == t.carries[id])
  }

  predicate JobFollowed(w: World, t: Track, j: Job, id: nat)
    requires id < |t.access| == |t.carries|
  {
    && j.hash == t.carries[id] && t.access[id] <= t.accepts
    && ((j.Decided? && j.action.Skip?) || j.Submitted? || j.Recorded? ==> Knows(w, t, id))
    && (t.writer == Some(id) ==> j.Recorded?)
  }

  ghost predicate Followed(w: World, t: Track) {
    && Fits(w, t) && Distinct(t.ids)
    && (forall i :: 0 <= i < |w.jobs| ==> JobFollowed(w, t, w.jobs[i], t.ids[i]))
    && (t.writer.Some? ==> t.writer.value < |t.access| && Knows(w, t, t.writer.value))
    && (w.row.stored.Some? ==> t.writer.Some? && t.carries[t.writer.value] == w.row.stored.value)
    && (t.accepted.Some? <==> w.entry.Some?)
    && (t.accepted.Some? ==> t.accepted.value < |t.carries| && w.entry.value.hash == t.carries[t.accepted.value])
    && (w.row.tx.Some? ==> w.row.stored.Some?)
    && (t.accepted.None? <==> t.accepts == 0)
  }

  lemma RowStepFollowed(w: World, wallet: Address, t: Track, s: Step)
    requires Followed(w, t) && Enabled(w, wallet, s)
    requires s.Activate? || s.EditPassport? || s.GradeWritten? || s.GradeCleared? || s.MarkedStale?
    ensures Followed(Next(w, wallet, s), Note(w, wallet, t, s))
  {
    var v := Next(w, wallet, s);
    forall i | 0 <= i < |v.jobs|
      ensures JobFollowed(v, t, v.jobs[i], t.ids[i])
    {
      assert JobFollowed(w, t, w.jobs[i], t.ids[i]);
    }
  }

  lemma StartFollowed(w: World, wallet: Address, t: Track)
    requires Followed(w, t)
    ensures Followed(Next(w, wallet, JobStarts), Note(w, wallet, t, JobStarts))
  {
    var v, u := Next(w, wallet, JobStarts), Note(w, wallet, t, JobStarts);
    forall i | 0 <= i < |v.jobs|
      ensures JobFollowed(v, u, v.jobs[i], u.ids[i])
    {
      assert i < |w.jobs| ==> JobFollowed(w, t, w.jobs[i], t.ids[i]);
    }
  }

  /** A job leaves, and nobody else is changed. */
  lemma DropFollowed(w: World, t: Track, i: nat)
    requires Followed(w, t) && i < |w.jobs|
    ensures Followed(DropJob(w, i), Drop(t, i))
  {
    var v, u := DropJob(w, i), Drop(t, i);
    forall k | 0 <= k < |v.jobs|
      ensures u.ids[k] == t.ids[if k < i then k else k + 1]
      ensures JobFollowed(v, u, v.jobs[k], u.ids[k])
    {
      var was := if k < i then k else k + 1;
      assert v.jobs[k] == w.jobs[was] && u.ids[k] == t.ids[was];
      assert JobFollowed(w, t, w.jobs[was], t.ids[was]);
    }
  }

  lemma ReadFollowed(w: World, wallet: Address, t: Track, i: nat)
    requires Followed(w, t) && Enabled(w, wallet, JobReads(i))
    ensures Followed(Next(w, wallet, JobReads(i)), Note(w, wallet, t, JobReads(i)))
  {
    var v, u := Next(w, wallet, JobReads(i)), Note(w, wallet, t, JobReads(i));
    assert JobFollowed(w, t, w.jobs[i], t.ids[i]);
    forall k | 0 <= k < |v.jobs|
      ensures JobFollowed(v, u, v.jobs[k], u.ids[k])
    {
      assert JobFollowed(w, t, w.jobs[k], t.ids[k]);
    }
  }

  lemma RepairFollowed(w: World, wallet: Address, t: Track, i: nat)
    requires Followed(w, t) && Enabled(w, wallet, JobRepairs(i))
    ensures Followed(Next(w, wallet, JobRepairs(i)), Note(w, wallet, t, JobRepairs(i)))
  {
    if w.entry.None? {
      DropFollowed(w, t, i);
    } else {
      var v := Next(w, wallet, JobRepairs(i));
      forall k | 0 <= k < |v.jobs|
        ensures JobFollowed(v, t, v.jobs[k], t.ids[k])
      {
        assert JobFollowed(w, t, w.jobs[k], t.ids[k]);
      }
    }
  }

  /** A job accepted by the registry is the one that knows it now; whoever looked before has been overtaken. */
  lemma SubmitFollowed(w: World, wallet: Address, t: Track, i: nat)
    requires Followed(w, t) && Enabled(w, wallet, JobSubmits(i))
    ensures Followed(Next(w, wallet, JobSubmits(i)), Note(w, wallet, t, JobSubmits(i)))
  {
    assert JobFollowed(w, t, w.jobs[i], t.ids[i]);
    if Answer(w, w.jobs[i], wallet).None? {
      DropFollowed(w, t, i);
    } else {
      var v, u := Next(w, wallet, JobSubmits(i)), Note(w, wallet, t, JobSubmits(i));
      forall k | 0 <= k < |v.jobs|
        ensures JobFollowed(v, u, v.jobs[k], u.ids[k])
      {
        assert JobFollowed(w, t, w.jobs[k], t.ids[k]);
      }
    }
  }

  lemma RecordFollowed(w: World, wallet: Address, t: Track, i: nat)
    requires Followed(w, t) && Enabled(w, wallet, JobRecords(i))
    ensures Followed(Next(w, wallet, JobRecords(i)), Note(w, wallet, t, JobRecords(i)))
  {
    var v, u := Next(w, wallet, JobRecords(i)), Note(w, wallet, t, JobRecords(i));
    assert JobFollowed(w, t, w.jobs[i], t.ids[i]);
    forall k | 0 <= k < |v.jobs|
      ensures JobFollowed(v, u, v.jobs[k], u.ids[k])
    {
      assert JobFollowed(w, t, w.jobs[k], t.ids[k]);
    }
  }

  lemma SkipFollowed(w: World, wallet: Address, t: Track, i: nat)
    requires Followed(w, t) && Enabled(w, wallet, JobSkips(i))
    ensures Followed(Next(w, wallet, JobSkips(i)), Note(w, wallet, t, JobSkips(i)))
  {
    var j := w.jobs[i];
    assert JobFollowed(w, t, j, t.ids[i]);
    DropFollowed(w, t, i);
    var v, u := Next(w, wallet, JobSkips(i)), Note(w, wallet, t, JobSkips(i));
    forall k | 0 <= k < |v.jobs|
      ensures JobFollowed(v, u, v.jobs[k], u.ids[k])
    {
      assert JobFollowed(DropJob(w, i), Drop(t, i), v.jobs[k], u.ids[k]);
      assert u.ids[k] == t.ids[if k < i then k else k + 1];
    }
  }

  lemma NextFollowed(w: World, wallet: Address, t: Track, s: Step)
    requires Followed(w, t) && Enabled(w, wallet, s)
    ensures Followed(Next(w, wallet, s), Note(w, wallet, t, s))
  {
    match s
    case JobStarts => StartFollowed(w, wallet, t);
    case JobReads(i) => ReadFollowed(w, wallet, t, i);
    case JobRepairs(i) => RepairFollowed(w, wallet, t, i);
    case JobSubmits(i) => SubmitFollowed(w, wallet, t, i);
    case JobRecords(i) => RecordFollowed(w, wallet, t, i);
    case JobSkips(i) => SkipFollowed(w, wallet, t, i);
    case JobLogs(i) => DropFollowed(w.(log := w.log + [(w.jobs[i].hash, w.jobs[i].tx)]), t, i);
    case JobFails(i) => DropFollowed(w, t, i);
    case _ => RowStepFollowed(w, wallet, t, s);
  }

  // ---------------------------------------------------------------------------
  // Exactly when row and registry agree
  // ---------------------------------------------------------------------------

  lemma FreshFollowed(w: World)
    requires Fresh(w)
    ensures Followed(w, NOTHING_YET)
  {
  }

  /** The history of a run. */
  function Follow(w: World, wallet: Address, steps: seq<Step>): Track {
    if steps == [] then NOTHING_YET
    else
      var before := Run(w, wallet, steps[..|steps| - 1]);
      var track := Follow(w, wallet, steps[..|steps| - 1]);
      var s := steps[|steps| - 1];
      if Enabled(before, wallet, s) && Fits(before, track) then Note(before, wallet, track, s) else track
  }

  /** From the passport's creation on, the history is that of the run. */
  lemma {:induction false} RunIsFollowed(w: World, wallet: Address, steps: seq<Step>)
    requires Fresh(w)
    ensures Followed(Run(w, wallet, steps), Follow(w, wallet, steps))
  {
    if steps == [] {
      FreshFollowed(w);
    } else {
      var n := |steps| - 1;
      RunIsFollowed(w, wallet, steps[..n]);
      if Enabled(Run(w, wallet, steps[..n]), wallet, steps[n]) {
        NextFollowed(Run(w, wallet, steps[..n]), wallet, Follow(w, wallet, steps[..n]), steps[n]);
      }
    }
  }

  /** No transaction has been accepted since the last writer of the row last looked at the registry. */
  predicate Undisturbed(t: Track)
    requires t.writer.Some? && t.writer.value < |t.access|
  {
    t.access[t.writer.value] == t.accepts
  }

  predicate Agree(w: World) { w.entry.Some? && w.entry.value.hash == w.row.current }

  /**
   * Over every interleaving from a passport's creation, a row that looks
   * anchored agrees with the registry exactly when no transaction was
   * accepted between its last writer's last look at the registry and now, or
   * the last one accepted carries that writer's own fingerprint.
   */
  lemma AgreeExactlyWhen(w: World, wallet: Address, steps: seq<Step>)
    requires Fresh(w) && LooksAnchored(Run(w, wallet, steps))
    ensures var q, t := Run(w, wallet, steps), Follow(w, wallet, steps);
            && t.writer.Some? && t.accepted.Some?
            && t.writer.value < |t.carries| == |t.access| && t.accepted.value < |t.carries|
            && (Agree(q) <==> Undisturbed(t) || t.carries[t.accepted.value] == t.carries[t.writer.value])
  {
    var q, t := Run(w, wallet, steps), Follow(w, wallet, steps);
    RunIsFollowed(w, wallet, steps);
    // The writer looked at the registry, so something had been accepted by then or since.
    assert Knows(q, t, t.writer.value);
  }

  // ---------------------------------------------------------------------------
  // Overlap in order is safe
  // ---------------------------------------------------------------------------

  predicate WriterFits(t: Track) { t.writer.Some? ==> t.writer.value < |t.access| }

  /** A job that writes the row looked at the registry no earlier than the one that wrote before it. */
  predicate WritesInOrder(w: World, t: Track, s: Step)
    requires Fits(w, t) && WriterFits(t)
  {
    WritesRow(w, s).Some? && t.writer.Some? ==> t.access[t.writer.value] <= t.access[t.ids[WritesRow(w, s).value]]
  }

  /** Rows are written in the order of the writers' last looks at the registry, however much the jobs overlap. */
  predicate InOrder(w: World, wallet: Address, steps: seq<Step>) {
    steps == [] ||
    (var before := steps[..|steps| - 1];
     && InOrder(w, wallet, before)
     && InOrderNow(Run(w, wallet, before), Follow(w, wallet, before), steps[|steps| - 1]))
  }

  predicate InOrderNow(w: World, t: Track, s: Step) { Fits(w, t) && WriterFits(t) && WritesInOrder(w, t, s) }

  /** The last accepted transaction is already in the row, or its job is about to write it. */
  ghost predicate Covered(w: World, t: Track)
    requires Fits(w, t) && WriterFits(t)
  {
    || t.accepts == 0
    || (t.writer.Some? && t.access[t.writer.value] == t.accepts)
    || exists k :: 0 <= k < |w.jobs| && AboutToRecord(w.jobs[k], t, t.ids[k])
  }

  predicate AboutToRecord(j: Job, t: Track, id: nat)
    requires id < |t.access|
  {
    j.Submitted? && t.access[id] == t.accepts
  }

  /** A job that was not about to write the row leaves. */
  lemma DropCovered(w: World, t: Track, i: nat)
    requires Followed(w, t) && Covered(w, t) && i < |w.jobs| && !w.jobs[i].Submitted?
    ensures Followed(DropJob(w, i), Drop(t, i)) && Covered(DropJob(w, i), Drop(t, i))
  {
    DropFollowed(w, t, i);
    if k :| 0 <= k < |w.jobs| && AboutToRecord(w.jobs[k], t, t.ids[k]) {
      var now := if k < i then k else k - 1;
      assert DropJob(w, i).jobs[now] == w.jobs[k] && Drop(t, i).ids[now] == t.ids[k];
      assert AboutToRecord(DropJob(w, i).jobs[now], Drop(t, i), Drop(t, i).ids[now]);
    }
  }

  lemma SubmitCovered(w: World, wallet: Address, t: Track, i: nat)
    requires Followed(w, t) && Covered(w, t) && Enabled(w, wallet, JobSubmits(i))
    ensures Followed(Next(w, wallet, JobSubmits(i)), Note(w, wallet, t, JobSubmits(i)))
    ensures Covered(Next(w, wallet, JobSubmits(i)), Note(w, wallet, t, JobSubmits(i)))
  {
    NextFollowed(w, wallet, t, JobSubmits(i));
    if Answer(w, w.jobs[i], wallet).None? {
      DropCovered(w, t, i);
    } else {
      var v, u := Next(w, wallet, JobSubmits(i)), Note(w, wallet, t, JobSubmits(i));
      assert AboutToRecord(v.jobs[i], u, u.ids[i]);
    }
  }

  lemma RecordCovered(w: World, wallet: Address, t: Track, i: nat)
    requires Followed(w, t) && Covered(w, t) && Enabled(w, wallet, JobRecords(i)) && WritesInOrder(w, t, JobRecords(i))
    ensures Followed(Next(w, wallet, JobRecords(i)), Note(w, wallet, t, JobRecords(i)))
    ensures Covered(Next(w, wallet, JobRecords(i)), Note(w, wallet, t, JobRecords(i)))
  {
    NextFollowed(w, wallet, t, JobRecords(i));
    var v, u := Next(w, wallet, JobRecords(i)), Note(w, wallet, t, JobRecords(i));
    assert JobFollowed(w, t, w.jobs[i], t.ids[i]);
    if k :| 0 <= k < |w.jobs| && AboutToRecord(w.jobs[k], t, t.ids[k]) {
      assert k != i ==> AboutToRecord(v.jobs[k], u, u.ids[k]);
    }
  }

  lemma SkipCovered(w: World, wallet: Address, t: Track, i: nat)
    requires Followed(w, t) && Covered(w, t) && Enabled(w, wallet, JobSkips(i)) && WritesInOrder(w, t, JobSkips(i))
    ensures Followed(Next(w, wallet, JobSkips(i)), Note(w, wallet, t, JobSkips(i)))
    ensures Covered(Next(w, wallet, JobSkips(i)), Note(w, wallet, t, JobSkips(i)))
  {
    NextFollowed(w, wallet, t, JobSkips(i));
    assert JobFollowed(w, t, w.jobs[i], t.ids[i]);
    DropCovered(w, t, i);
    var v, u := Next(w, wallet, JobSkips(i)), Note(w, wallet, t, JobSkips(i));
    var dropped := Drop(t, i);
    if k :| 0 <= k < |v.jobs| && AboutToRecord(DropJob(w, i).jobs[k], dropped, dropped.ids[k]) {
      assert AboutToRecord(v.jobs[k], u, u.ids[k]);
    }
  }

  /** A step that neither takes a job away nor writes the row, nor is accepted. */
  lemma QuietCovered(w: World, wallet: Address, t: Track, s: Step)
    requires Followed(w, t) && Covered(w, t) && Enabled(w, wallet, s)
    requires !s.JobSubmits? && !s.JobRecords? && !s.JobSkips? && !s.JobLogs? && !s.JobFails?
    requires s.JobRepairs? ==> w.entry.Some?
    ensures Covered(Next(w, wallet, s), Note(w, wallet, t, s))
  {
    var v, u := Next(w, wallet, s), Note(w, wallet, t, s);
    NextFollowed(w, wallet, t, s);
    if s.JobReads? {
      assert JobFollowed(w, t, w.jobs[s.job], t.ids[s.job]);
    }
    if k :| 0 <= k < |w.jobs| && AboutToRecord(w.jobs[k], t, t.ids[k]) {
      assert AboutToRecord(v.jobs[k], u, u.ids[k]);
    }
  }

  lemma NextCovered(w: World, wallet: Address, t: Track, s: Step)
    requires Followed(w, t) && Covered(w, t) && Enabled(w, wallet, s) && WritesInOrder(w, t, s)
    requires s.JobFails? ==> w.jobs[s.job].Loaded? || w.jobs[s.job].Decided?
    ensures Followed(Next(w, wallet, s), Note(w, wallet, t, s))
    ensures Covered(Next(w, wallet, s), Note(w, wallet, t, s))
  {
    NextFollowed(w, wallet, t, s);
    match s
    case JobSubmits(i) => SubmitCovered(w, wallet, t, i);
    case JobRecords(i) => RecordCovered(w, wallet, t, i);
    case JobSkips(i) => SkipCovered(w, wallet, t, i);
    case JobLogs(i) => DropCovered(w.(log := w.log + [(w.jobs[i].hash, w.jobs[i].tx)]), t, i);
    case JobFails(i) => DropCovered(w, t, i);
    case JobRepairs(i) =>
      if w.entry.None? {
        DropCovered(w, t, i);
      } else {
        QuietCovered(w, wallet, t, s);
      }
    case _ => QuietCovered(w, wallet, t, s);
  }

  // ---------------------------------------------------------------------------
  // The log under overlap
  // ---------------------------------------------------------------------------

  /** A job whose transaction went in and is not logged yet. */
  predicate InFlight(j: Job, hash: Hash) { (j.Submitted? || j.Recorded?) && j.hash == hash }

  lemma DropLogged(w: World, i: nat)
    requires Logged(w) && i < |w.jobs| && (w.entry.Some? ==> !InFlight(w.jobs[i], w.entry.value.hash))
    ensures Logged(DropJob(w, i))
  {
    if w.entry.Some? && AnchoringTx(w.log, w.entry.value.hash).None? {
      var k :| 0 <= k < |w.jobs| && (w.jobs[k].Submitted? || w.jobs[k].Recorded?) && w.jobs[k].hash == w.entry.value.hash;
      assert DropJob(w, i).jobs[if k < i then k else k - 1] == w.jobs[k];
    }
  }

  /** A step that takes no job away leaves whoever is in flight in flight. */
  lemma KeptLogged(w: World, wallet: Address, s: Step)
    requires Logged(w) && Enabled(w, wallet, s)
    requires !s.JobSubmits? && !s.JobSkips? && !s.JobLogs? && !s.JobFails? && (s.JobRepairs? ==> w.entry.Some?)
    ensures Logged(Next(w, wallet, s))
  {
    var v := Next(w, wallet, s);
    if w.entry.Some? && AnchoringTx(w.log, w.entry.value.hash).None? {
      var k :| 0 <= k < |w.jobs| && (w.jobs[k].Submitted? || w.jobs[k].Recorded?) && w.jobs[k].hash == w.entry.value.hash;
      assert InFlight(v.jobs[k], v.entry.value.hash);
    }
  }

  lemma LogsLogged(w: World, wallet: Address, i: nat)
    requires Logged(w) && Enabled(w, wallet, JobLogs(i))
    ensures Logged(Next(w, wallet, JobLogs(i)))
  {
    var j := w.jobs[i];
    var grown := w.(log := w.log + [(j.hash, j.tx)]);
    if w.entry.Some? {
      LogGrows(w.log, (j.hash, j.tx), w.entry.value.hash);
      if j.hash != w.entry.value.hash {
        DropLogged(grown, i);
      }
    }
  }

  /** While no receipt is lost, the log keeps up with the registry however the jobs overlap. */
  lemma NextLoggedAnyhow(w: World, wallet: Address, s: Step)
    requires Logged(w) && Enabled(w, wallet, s)
    requires s.JobFails? ==> w.jobs[s.job].Loaded? || w.jobs[s.job].Decided?
    ensures Logged(Next(w, wallet, s))
  {
    var v := Next(w, wallet, s);
    match s
    case JobSubmits(i) =>
      if Answer(w, w.jobs[i], wallet).None? {
        DropLogged(w, i);
      } else {
        assert InFlight(v.jobs[i], v.entry.value.hash);
      }
    case JobSkips(i) => DropLogged(w.(row := Synced(w, w.jobs[i].hash, w.jobs[i].stored, w.jobs[i].seen)), i);
    case JobLogs(i) => LogsLogged(w, wallet, i);
    case JobFails(i) => DropLogged(w, i);
    case JobRepairs(i) =>
      if w.entry.None? {
        DropLogged(w, i);
      } else {
        KeptLogged(w, wallet, s);
      }
    case _ => KeptLogged(w, wallet, s);
  }

  lemma {:induction false} OrderedRuns(w: World, wallet: Address, steps: seq<Step>)
    requires Fresh(w) && InOrder(w, wallet, steps) && ReceiptsArrive(w, wallet, steps)
    ensures Followed(Run(w, wallet, steps), Follow(w, wallet, steps))
    ensures Covered(Run(w, wallet, steps), Follow(w, wallet, steps)) && Logged(Run(w, wallet, steps))
  {
    RunIsFollowed(w, wallet, steps);
    if steps != [] {
      var n := |steps| - 1;
      forall k | 0 <= k < n
        ensures Run(w, wallet, steps[..n][..k]) == Run(w, wallet, steps[..k])
      {
        assert steps[..n][..k] == steps[..k];
      }
      OrderedRuns(w, wallet, steps[..n]);
      var before := Run(w, wallet, steps[..n]);
      if Enabled(before, wallet, steps[n]) {
        NextCovered(before, wallet, Follow(w, wallet, steps[..n]), steps[n]);
        NextLoggedAnyhow(before, wallet, steps[n]);
      }
    }
  }

  /** Jobs that write in the order they looked, and whose receipts arrive, leave a row that tells the truth. */
  lemma InOrderIsSafe(w: World, wallet: Address, steps: seq<Step>)
    requires Fresh(w) && InOrder(w, wallet, steps) && ReceiptsArrive(w, wallet, steps)
    requires Run(w, wallet, steps).jobs == []
    ensures LooksAnchored(Run(w, wallet, steps)) ==> Agree(Run(w, wallet, steps))
    ensures Sound(Run(w, wallet, steps), wallet) && Logged(Run(w, wallet, steps))
  {
    OrderedRuns(w, wallet, steps);
    var q, t := Run(w, wallet, steps), Follow(w, wallet, steps);
    if LooksAnchored(q) {
      AgreeExactlyWhen(w, wallet, steps);
      assert Knows(q, t, t.writer.value);
    }
  }

  /**
   * Convergence without keeping jobs apart: after any run from creation whose
   * jobs write in order and whose receipts arrive, one sweep brings a
   * registered passport to agreement, and later sweeps change nothing.
   */
  lemma OneSweepConvergesInOrder(w: World, wallet: Address, steps: seq<Step>)
    requires Fresh(w) && InOrder(w, wallet, steps) && ReceiptsArrive(w, wallet, steps)
    requires var q := Run(w, wallet, steps); q.jobs == [] && q.clearing == 0 && !q.row.draft
    ensures var t := Swept(Run(w, wallet, steps), wallet);
            Converged(t) && t.jobs == [] && Swept(t, wallet) == t
  {
    InOrderIsSafe(w, wallet, steps);
    var q := Run(w, wallet, steps);
    SweepConverges(q, wallet);
    ConvergedStays(Swept(q, wallet), wallet);
  }

  // ---------------------------------------------------------------------------
  // Keeping jobs apart is one way to be in order
  // ---------------------------------------------------------------------------

  /** The only job under way has seen the registry as it is. */
  predicate Alone(w: World, t: Track) {
    && |w.jobs| == |t.ids| <= 1 && (|t.ids| == 1 ==> t.ids[0] < |t.access|)
    && (|w.jobs| == 1 && !w.jobs[0].Loaded? ==> t.access[t.ids[0]] == t.accepts)
  }

  lemma NextAlone(w: World, wallet: Address, t: Track, s: Step)
    requires Followed(w, t) && Alone(w, t) && Enabled(w, wallet, s) && (s.JobStarts? ==> w.jobs == [])
    ensures Alone(Next(w, wallet, s), Note(w, wallet, t, s)) && WritesInOrder(w, t, s)
  {
  }

  lemma {:induction false} ApartIsInOrder(w: World, wallet: Address, steps: seq<Step>)
    requires Fresh(w) && JobsApart(w, wallet, steps)
    ensures InOrder(w, wallet, steps) && Alone(Run(w, wallet, steps), Follow(w, wallet, steps))
  {
    if steps != [] {
      var n := |steps| - 1;
      RunIsFollowed(w, wallet, steps[..n]);
      forall k | 0 <= k < n && steps[..n][k].JobStarts?
        ensures Run(w, wallet, steps[..n][..k]).jobs == []
      {
        assert steps[..n][..k] == steps[..k];
      }
      ApartIsInOrder(w, wallet, steps[..n]);
      var before, t := Run(w, wallet, steps[..n]), Follow(w, wallet, steps[..n]);
      if Enabled(before, wallet, steps[n]) {
        NextAlone(before, wallet, t, steps[n]);
      }
    }
  }
}
