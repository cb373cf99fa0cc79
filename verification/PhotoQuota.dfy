/**
 * Photo uploads by any number of people at once. Each locks its passport's
 * row, then its organisation's quota, and holds both to its commit: no quota
 * and no photo limit is passed, no photo is lost, and nobody is turned away
 * whose photo would still fit.
 */
module PhotoQuota {

  datatype Limits = Limits(photos: nat, quota: nat)

  /** A row of the ledger of stored photos. */
  datatype StoredPhoto = StoredPhoto(organisation: nat, bytes: nat)

  datatype Upload = Upload(passport: nat, organisation: nat, bytes: nat)

  datatype Stage = Waiting | HasPassport | HasQuota | Accepted | TooManyPhotos | OverQuota | Failed

  /** An upload's transaction; `existing` is the passport's photos as it read them. */
  datatype Job = Job(upload: Upload, stage: Stage, existing: seq<nat>)

  /** Two organisations may share a quota lock: it is a hash of the organisation's id. */
  datatype Lock = PassportRow(id: nat) | QuotaLock(code: nat)

  /** Photos by passport, each the number of the job that uploaded it, and the ledger. */
  datatype Sys = Sys(photos: seq<seq<nat>>, ledger: seq<StoredPhoto>, jobs: seq<Job>)

  function Used(ledger: seq<StoredPhoto>, organisation: nat): nat {
    if ledger == [] then 0
    else
      var last := ledger[|ledger| - 1];
      Used(ledger[..|ledger| - 1], organisation) + if last.organisation == organisation then last.bytes else 0
  }

  function Holds(code: nat -> nat, j: Job): set<Lock> {
    match j.stage
    case HasPassport => {PassportRow(j.upload.passport)}
    case HasQuota => {PassportRow(j.upload.passport), QuotaLock(code(j.upload.organisation))}
    case _ => {}
  }

  predicate Free(code: nat -> nat, s: Sys, l: Lock, i: nat) {
    forall j :: 0 <= j < |s.jobs| && j != i ==> l !in Holds(code, s.jobs[j])
  }

  predicate Finished(j: Job) { j.stage !in {Waiting, HasPassport, HasQuota} }

  predicate CanMove(code: nat -> nat, s: Sys, i: nat) {
    i < |s.jobs| &&
    match s.jobs[i].stage
    case Waiting => Free(code, s, PassportRow(s.jobs[i].upload.passport), i)
    case HasPassport => Free(code, s, QuotaLock(code(s.jobs[i].upload.organisation)), i)
    case HasQuota => true
    case _ => false
  }

  function Become(s: Sys, i: nat, stage: Stage): Sys
    requires i < |s.jobs|
  {
    s.(jobs := s.jobs[i := s.jobs[i].(stage := stage)])
  }

  /** The next move of job `i`; `stored` says whether writing the file succeeded. */
  function Step(limits: Limits, code: nat -> nat, s: Sys, i: nat, stored: bool): Sys {
    if !CanMove(code, s, i) then s
    else
      var j := s.jobs[i];
      var u := j.upload;
      match j.stage
      case Waiting =>
        if u.passport >= |s.photos| then Become(s, i, Failed)
        else if |s.photos[u.passport]| >= limits.photos then Become(s, i, TooManyPhotos)
        else s.(jobs := s.jobs[i := Job(u, HasPassport, s.photos[u.passport])])
      case HasPassport =>
        if Used(s.ledger, u.organisation) + u.bytes > limits.quota then Become(s, i, OverQuota)
        else Become(s, i, HasQuota)
      case HasQuota =>
        if !stored || u.passport >= |s.photos| then Become(s, i, Failed)
        else
          Become(Sys(s.photos[u.passport := j.existing + [i]],
                     s.ledger + [StoredPhoto(u.organisation, u.bytes)],
                     s.jobs),
                 i, Accepted)
      case _ => s
  }

  datatype Move = Move(who: nat, stored: bool)

  function Run(limits: Limits, code: nat -> nat, s: Sys, moves: seq<Move>): Sys
    decreases |moves|
  {
    if moves == [] then s
    else
      var last := moves[|moves| - 1];
      Step(limits, code, Run(limits, code, s, moves[..|moves| - 1]), last.who, last.stored)
  }

  ghost predicate Within(limits: Limits, s: Sys) {
    && (forall p :: 0 <= p < |s.photos| ==> |s.photos[p]| <= limits.photos)
    && (forall o: nat :: Used(s.ledger, o) <= limits.quota)
  }

  ghost predicate Start(limits: Limits, s: Sys) {
    Within(limits, s) && forall i :: 0 <= i < |s.jobs| ==> s.jobs[i].stage == Waiting
  }

  // ---------------------------------------------------------------------------
  // What every schedule keeps
  // ---------------------------------------------------------------------------

  /** What a job at each stage may rely on. */
  predicate JobOk(limits: Limits, photos: seq<seq<nat>>, ledger: seq<StoredPhoto>, i: nat, j: Job) {
    var u := j.upload;
    match j.stage
    case HasPassport => u.passport < |photos| && photos[u.passport] == j.existing && |j.existing| < limits.photos
    case HasQuota =>
      && u.passport < |photos| && photos[u.passport] == j.existing && |j.existing| < limits.photos
      && Used(ledger, u.organisation) + u.bytes <= limits.quota
    case Accepted => u.passport < |photos| && i in photos[u.passport]
    case TooManyPhotos => u.passport < |photos| && |photos[u.passport]| >= limits.photos
    case OverQuota => Used(ledger, u.organisation) + u.bytes > limits.quota
    case _ => true
  }

  predicate JobsOk(limits: Limits, s: Sys) {
    forall i :: 0 <= i < |s.jobs| ==> JobOk(limits, s.photos, s.ledger, i, s.jobs[i])
  }

  predicate LocksApart(code: nat -> nat, s: Sys) {
    forall i, j :: 0 <= i < j < |s.jobs| ==> Holds(code, s.jobs[i]) !! Holds(code, s.jobs[j])
  }

  ghost predicate Inv(limits: Limits, code: nat -> nat, s: Sys) {
    Within(limits, s) && JobsOk(limits, s) && LocksApart(code, s)
  }

  /** No photo is taken off a passport, and no bytes off a ledger. */
  predicate Grows(s: Sys, t: Sys) {
    && |s.photos| == |t.photos| && |s.jobs| == |t.jobs| && s.ledger <= t.ledger
    && (forall p :: 0 <= p < |s.photos| ==> s.photos[p] <= t.photos[p])
    && (forall i :: 0 <= i < |s.jobs| ==> s.jobs[i].upload == t.jobs[i].upload)
  }

  lemma UsedAfter(ledger: seq<StoredPhoto>, row: StoredPhoto, organisation: nat)
    ensures Used(ledger + [row], organisation) ==
            Used(ledger, organisation) + if row.organisation == organisation then row.bytes else 0
  {
    assert (ledger + [row])[..|ledger|] == ledger;
  }

  lemma LocksKept(code: nat -> nat, s: Sys, i: nat, j: Job)
    requires LocksApart(code, s) && i < |s.jobs|
    requires forall k, l :: 0 <= k < |s.jobs| && k != i && l in Holds(code, j) ==> l !in Holds(code, s.jobs[k])
    ensures LocksApart(code, s.(jobs := s.jobs[i := j]))
  {
  }

  lemma StepKeepsLocks(limits: Limits, code: nat -> nat, s: Sys, i: nat, stored: bool)
    requires LocksApart(code, s)
    ensures LocksApart(code, Step(limits, code, s, i, stored))
  {
    if CanMove(code, s, i) {
      var t := Step(limits, code, s, i, stored);
      forall k, l | 0 <= k < |s.jobs| && k != i && l in Holds(code, t.jobs[i])
        ensures l !in Holds(code, s.jobs[k])
      {
      }
      LocksKept(code, s, i, t.jobs[i]);
    }
  }

  /** A commit under both locks keeps what everyone else relies on. */
  lemma CommitKeeps(limits: Limits, code: nat -> nat, s: Sys, i: nat)
    requires Inv(limits, code, s) && i < |s.jobs| && s.jobs[i].stage == HasQuota
    ensures var t := Step(limits, code, s, i, true); Within(limits, t) && JobsOk(limits, t) && Grows(s, t)
  {
    var t := Step(limits, code, s, i, true);
    var u := s.jobs[i].upload;
    var row := StoredPhoto(u.organisation, u.bytes);
    assert JobOk(limits, s.photos, s.ledger, i, s.jobs[i]);
    forall o: nat
      ensures Used(t.ledger, o) == Used(s.ledger, o) + if u.organisation == o then u.bytes else 0
    {
      UsedAfter(s.ledger, row, o);
    }
    forall k | 0 <= k < |t.jobs|
      ensures JobOk(limits, t.photos, t.ledger, k, t.jobs[k])
    {
      assert JobOk(limits, s.photos, s.ledger, k, s.jobs[k]);
      if k != i {
        OthersElsewhere(code, s, i, k);
      }
    }
  }

  /** A job that holds locks beside another holds them on another passport, and the quota of another organisation. */
  lemma OthersElsewhere(code: nat -> nat, s: Sys, i: nat, k: nat)
    requires LocksApart(code, s) && i < |s.jobs| && k < |s.jobs| && i != k && s.jobs[i].stage == HasQuota
    ensures s.jobs[k].stage in {HasPassport, HasQuota} ==> s.jobs[k].upload.passport != s.jobs[i].upload.passport
    ensures s.jobs[k].stage == HasQuota ==> s.jobs[k].upload.organisation != s.jobs[i].upload.organisation
  {
    var a, b := Holds(code, s.jobs[i]), Holds(code, s.jobs[k]);
    assert a !! b;
    assert PassportRow(s.jobs[i].upload.passport) in a && QuotaLock(code(s.jobs[i].upload.organisation)) in a;
    assert s.jobs[k].stage in {HasPassport, HasQuota} ==> PassportRow(s.jobs[k].upload.passport) in b;
    assert s.jobs[k].stage == HasQuota ==> QuotaLock(code(s.jobs[k].upload.organisation)) in b;
  }

  lemma StepKeeps(limits: Limits, code: nat -> nat, s: Sys, i: nat, stored: bool)
    requires Inv(limits, code, s)
    ensures Inv(limits, code, Step(limits, code, s, i, stored)) && Grows(s, Step(limits, code, s, i, stored))
  {
    StepKeepsLocks(limits, code, s, i, stored);
    if CanMove(code, s, i) {
      assert JobOk(limits, s.photos, s.ledger, i, s.jobs[i]);
      if s.jobs[i].stage == HasQuota && stored {
        CommitKeeps(limits, code, s, i);
      } else {
        var t := Step(limits, code, s, i, stored);
        forall k | 0 <= k < |t.jobs|
          ensures JobOk(limits, t.photos, t.ledger, k, t.jobs[k])
        {
          assert JobOk(limits, s.photos, s.ledger, k, s.jobs[k]);
        }
      }
    }
  }

  lemma {:induction false} RunKeeps(limits: Limits, code: nat -> nat, s: Sys, moves: seq<Move>)
    requires Start(limits, s)
    ensures Inv(limits, code, Run(limits, code, s, moves)) && Grows(s, Run(limits, code, s, moves))
  {
    if moves != [] {
      var before, last := moves[..|moves| - 1], moves[|moves| - 1];
      RunKeeps(limits, code, s, before);
      StepKeeps(limits, code, Run(limits, code, s, before), last.who, last.stored);
    }
  }

  /** No organisation's photos pass its quota and no passport its photo limit, at any point of any schedule. */
  lemma NeverOverTheLimits(limits: Limits, code: nat -> nat, s: Sys, moves: seq<Move>)
    requires Start(limits, s)
    ensures Within(limits, Run(limits, code, s, moves))
  {
    RunKeeps(limits, code, s, moves);
  }

  /**
   * An accepted photo is on its passport beside all that were there, and an
   * upload is refused only while it does not fit, then and ever after.
   */
  lemma EveryoneIsServed(limits: Limits, code: nat -> nat, s: Sys, moves: seq<Move>, i: nat)
    requires Start(limits, s) && i < |s.jobs|
    ensures var t := Run(limits, code, s, moves);
            var u := s.jobs[i].upload;
            && Grows(s, t)
            && (t.jobs[i].stage == Accepted ==> u.passport < |t.photos| && i in t.photos[u.passport])
            && (t.jobs[i].stage == TooManyPhotos ==> u.passport < |t.photos| && |t.photos[u.passport]| == limits.photos)
            && (t.jobs[i].stage == OverQuota ==> Used(t.ledger, u.organisation) + u.bytes > limits.quota)
  {
    RunKeeps(limits, code, s, moves);
    var t := Run(limits, code, s, moves);
    assert JobOk(limits, t.photos, t.ledger, i, t.jobs[i]);
  }

  // ---------------------------------------------------------------------------
  // What is stored is what was accepted
  // ---------------------------------------------------------------------------

  /** Bytes of an organisation's accepted uploads. */
  function AcceptedBytes(jobs: seq<Job>, organisation: nat): nat {
    if jobs == [] then 0
    else
      AcceptedBytes(jobs[1..], organisation)
      + if jobs[0].stage == Accepted && jobs[0].upload.organisation == organisation then jobs[0].upload.bytes else 0
  }

  function AcceptedOn(jobs: seq<Job>, passport: nat): nat {
    if jobs == [] then 0
    else AcceptedOn(jobs[1..], passport) + if jobs[0].stage == Accepted && jobs[0].upload.passport == passport then 1 else 0
  }

  lemma {:induction false} AcceptedAfter(jobs: seq<Job>, i: nat, j: Job, o: nat, p: nat)
    requires i < |jobs| && jobs[i].stage != Accepted && j.upload == jobs[i].upload
    ensures AcceptedBytes(jobs[i := j], o)
         == AcceptedBytes(jobs, o) + if j.stage == Accepted && j.upload.organisation == o then j.upload.bytes else 0
    ensures AcceptedOn(jobs[i := j], p)
         == AcceptedOn(jobs, p) + if j.stage == Accepted && j.upload.passport == p then 1 else 0
  {
    var after := jobs[i := j];
    if i == 0 {
      assert after[1..] == jobs[1..];
    } else {
      AcceptedAfter(jobs[1..], i - 1, j, o, p);
      assert after[1..] == jobs[1..][i - 1 := j];
    }
  }

  lemma {:induction false} NothingAcceptedYet(jobs: seq<Job>, o: nat, p: nat)
    requires forall i :: 0 <= i < |jobs| ==> jobs[i].stage == Waiting
    ensures AcceptedBytes(jobs, o) == 0 && AcceptedOn(jobs, p) == 0
  {
    if jobs != [] {
      NothingAcceptedYet(jobs[1..], o, p);
    }
  }

  lemma StepStores(limits: Limits, code: nat -> nat, s: Sys, i: nat, stored: bool, o: nat, p: nat)
    requires Inv(limits, code, s) && p < |s.photos|
    ensures var t := Step(limits, code, s, i, stored);
            && |t.photos| == |s.photos|
            && Used(t.ledger, o) - AcceptedBytes(t.jobs, o) == Used(s.ledger, o) - AcceptedBytes(s.jobs, o)
            && |t.photos[p]| - AcceptedOn(t.jobs, p) == |s.photos[p]| - AcceptedOn(s.jobs, p)
  {
    var t := Step(limits, code, s, i, stored);
    if CanMove(code, s, i) {
      assert JobOk(limits, s.photos, s.ledger, i, s.jobs[i]);
      AcceptedAfter(s.jobs, i, t.jobs[i], o, p);
      assert t.jobs == s.jobs[i := t.jobs[i]];
      if t.ledger != s.ledger {
        assert t.ledger[..|s.ledger|] == s.ledger;
      }
    }
  }

  /**
   * Under every schedule, an organisation's use grows by exactly the bytes of
   * its accepted uploads, and a passport's photos by exactly its own.
   */
  lemma {:induction false} StoredIsAccepted(
    limits: Limits, code: nat -> nat, s: Sys, moves: seq<Move>, o: nat, p: nat)
    requires Start(limits, s) && p < |s.photos|
    ensures var t := Run(limits, code, s, moves);
            && |t.photos| == |s.photos|
            && Used(t.ledger, o) == Used(s.ledger, o) + AcceptedBytes(t.jobs, o)
            && |t.photos[p]| == |s.photos[p]| + AcceptedOn(t.jobs, p)
  {
    if moves == [] {
      NothingAcceptedYet(s.jobs, o, p);
    } else {
      var before, last := moves[..|moves| - 1], moves[|moves| - 1];
      StoredIsAccepted(limits, code, s, before, o, p);
      RunKeeps(limits, code, s, before);
      StepStores(limits, code, Run(limits, code, s, before), last.who, last.stored, o, p);
    }
  }

  /** Use is counted from nothing. */
  lemma NothingIsNothing(organisation: nat)
    ensures Used([], organisation) == 0
  {
  }

  /** Alone, an upload is accepted exactly when it fits: a free place on the passport and room in the quota. */
  lemma AloneFitsWhen(limits: Limits, code: nat -> nat, s: Sys)
    requires Start(limits, s) && |s.jobs| == 1
    ensures var u := s.jobs[0].upload;
            var t := Run(limits, code, s, [Move(0, true), Move(0, true), Move(0, true)]);
            && |t.jobs| == 1
            && (t.jobs[0].stage == Accepted <==>
                  u.passport < |s.photos| && |s.photos[u.passport]| < limits.photos
                  && Used(s.ledger, u.organisation) + u.bytes <= limits.quota)
  {
    var m := Move(0, true);
    assert [m, m, m][..2] == [m, m] && [m, m][..1] == [m] && [m][..0] == [];
    assert Run(limits, code, s, []) == s;
    var s1 := Step(limits, code, s, 0, true);
    assert Run(limits, code, s, [m]) == s1;
    var s2 := Step(limits, code, s1, 0, true);
    assert Run(limits, code, s, [m, m]) == s2;
  }

  // ---------------------------------------------------------------------------
  // Nobody waits for ever
  // ---------------------------------------------------------------------------

  /** The two locks are always taken in one order, so while a job is unfinished some job can move. */
  lemma SomeoneCanMove(code: nat -> nat, s: Sys, i: nat) returns (k: nat)
    requires LocksApart(code, s) && i < |s.jobs| && !Finished(s.jobs[i])
    ensures CanMove(code, s, k)
  {
    if q :| 0 <= q < |s.jobs| && s.jobs[q].stage == HasQuota {
      return q;
    }
    if p :| 0 <= p < |s.jobs| && s.jobs[p].stage == HasPassport {
      return p;
    }
    return i;
  }

  function MovesLeft(j: Job): nat {
    match j.stage
    case Waiting => 3
    case HasPassport => 2
    case HasQuota => 1
    case _ => 0
  }

  function MovesLeftInAll(jobs: seq<Job>): nat {
    if jobs == [] then 0 else MovesLeft(jobs[0]) + MovesLeftInAll(jobs[1..])
  }

  lemma {:induction false} MovesLeftAfter(jobs: seq<Job>, i: nat, j: Job)
    requires i < |jobs|
    ensures MovesLeftInAll(jobs[i := j]) == MovesLeftInAll(jobs) - MovesLeft(jobs[i]) + MovesLeft(j)
  {
    var after := jobs[i := j];
    if i == 0 {
      assert after[1..] == jobs[1..];
    } else {
      MovesLeftAfter(jobs[1..], i - 1, j);
      assert after[1..] == jobs[1..][i - 1 := j];
    }
  }

  lemma MovesRunOut(limits: Limits, code: nat -> nat, s: Sys, i: nat, stored: bool)
    requires CanMove(code, s, i)
    ensures MovesLeftInAll(Step(limits, code, s, i, stored).jobs) < MovesLeftInAll(s.jobs)
  {
    var t := Step(limits, code, s, i, stored);
    assert t.jobs == s.jobs[i := t.jobs[i]];
    MovesLeftAfter(s.jobs, i, t.jobs[i]);
  }
}
