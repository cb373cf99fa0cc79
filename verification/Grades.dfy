/**
 * Who sets a material's condition grade. Once an inspector has reported, the
 * grade is the newest inspector's or platform's, whatever its seller files or
 * edits; and what a buyer is told about the grade follows from that.
 */
module Grades {
  import opened Wrappers
  import opened Sorting

  type Time = int

  datatype Grade = A | B | C | D

  /** The roles that matter here; every other role reports as the seller. */
  datatype Role = Inspector | PlatformAdmin | OtherRole

  datatype Source = Independent | Seller | Platform

  function SourceOf(role: Role): Source {
    match role
    case Inspector => Independent
    case PlatformAdmin => Platform
    case OtherRole => Seller
  }

  /** A quality report, with its reporter's role as recorded; an older one may have no grade. */
  datatype Report = Report(role: Role, grade: Option<Grade>, at: Time)

  datatype Status = Draft | Active | Listed | Reserved | Sold | Installed | Decommissioned

  /** A passport and its reports, oldest first. */
  datatype Passport = Passport(status: Status, organisation: nat, grade: Option<Grade>, reports: seq<Report>)

  datatype Reporter = Reporter(role: Role, organisation: Option<nat>)

  datatype Error = Conflict | Forbidden

  predicate IsInspection(r: Report) { r.role == Inspector && r.grade.Some? }

  /** A report whose grade the seller cannot take back: an inspector's or the platform's. */
  predicate HasAuthority(r: Report) { SourceOf(r.role) != Seller && r.grade.Some? }

  predicate IsIndependent(r: Report) { SourceOf(r.role) == Independent }

  predicate IsPlatforms(r: Report) { SourceOf(r.role) == Platform }

  /** Of a given grade. */
  function Graded(grade: Option<Grade>): Report -> bool { (r: Report) => r.grade == grade }

  predicate HasIndependentInspection(reports: seq<Report>) { exists r :: r in reports && IsInspection(r) }

  // ---------------------------------------------------------------------------
  // The operations that touch the grade
  // ---------------------------------------------------------------------------

  function CreateQualityReport(p: Passport, who: Reporter, grade: Grade, now: Time): Result<Passport, Error> {
    if p.status == Draft then Err(Conflict)
    else if SourceOf(who.role) == Seller && who.organisation != Some(p.organisation) then Err(Forbidden)
    else
      var filed := p.(reports := p.reports + [Report(who.role, Some(grade), now)]);
      var gradeStands := SourceOf(who.role) == Seller && HasIndependentInspection(filed.reports);
      Ok(if gradeStands then filed else filed.(grade := Some(grade)))
  }

  /** The guard on the grade: once an inspector has graded the material, an edit may only repeat the grade. */
  predicate MayRegrade(p: Passport, grade: Option<Grade>) {
    grade.Some? && grade != p.grade ==> !HasIndependentInspection(p.reports)
  }

  /** An edit checked against the passport as read. */
  function CheckEdit(p: Passport, organisation: nat, grade: Option<Grade>): Result<(), Error> {
    if organisation != p.organisation then Err(Forbidden)
    else if p.status in {Listed, Reserved, Sold, Decommissioned} then Err(Conflict)
    else if !MayRegrade(p, grade) then Err(Conflict)
    else Ok(())
  }

  /** The write that follows: an absent grade leaves the column alone. */
  function WriteEdit(p: Passport, grade: Option<Grade>): Passport {
    if grade.Some? then p.(grade := grade) else p
  }

  function UpdatePassport(p: Passport, organisation: nat, grade: Option<Grade>): Result<Passport, Error> {
    match CheckEdit(p, organisation, grade)
    case Err(e) => Err(e)
    case Ok(_) => Ok(WriteEdit(p, grade))
  }

  /** A passport's row and the reports filed on it. */
  class Material {
    var status: Status
    var organisation: nat
    var conditionGrade: Option<Grade>
    var reports: seq<Report>

    ghost function Row(): Passport
      reads this
    {
      Passport(status, organisation, conditionGrade, reports)
    }

    constructor (organisation: nat, conditionGrade: Option<Grade>)
      ensures Row() == Passport(Draft, organisation, conditionGrade, [])
    {
      this.status, this.organisation, this.conditionGrade, reports := Draft, organisation, conditionGrade, [];
    }

    method HasInspection() returns (found: bool)
      ensures found == HasIndependentInspection(reports)
    {
      for i := 0 to |reports|
        invariant forall k :: 0 <= k < i ==> !IsInspection(reports[k])
      {
        if IsInspection(reports[i]) { return true; }
      }
      return false;
    }

    method FileReport(who: Reporter, grade: Grade, now: Time) returns (error: Option<Error>)
      modifies this
      ensures match CreateQualityReport(old(Row()), who, grade, now)
              case Ok(p) => error == None && Row() == p
              case Err(e) => error == Some(e) && Row() == old(Row())
    {
      if status == Draft { return Some(Conflict); }
      if SourceOf(who.role) == Seller && who.organisation != Some(organisation) { return Some(Forbidden); }
      reports := reports + [Report(who.role, Some(grade), now)];
      var gradeStands := false;
      if SourceOf(who.role) == Seller {
        gradeStands := HasInspection();
      }
      if !gradeStands && Some(grade) != conditionGrade {
        conditionGrade := Some(grade);
      }
      return None;
    }

    method EditGrade(caller: nat, grade: Option<Grade>) returns (error: Option<Error>)
      modifies this
      ensures match UpdatePassport(old(Row()), caller, grade)
              case Ok(p) => error == None && Row() == p
              case Err(e) => error == Some(e) && Row() == old(Row())
    {
      if caller != organisation { return Some(Forbidden); }
      if status in {Listed, Reserved, Sold, Decommissioned} { return Some(Conflict); }
      if grade.Some? && grade != conditionGrade {
        var inspected := HasInspection();
        if inspected { return Some(Conflict); }
      }
      if grade.Some? {
        conditionGrade := grade;
      }
      return None;
    }
  }

  // ---------------------------------------------------------------------------
  // Histories
  // ---------------------------------------------------------------------------

  datatype Event =
    | Reported(who: Reporter, grade: Grade, at: Time)
    | Edited(organisation: nat, newGrade: Option<Grade>)
    | Moved(status: Status)

  function Next(p: Passport, e: Event): Passport {
    match e
    case Reported(who, grade, at) =>
      (match CreateQualityReport(p, who, grade, at) case Ok(q) => q case Err(_) => p)
    case Edited(organisation, grade) =>
      (match UpdatePassport(p, organisation, grade) case Ok(q) => q case Err(_) => p)
    case Moved(status) => p.(status := status)
  }

  function Run(p: Passport, events: seq<Event>): Passport
    decreases |events|
  {
    if events == [] then p else Next(Run(p, events[..|events| - 1]), events[|events| - 1])
  }

  ghost predicate Inspected(p: Passport) {
    exists i :: 0 <= i < |p.reports| && p.reports[i].role == Inspector && p.reports[i].grade != None
  }

  /**
   * A report is taken on any registered material by an inspector or the
   * platform, and by a hub on its own; it sets the grade unless it is a hub's
   * on a material an inspector has graded.
   */
  lemma ReportCountsWhen(p: Passport, who: Reporter, grade: Grade, now: Time)
    ensures var r := CreateQualityReport(p, who, grade, now);
            && (r.Ok? <==> p.status != Draft
                           && (who.role in {Inspector, PlatformAdmin} || who.organisation == Some(p.organisation)))
            && (r.Err? ==> r.error == if p.status == Draft then Conflict else Forbidden)
            && (r.Ok? ==>
                  && r.value.reports == p.reports + [Report(who.role, Some(grade), now)]
                  && r.value.grade == (if who.role !in {Inspector, PlatformAdmin} && Inspected(p) then p.grade
                                       else Some(grade))
                  && r.value.status == p.status && r.value.organisation == p.organisation)
  {
    var filed := p.reports + [Report(who.role, Some(grade), now)];
    if Inspected(p) {
      var i :| 0 <= i < |p.reports| && p.reports[i].role == Inspector && p.reports[i].grade != None;
      assert filed[i] == p.reports[i] && IsInspection(filed[i]);
    }
    if HasIndependentInspection(filed) && who.role == OtherRole {
      var r :| r in filed && IsInspection(r);
      assert r in p.reports;
    }
  }

  /**
   * An edit is taken from the material's own organisation until it is listed
   * (and again once it is installed), but for a new grade after an inspection;
   * without a grade it leaves the grade alone.
   */
  lemma EditCountsWhen(p: Passport, organisation: nat, grade: Option<Grade>)
    ensures var r := UpdatePassport(p, organisation, grade);
            && (r.Ok? <==> organisation == p.organisation && p.status in {Draft, Active, Installed}
                           && (grade == None || grade == p.grade || !Inspected(p)))
            && (r.Err? ==> r.error == if organisation != p.organisation then Forbidden else Conflict)
            && (r.Ok? ==> r.value == p.(grade := if grade == None then p.grade else grade))
  {
    InspectedIs(p);
    assert p.status.Draft? || p.status.Active? || p.status.Installed? || p.status in {Listed, Reserved, Sold, Decommissioned};
  }

  lemma InspectedIs(p: Passport)
    ensures Inspected(p) <==> HasIndependentInspection(p.reports)
  {
    if HasIndependentInspection(p.reports) {
      var r :| r in p.reports && IsInspection(r);
      var i :| 0 <= i < |p.reports| && p.reports[i] == r;
      assert p.reports[i].role == Inspector && p.reports[i].grade != None;
    }
    if Inspected(p) {
      var i :| 0 <= i < |p.reports| && p.reports[i].role == Inspector && p.reports[i].grade != None;
      assert p.reports[i] in p.reports && IsInspection(p.reports[i]);
    }
  }

  /** Moving on is a change of status alone. */
  lemma MovingOn(p: Passport, status: Status)
    ensures Next(p, Moved(status)) == Passport(status, p.organisation, p.grade, p.reports)
  {
  }

  /** Reports are filed at rising times. */
  predicate InOrder(events: seq<Event>) {
    forall i, j :: 0 <= i < j < |events| && events[i].Reported? && events[j].Reported? ==> events[i].at < events[j].at
  }

  /** The newest report of a kind, in a history kept oldest first. */
  function Newest(reports: seq<Report>, kind: Report -> bool): Option<Report> {
    if reports == [] then None
    else
      var last := reports[|reports| - 1];
      if kind(last) then Some(last) else Newest(reports[..|reports| - 1], kind)
  }

  lemma {:induction false} NewestIs(reports: seq<Report>, kind: Report -> bool)
    ensures Newest(reports, kind).Some? <==> exists r :: r in reports && kind(r)
    ensures Newest(reports, kind).Some? ==>
              kind(Newest(reports, kind).value) && Newest(reports, kind).value in reports
  {
    if reports != [] {
      NewestIs(reports[..|reports| - 1], kind);
      assert reports == reports[..|reports| - 1] + [reports[|reports| - 1]];
    }
  }

  /** The grade is the newest authority's, as soon as one of the authorities is an inspector. */
  predicate GradeIsTheAuthoritys(p: Passport) {
    HasIndependentInspection(p.reports) ==>
      Newest(p.reports, HasAuthority).Some? && p.grade == Newest(p.reports, HasAuthority).value.grade
  }

  lemma NextKeepsAuthority(p: Passport, e: Event)
    requires GradeIsTheAuthoritys(p)
    ensures GradeIsTheAuthoritys(Next(p, e))
  {
    var q := Next(p, e);
    if q.reports != p.reports {
      var r := q.reports[|q.reports| - 1];
      assert q.reports[..|p.reports|] == p.reports;
      if !HasAuthority(r) && HasIndependentInspection(q.reports) {
        var i :| i in q.reports && IsInspection(i);
        assert i in p.reports;
      }
    }
  }

  /** Seller checks and edits included, the grade follows the last word of those who may set it. */
  lemma {:induction false} InspectionStands(p: Passport, events: seq<Event>)
    requires p.reports == []
    ensures GradeIsTheAuthoritys(Run(p, events))
  {
    if events != [] {
      InspectionStands(p, events[..|events| - 1]);
      NextKeepsAuthority(Run(p, events[..|events| - 1]), events[|events| - 1]);
    }
  }

  /** After an inspection, a grade changes only by an inspector's or the platform's report of the new grade. */
  lemma WhoMovesTheGrade(p: Passport, e: Event)
    requires HasIndependentInspection(p.reports) && Next(p, e).grade != p.grade
    ensures e.Reported? && SourceOf(e.who.role) != Seller && Next(p, e).grade == Some(e.grade)
  {
    var r :| r in p.reports && IsInspection(r);
    if e.Reported? {
      assert r in p.reports + [Report(e.who.role, Some(e.grade), e.at)];
    }
  }

  // ---------------------------------------------------------------------------
  // Edits that read before they write
  // ---------------------------------------------------------------------------

  /** A passport, and the grades of edits whose check has passed and whose write is still to come. */
  datatype Desk = Desk(passport: Passport, edits: seq<Option<Grade>>)

  /** An edit's check and its write are apart; anything may happen in between. */
  datatype Action =
    | Happens(event: Event)
    | Checks(organisation: nat, newGrade: Option<Grade>)
    | Writes(edit: nat)

  function Act(d: Desk, a: Action): Desk {
    match a
    case Happens(e) => d.(passport := Next(d.passport, e))
    case Checks(organisation, grade) =>
      if CheckEdit(d.passport, organisation, grade).Ok? then d.(edits := d.edits + [grade]) else d
    case Writes(i) =>
      if i < |d.edits|
      then Desk(WriteEdit(d.passport, d.edits[i]), d.edits[..i] + d.edits[i + 1..])
      else d
  }

  function ActAll(d: Desk, actions: seq<Action>): Desk
    decreases |actions|
  {
    if actions == [] then d else Act(ActAll(d, actions[..|actions| - 1]), actions[|actions| - 1])
  }

  /** The guard on the grade would still let the write through, on the row it is about to change. */
  predicate StillAllowed(d: Desk, a: Action) {
    a.Writes? && a.edit < |d.edits| ==> MayRegrade(d.passport, d.edits[a.edit])
  }

  ghost predicate AlwaysTheAuthoritys(d: Desk, actions: seq<Action>)
    decreases |actions|
  {
    GradeIsTheAuthoritys(ActAll(d, actions).passport)
    && (actions == [] || AlwaysTheAuthoritys(d, actions[..|actions| - 1]))
  }

  ghost predicate WritesStillAllowed(d: Desk, actions: seq<Action>)
    decreases |actions|
  {
    actions == [] ||
    (var before := actions[..|actions| - 1];
     WritesStillAllowed(d, before) && StillAllowed(ActAll(d, before), actions[|actions| - 1]))
  }

  /** A write keeps the authority's grade exactly when the guard still passes on the row being written. */
  lemma WriteKeepsWhen(p: Passport, grade: Option<Grade>)
    requires GradeIsTheAuthoritys(p)
    ensures GradeIsTheAuthoritys(WriteEdit(p, grade)) <==> MayRegrade(p, grade)
  {
  }

  lemma ActKeepsWhen(d: Desk, a: Action)
    requires GradeIsTheAuthoritys(d.passport)
    ensures GradeIsTheAuthoritys(Act(d, a).passport) <==> StillAllowed(d, a)
  {
    match a
    case Happens(e) => NextKeepsAuthority(d.passport, e);
    case Checks(_, _) =>
    case Writes(i) =>
      if i < |d.edits| {
        WriteKeepsWhen(d.passport, d.edits[i]);
      }
  }

  /**
   * Over every history from registration with checks and writes apart, the
   * grade is at every point the newest authority's once an inspector has
   * reported, exactly when every write would still pass the guard its edit
   * passed when it was checked.
   */
  lemma {:induction false} AuthorityStandsWhen(d: Desk, actions: seq<Action>)
    requires d.passport.reports == [] && d.edits == []
    ensures AlwaysTheAuthoritys(d, actions) <==> WritesStillAllowed(d, actions)
  {
    if actions != [] {
      var before := actions[..|actions| - 1];
      AuthorityStandsWhen(d, before);
      if WritesStillAllowed(d, before) {
        ActKeepsWhen(ActAll(d, before), actions[|actions| - 1]);
      }
    }
  }

  const ON_SALE_AT_B := Desk(Passport(Active, 1, Some(B), []), [])
  const INSPECTOR := Reporter(Inspector, None)

  /** An edit checked before an inspection and written after it takes the grade back from the inspector. */
  lemma OverlappingEditOverrides()
    ensures var d := ActAll(ON_SALE_AT_B, [Checks(1, Some(A)), Happens(Reported(INSPECTOR, C, 0)), Writes(0)]);
            && HasIndependentInspection(d.passport.reports) && d.passport.grade == Some(A)
            && !GradeIsTheAuthoritys(d.passport)
  {
    var d1 := Act(ON_SALE_AT_B, Checks(1, Some(A)));
    assert d1 == Desk(Passport(Active, 1, Some(B), []), [Some(A)]);
    var d2 := Act(d1, Happens(Reported(INSPECTOR, C, 0)));
    assert d2 == Desk(Passport(Active, 1, Some(C), [INSPECTED]), [Some(A)]);
    assert INSPECTED in d2.passport.reports && Newest([INSPECTED], HasAuthority) == Some(INSPECTED);
    ThreeActions(ON_SALE_AT_B, Checks(1, Some(A)), Happens(Reported(INSPECTOR, C, 0)), Writes(0));
  }

  const REINSPECTED := Report(Inspector, Some(D), 1)
  const REPEATS_THE_GRADE: seq<Action> :=
    [Happens(Reported(INSPECTOR, C, 0)), Checks(1, Some(C)), Happens(Reported(INSPECTOR, D, 1)), Writes(0)]

  lemma RepeatedGradeRun()
    ensures ActAll(ON_SALE_AT_B, REPEATS_THE_GRADE).passport == Passport(Active, 1, Some(C), [INSPECTED, REINSPECTED])
  {
    var a, b, c := REPEATS_THE_GRADE[0], REPEATS_THE_GRADE[1], REPEATS_THE_GRADE[2];
    var d1 := Act(ON_SALE_AT_B, a);
    assert d1 == Desk(Passport(Active, 1, Some(C), [INSPECTED]), []);
    var d2 := Act(d1, b);
    assert d2 == d1.(edits := [Some(C)]);
    var d3 := Act(d2, c);
    assert d3 == Desk(Passport(Active, 1, Some(D), [INSPECTED, REINSPECTED]), [Some(C)]);
    ThreeActions(ON_SALE_AT_B, a, b, c);
    OneMoreAction(ON_SALE_AT_B, [a, b, c], Writes(0));
    assert REPEATS_THE_GRADE == [a, b, c] + [Writes(0)];
  }

  /** One that repeats an inspection's grade passes the guard too, and then overrides the next inspection. */
  lemma RepeatedGradeOverrides()
    ensures var p := ActAll(ON_SALE_AT_B, REPEATS_THE_GRADE).passport;
            HasIndependentInspection(p.reports) && p.grade == Some(C) && !GradeIsTheAuthoritys(p)
  {
    RepeatedGradeRun();
    assert INSPECTED in [INSPECTED, REINSPECTED] && Newest([INSPECTED, REINSPECTED], HasAuthority) == Some(REINSPECTED);
  }

  lemma OneMoreAction(d: Desk, actions: seq<Action>, a: Action)
    ensures ActAll(d, actions + [a]) == Act(ActAll(d, actions), a)
  {
    assert (actions + [a])[..|actions|] == actions;
  }

  lemma ThreeActions(d: Desk, a: Action, b: Action, c: Action)
    ensures ActAll(d, [a, b, c]) == Act(Act(Act(d, a), b), c)
  {
    assert [a, b, c][..2] == [a, b] && [a, b][..1] == [a] && [a][..0] == [];
    assert ActAll(d, [a]) == Act(ActAll(d, []), a);
    assert ActAll(d, [a, b]) == Act(ActAll(d, [a]), b);
  }

  // ---------------------------------------------------------------------------
  // What a buyer is told
  // ---------------------------------------------------------------------------

  /** Who stands behind the grade shown. */
  datatype Basis =
    | NothingToSay
    | ByInspection(at: Time)
    | ByPlatform(at: Time)
    | Declared(inspected: bool)

  predicate Newer(a: Report, b: Report) { a.at > b.at }

  function Find(reports: seq<Report>, kind: Report -> bool): Option<Report> {
    if reports == [] then None
    else if kind(reports[0]) then Some(reports[0])
    else Find(reports[1..], kind)
  }

  function LatestIndependent(reports: seq<Report>): Option<Report> {
    Find(Sort(Newer, reports), IsIndependent)
  }

  function GradeBasis(grade: Option<Grade>, reports: seq<Report>): Basis {
    if grade.None? then NothingToSay
    else
      var newestFirst := Sort(Newer, reports);
      var inspected := Find(newestFirst, IsInspection);
      if inspected.Some? && inspected.value.grade == grade then ByInspection(inspected.value.at)
      else
        var setBy := Find(newestFirst, Graded(grade));
        if setBy.Some? && SourceOf(setBy.value.role) == Platform then ByPlatform(setBy.value.at)
        else Declared(LatestIndependent(reports).Some?)
  }

  /** Without a grade there is nothing to say of where it comes from. */
  lemma NoGradeNoBasis(reports: seq<Report>)
    ensures GradeBasis(None, reports) == NothingToSay
  {
  }

  function Reversed(s: seq<Report>): seq<Report> {
    if s == [] then [] else [s[|s| - 1]] + Reversed(s[..|s| - 1])
  }

  lemma {:induction false} ReversedAt(s: seq<Report>)
    ensures |Reversed(s)| == |s|
    ensures forall i :: 0 <= i < |s| ==> Reversed(s)[i] == s[|s| - 1 - i]
    ensures forall r :: r in Reversed(s) <==> r in s
  {
    if s != [] {
      ReversedAt(s[..|s| - 1]);
      assert s == s[..|s| - 1] + [s[|s| - 1]];
    }
  }

  lemma {:induction false} FindInReversed(s: seq<Report>, kind: Report -> bool)
    ensures Find(Reversed(s), kind) == Newest(s, kind)
  {
    if s != [] {
      FindInReversed(s[..|s| - 1], kind);
      assert Reversed(s)[1..] == Reversed(s[..|s| - 1]);
    }
  }

  predicate Rising(s: seq<Report>) {
    forall i, j :: 0 <= i < j < |s| ==> s[i].at < s[j].at
  }

  /** The same reports, in whatever order they were fetched. */
  ghost predicate Shows(shown: seq<Report>, reports: seq<Report>) {
    multiset(shown) == multiset(reports)
  }

  lemma ShownAreRanked(shown: seq<Report>, reports: seq<Report>)
    requires Rising(reports) && Shows(shown, reports)
    ensures Ranked(Newer, shown) && forall r :: r in shown <==> r in reports
  {
    forall r
      ensures r in shown <==> r in reports
    {
      assert r in shown <==> r in multiset(shown);
      assert r in reports <==> r in multiset(reports);
    }
    forall i, j | 0 <= i < j < |shown|
      ensures Newer(shown[i], shown[j]) || Newer(shown[j], shown[i])
    {
      if shown[i] == shown[j] {
        TwiceCounts(shown, i, j);
        OnceCounts(reports, shown[i]);
      }
      assert shown[i] in reports && shown[j] in reports;
    }
  }

  lemma TwiceCounts(s: seq<Report>, i: nat, j: nat)
    requires i < j < |s| && s[i] == s[j]
    ensures multiset(s)[s[i]] >= 2
  {
    assert s == s[..i] + [s[i]] + s[i + 1..j] + [s[j]] + s[j + 1..];
  }

  lemma {:induction false} OnceCounts(s: seq<Report>, r: Report)
    requires Rising(s)
    ensures multiset(s)[r] <= 1
  {
    if s != [] {
      OnceCounts(s[..|s| - 1], r);
      assert s == s[..|s| - 1] + [s[|s| - 1]];
      assert r in s[..|s| - 1] <==> multiset(s[..|s| - 1])[r] > 0;
    }
  }

  /** Whatever order reports come in, the first of a kind in newest-first order is the newest of that kind. */
  lemma FindIsNewest(shown: seq<Report>, reports: seq<Report>, kind: Report -> bool)
    requires Rising(reports) && Shows(shown, reports)
    ensures Find(Sort(Newer, shown), kind) == Newest(reports, kind)
  {
    ShownAreRanked(shown, reports);
    SortAscends(Newer, shown);
    ReversedAt(reports);
    forall r
      ensures r in Sort(Newer, shown) <==> r in Reversed(reports)
    {
      SortHolds(Newer, shown, r);
    }
    AscendingIsUnique(Newer, Sort(Newer, shown), Reversed(reports));
    FindInReversed(reports, kind);
  }

  lemma {:induction false} ReportsRise(p: Passport, events: seq<Event>)
    requires p.reports == [] && InOrder(events)
    ensures Rising(Run(p, events).reports)
    ensures forall r :: r in Run(p, events).reports ==>
              exists k :: 0 <= k < |events| && events[k].Reported? && events[k].at == r.at && r.grade.Some?
  {
    if events != [] {
      var before := events[..|events| - 1];
      ReportsRise(p, before);
      var q, last := Run(p, before), events[|events| - 1];
      forall r | r in Run(p, events).reports
        ensures exists k :: 0 <= k < |events| && events[k].Reported? && events[k].at == r.at && r.grade.Some?
      {
        if r in q.reports {
          var k :| 0 <= k < |before| && before[k].Reported? && before[k].at == r.at && r.grade.Some?;
          assert events[k] == before[k];
        } else {
          assert last.Reported? && last.at == r.at;
        }
      }
      forall i, j | 0 <= i < j < |Run(p, events).reports|
        ensures Run(p, events).reports[i].at < Run(p, events).reports[j].at
      {
        if j == |q.reports| {
          assert q.reports[i] in q.reports;
        }
      }
    }
  }

  /** The newest report of the authority's grade is its own or, after it, a seller's check. */
  lemma {:induction false} NewestOfTheGrade(reports: seq<Report>)
    requires Newest(reports, HasAuthority).Some?
    ensures var authority := Newest(reports, HasAuthority);
            var last := Newest(reports, Graded(authority.value.grade));
            last.Some? && (SourceOf(last.value.role) == Seller || last == authority)
  {
    var r := reports[|reports| - 1];
    NewestIs(reports, HasAuthority);
    if !HasAuthority(r) {
      NewestOfTheGrade(reports[..|reports| - 1]);
    }
  }

  /** The newest authority is the last inspection or a platform report after it. */
  lemma {:induction false} NewestAuthority(reports: seq<Report>)
    requires Rising(reports) && Newest(reports, IsInspection).Some?
    ensures var inspection, authority := Newest(reports, IsInspection), Newest(reports, HasAuthority);
            var platform := Newest(reports, IsPlatforms);
            authority.Some?
            && (authority == inspection
                || (IsPlatforms(authority.value) && platform.Some? && platform.value.at > inspection.value.at))
  {
    var before := reports[..|reports| - 1];
    var r := reports[|reports| - 1];
    if !IsInspection(r) {
      NewestAuthority(before);
      NewestIs(before, IsInspection);
    }
  }

  lemma BasisFromReports(q: Passport, shown: seq<Report>)
    requires Rising(q.reports) && Shows(shown, q.reports)
    requires HasIndependentInspection(q.reports) && GradeIsTheAuthoritys(q)
    ensures var inspection, authority := Newest(q.reports, IsInspection), Newest(q.reports, HasAuthority);
            var last := Newest(q.reports, Graded(q.grade));
            && inspection.Some? && authority.Some? && last.Some?
            && (q.grade == inspection.value.grade ==> GradeBasis(q.grade, shown) == ByInspection(inspection.value.at))
            && (q.grade != inspection.value.grade ==>
                  GradeBasis(q.grade, shown) ==
                  if SourceOf(last.value.role) == Seller then Declared(true) else ByPlatform(authority.value.at))
  {
    NewestIs(q.reports, IsInspection);
    NewestIs(q.reports, IsIndependent);
    NewestIs(q.reports, HasAuthority);
    NewestAuthority(q.reports);
    NewestOfTheGrade(q.reports);
    FindIsNewest(shown, q.reports, IsInspection);
    FindIsNewest(shown, q.reports, Graded(q.grade));
    FindIsNewest(shown, q.reports, IsIndependent);
    var inspection := Newest(q.reports, IsInspection).value;
    assert inspection in q.reports && IsIndependent(inspection);
  }

  /**
   * What buyers are told of an inspected material, over every history: the
   * last inspection while the grade is the one it gave. When the platform has
   * since set another, the platform, unless a seller's check has repeated it.
   */
  lemma BasisOfInspected(p: Passport, events: seq<Event>, shown: seq<Report>)
    requires p.reports == [] && InOrder(events)
    requires HasIndependentInspection(Run(p, events).reports) && Shows(shown, Run(p, events).reports)
    ensures var q := Run(p, events);
            var inspection, authority := Newest(q.reports, IsInspection), Newest(q.reports, HasAuthority);
            var last := Newest(q.reports, Graded(q.grade));
            && inspection.Some? && authority.Some? && last.Some? && q.grade == authority.value.grade
            && (q.grade == inspection.value.grade ==> GradeBasis(q.grade, shown) == ByInspection(inspection.value.at))
            && (q.grade != inspection.value.grade ==>
                  GradeBasis(q.grade, shown) ==
                  if SourceOf(last.value.role) == Seller then Declared(true) else ByPlatform(authority.value.at))
  {
    InspectionStands(p, events);
    ReportsRise(p, events);
    BasisFromReports(Run(p, events), shown);
  }

  /** With no platform report since the last inspection, that inspection is credited. */
  lemma InspectionIsCredited(p: Passport, events: seq<Event>, shown: seq<Report>)
    requires p.reports == [] && InOrder(events)
    requires HasIndependentInspection(Run(p, events).reports) && Shows(shown, Run(p, events).reports)
    ensures var q := Run(p, events);
            var inspection, platform := Newest(q.reports, IsInspection), Newest(q.reports, IsPlatforms);
            inspection.Some?
            && (platform.None? || platform.value.at < inspection.value.at ==>
                  GradeBasis(q.grade, shown) == ByInspection(inspection.value.at))
  {
    BasisOfInspected(p, events, shown);
    ReportsRise(p, events);
    NewestAuthority(Run(p, events).reports);
  }

  const INSPECTED := Report(Inspector, Some(C), 0)
  const REGRADED := Report(PlatformAdmin, Some(B), 1)
  const REPEATED := Report(OtherRole, Some(B), 2)

  lemma RepeatedHistory()
    ensures var events := [Reported(Reporter(Inspector, None), C, 0), Reported(Reporter(PlatformAdmin, None), B, 1),
                           Reported(Reporter(OtherRole, Some(1)), B, 2)];
            InOrder(events)
            && Run(Passport(Active, 1, None, []), events) == Passport(Active, 1, Some(B), [INSPECTED, REGRADED, REPEATED])
  {
    var e0 := Reported(Reporter(Inspector, None), C, 0);
    var e1 := Reported(Reporter(PlatformAdmin, None), B, 1);
    var e2 := Reported(Reporter(OtherRole, Some(1)), B, 2);
    var p := Passport(Active, 1, None, []);
    assert [e0, e1, e2][..2] == [e0, e1] && [e0, e1][..1] == [e0];
    assert Run(p, [e0]) == p.(grade := Some(C), reports := [INSPECTED]);
    assert Run(p, [e0, e1]) == p.(grade := Some(B), reports := [INSPECTED, REGRADED]);
    assert INSPECTED in [INSPECTED, REGRADED, REPEATED];
  }

  /** A seller's check that repeats the platform's grade takes the credit for it. */
  lemma SellerTakesTheCredit()
    ensures var reports := [INSPECTED, REGRADED, REPEATED];
            && Newest(reports, HasAuthority) == Some(REGRADED)
            && GradeBasis(Some(B), reports) == Declared(true)
  {
    var reports := [INSPECTED, REGRADED, REPEATED];
    assert reports[..2] == [INSPECTED, REGRADED] && [INSPECTED, REGRADED][..1] == [INSPECTED];
    assert INSPECTED in reports;
    assert Newest([INSPECTED], IsInspection) == Some(INSPECTED);
    assert Newest([INSPECTED, REGRADED], IsInspection) == Some(INSPECTED);
    BasisFromReports(Passport(Active, 1, Some(B), reports), reports);
  }
}
