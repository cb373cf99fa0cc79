/**
 * Fingerprints without a chain. A passport's row has many columns; some make
 * up the canonical document that is hashed. Every change to hashed data is
 * one statement that returns the row it wrote, and a later one that stores
 * the fingerprint of that row.
 */
module SimulatedAnchor {

  type Hash = nat

  datatype Column =
    | Id | OrganisationId | Gtin | SerialNumber | DigitalLinkUri | QrCodeUrl
    | ProductName | CategoryL1 | CategoryL2 | UnitOfMeasure | MaterialComposition | Dimensions | TechnicalSpecs
    | ManufacturerName | CountryOfOrigin | ProductionDate
    | GwpTotal | EmbodiedCarbon | RecycledContent | EpdReference
    | CeMarking | DeclarationOfPerformance | HarmonisedStandard
    | Origin | PreviousBuildingId | DeconstructionDate | DeconstructionMethod | ReclaimedBy
    | ConditionGrade | ConditionNotes | ConditionPhotos | OriginalAge | RemainingLifeEstimate
    | CarbonSavingsVsNew | CircularityScore | ReuseCount | ReuseSuitability | HandlingRequirements | HazardousSubstances
    | CustomAttributes | Status
    | BlockchainTxHash | BlockchainPassportHash | BlockchainAnchoredAt | BlockchainChainId
    | RegisteredBy | CreatedAt | UpdatedAt

  datatype Value = Null | Plain(content: nat) | Fingerprint(hash: Hash)

  /** A row; a column without a value is not in the map. */
  type Row = map<Column, Value>

  /** What an UPDATE or INSERT sets. */
  type Changes = map<Column, Value>

  // ---------------------------------------------------------------------------
  // The canonical document
  // ---------------------------------------------------------------------------

  /** The columns the canonical document is built from. */
  predicate Hashed(c: Column) {
    match c
    case Id | OrganisationId | ProductName | CategoryL1 | CategoryL2 | Gtin | SerialNumber => true
    case MaterialComposition | Dimensions | TechnicalSpecs | ManufacturerName | CountryOfOrigin | ProductionDate => true
    case GwpTotal | EmbodiedCarbon | RecycledContent | EpdReference | CeMarking => true
    case ConditionGrade | ConditionNotes | DeconstructionDate | DeconstructionMethod | ReclaimedBy => true
    case RemainingLifeEstimate | CarbonSavingsVsNew | HazardousSubstances | CreatedAt => true
    case _ => false
  }

  /** A column without a value reads as null. */
  function At(row: Row, c: Column): Value { if c in row then row[c] else Null }

  /** The canonical document of a row. */
  function Document(row: Row): Row { map c: Column | Hashed(c) :: At(row, c) }

  /** A statement leaves the document as it is exactly when it sets every hashed column to what it was. */
  lemma DocumentStaysWhen(row: Row, changes: Changes)
    ensures Document(row + changes) == Document(row) <==>
            forall c :: c in changes && Hashed(c) ==> changes[c] == At(row, c)
  {
    var after := row + changes;
    if Document(after) == Document(row) {
      forall c | c in changes && Hashed(c)
        ensures changes[c] == At(row, c)
      {
        assert Document(after)[c] == changes[c] && Document(row)[c] == At(row, c);
      }
    }
    if forall c :: c in changes && Hashed(c) ==> changes[c] == At(row, c) {
      forall c | Hashed(c)
        ensures At(after, c) == At(row, c)
      {
      }
    }
  }

  /** The columns a passport's integrity is about. */
  const PROTECTED: set<Column> := {
    Id, OrganisationId, ProductName, CategoryL1, CategoryL2, Gtin, SerialNumber, MaterialComposition, Dimensions,
    TechnicalSpecs, ManufacturerName, CountryOfOrigin, ProductionDate, GwpTotal, EmbodiedCarbon, RecycledContent,
    EpdReference, CeMarking, ConditionGrade, ConditionNotes, DeconstructionDate, DeconstructionMethod, ReclaimedBy,
    RemainingLifeEstimate, CarbonSavingsVsNew, HazardousSubstances, CreatedAt }

  lemma ProtectedAre(c: Column)
    ensures Hashed(c) <==> c in PROTECTED
  {
  }

  lemma SameOver(row: Row, other: Row, columns: set<Column>)
    requires forall c :: c in columns <==> Hashed(c)
    ensures Document(row) == Document(other) <==> forall c :: c in columns ==> At(row, c) == At(other, c)
  {
    if Document(row) == Document(other) {
      forall c | c in columns
        ensures At(row, c) == At(other, c)
      {
        assert Document(row)[c] == Document(other)[c];
      }
    }
  }

  /** Two rows have one document exactly when they agree on every protected column. */
  lemma SameDocumentWhen(row: Row, other: Row)
    ensures Document(row) == Document(other) <==> forall c :: c in PROTECTED ==> At(row, c) == At(other, c)
  {
    forall c
      ensures c in PROTECTED <==> Hashed(c)
    {
      ProtectedAre(c);
    }
    SameOver(row, other, PROTECTED);
  }

  // ---------------------------------------------------------------------------
  // The statements
  // ---------------------------------------------------------------------------

  /** The columns a request may edit. */
  predicate Editable(c: Column) {
    match c
    case ProductName | CategoryL1 | CategoryL2 | UnitOfMeasure | SerialNumber => true
    case MaterialComposition | Dimensions | TechnicalSpecs | ManufacturerName | CountryOfOrigin | ProductionDate => true
    case GwpTotal | EmbodiedCarbon | RecycledContent | EpdReference => true
    case CeMarking | DeclarationOfPerformance | HarmonisedStandard => true
    case Origin | PreviousBuildingId | DeconstructionDate | DeconstructionMethod | ReclaimedBy => true
    case ConditionGrade | ConditionNotes | OriginalAge | RemainingLifeEstimate | CarbonSavingsVsNew => true
    case CircularityScore | ReuseSuitability | HandlingRequirements | HazardousSubstances | CustomAttributes => true
    case _ => false
  }

  const DRAFT := Plain(0)
  const ACTIVE := Plain(1)

  /** The first insert: what the request gives, its keeper and its times, and nothing anchored. */
  function InsertSets(input: Changes, id: nat, organisation: nat, user: nat, now: nat): Changes {
    (map c | c in input && Editable(c) :: input[c])
    + map[Id := Plain(id), OrganisationId := Plain(organisation), RegisteredBy := Plain(user), Status := DRAFT,
          CreatedAt := Plain(now), UpdatedAt := Plain(now)]
  }

  function IdentifiersSet(link: nat, qr: nat, now: nat): Changes {
    map[DigitalLinkUri := Plain(link), QrCodeUrl := Plain(qr), UpdatedAt := Plain(now)]
  }

  function ActivationSets(now: nat): Changes { map[Status := ACTIVE, UpdatedAt := Plain(now)] }

  /** An edit sets the columns the request carries and clears the anchor. */
  function EditSets(input: Changes, now: nat): Changes {
    (map c | c in input && Editable(c) :: input[c])
    + map[UpdatedAt := Plain(now), BlockchainPassportHash := Null, BlockchainTxHash := Null, BlockchainAnchoredAt := Null]
  }

  /** A report that changes the grade leaves the anchor to the statement after it. */
  function GradeSets(grade: nat, now: nat): Changes { map[ConditionGrade := Plain(grade), UpdatedAt := Plain(now)] }

  /** Listings and orders move the status alone. */
  function TradeSets(status: nat, now: nat): Changes { map[Status := Plain(status), UpdatedAt := Plain(now)] }

  function PhotoSets(photos: nat, now: nat): Changes { map[ConditionPhotos := Plain(photos), UpdatedAt := Plain(now)] }

  function StampSets(fingerprint: Hash, now: nat): Changes {
    map[BlockchainPassportHash := Fingerprint(fingerprint), BlockchainAnchoredAt := Plain(now), BlockchainTxHash := Null,
        UpdatedAt := Plain(now)]
  }

  /** Sets no column of the document. */
  ghost predicate Aside(changes: Changes) { forall c :: c in changes ==> !Hashed(c) }

  lemma AsideLeaves(row: Row, changes: Changes)
    requires Aside(changes)
    ensures Document(row + changes) == Document(row)
  {
    DocumentStaysWhen(row, changes);
  }

  lemma IdentifiersLeaveTheDocument(row: Row, link: nat, qr: nat, now: nat)
    ensures Aside(IdentifiersSet(link, qr, now)) && Document(row + IdentifiersSet(link, qr, now)) == Document(row)
  {
    AsideLeaves(row, IdentifiersSet(link, qr, now));
  }

  lemma ActivationLeavesTheDocument(row: Row, now: nat)
    ensures Aside(ActivationSets(now)) && Document(row + ActivationSets(now)) == Document(row)
  {
    AsideLeaves(row, ActivationSets(now));
  }

  /** Neither listing nor any order step is part of the document. */
  lemma TradesLeaveTheDocument(row: Row, status: nat, now: nat)
    ensures Aside(TradeSets(status, now)) && Document(row + TradeSets(status, now)) == Document(row)
  {
    AsideLeaves(row, TradeSets(status, now));
  }

  lemma PhotosLeaveTheDocument(row: Row, photos: nat, now: nat)
    ensures Aside(PhotoSets(photos, now)) && Document(row + PhotoSets(photos, now)) == Document(row)
  {
    AsideLeaves(row, PhotoSets(photos, now));
  }

  /** Storing a fingerprint does not change what it is the fingerprint of. */
  lemma StampLeavesTheDocument(row: Row, fingerprint: Hash, now: nat)
    ensures Aside(StampSets(fingerprint, now)) && Document(row + StampSets(fingerprint, now)) == Document(row)
  {
    AsideLeaves(row, StampSets(fingerprint, now));
  }

  // ---------------------------------------------------------------------------
  // Schedules
  // ---------------------------------------------------------------------------

  /** A writer of hashed data: its number, and the row its statement returned. */
  datatype Writer = Writer(number: nat, returned: Row)

  /**
   * A passport's row, empty until it is inserted, and the writers that have
   * still to store a fingerprint. `versions` has the document each writer's
   * statement left, by number, and `stamper` the writer that stored last.
   */
  datatype World = World(row: Row, writers: seq<Writer>, versions: seq<Row>, stampers: seq<nat>)

  const EMPTY := World(map[], [], [], [])

  datatype Step =
    | Inserted(input: Changes, id: nat, organisation: nat, user: nat)
    | Identified(link: nat, qr: nat)
    | Activated
    | Edited(input: Changes)
    | Graded(grade: nat)
    | Stamped(writer: nat)
    | Traded(status: nat)
    | Photographed(photos: nat)

  /** A statement whose returned row is to be fingerprinted. */
  function Written(w: World, changes: Changes): World {
    var row := w.row + changes;
    World(row, w.writers + [Writer(|w.versions|, row)], w.versions + [Document(row)], w.stampers)
  }

  function Next(hash: Row -> Hash, w: World, s: Step, now: nat): World {
    if s.Inserted? then
      if w.row == map[] then w.(row := InsertSets(s.input, s.id, s.organisation, s.user, now)) else w
    else if w.row == map[] then w
    else
      match s
      case Identified(link, qr) => w.(row := w.row + IdentifiersSet(link, qr, now))
      case Activated => Written(w, ActivationSets(now))
      case Edited(input) => Written(w, EditSets(input, now))
      case Graded(grade) => Written(w, GradeSets(grade, now))
      case Traded(status) => w.(row := w.row + TradeSets(status, now))
      case Photographed(photos) => w.(row := w.row + PhotoSets(photos, now))
      case Stamped(i) =>
        if i < |w.writers| then
          World(w.row + StampSets(hash(Document(w.writers[i].returned)), now), w.writers[..i] + w.writers[i + 1..],
                w.versions, w.stampers + [w.writers[i].number])
        else w
      case _ => w
  }

  /** The columns of a request's body. */
  const EDITABLE: set<Column> := {
    ProductName, CategoryL1, CategoryL2, UnitOfMeasure, SerialNumber, MaterialComposition, Dimensions, TechnicalSpecs,
    ManufacturerName, CountryOfOrigin, ProductionDate, GwpTotal, EmbodiedCarbon, RecycledContent, EpdReference,
    CeMarking, DeclarationOfPerformance, HarmonisedStandard, Origin, PreviousBuildingId, DeconstructionDate,
    DeconstructionMethod, ReclaimedBy, ConditionGrade, ConditionNotes, OriginalAge, RemainingLifeEstimate,
    CarbonSavingsVsNew, CircularityScore, ReuseSuitability, HandlingRequirements, HazardousSubstances, CustomAttributes }

  lemma EditableAre(c: Column)
    ensures Editable(c) <==> c in EDITABLE
  {
  }

  /** An edit gives each of them that the request carries, takes the anchor off, and leaves the rest. */
  lemma EditedColumn(row: Row, input: Changes, now: nat, c: Column)
    ensures At(row + EditSets(input, now), c) ==
            if c == UpdatedAt then Plain(now)
            else if c in {BlockchainPassportHash, BlockchainTxHash, BlockchainAnchoredAt} then Null
            else if c in input && Editable(c) then input[c]
            else At(row, c)
  {
    Overlaid(row, map k | k in input && Editable(k) :: input[k],
             map[UpdatedAt := Plain(now), BlockchainPassportHash := Null, BlockchainTxHash := Null,
                 BlockchainAnchoredAt := Null], c);
  }

  lemma Overlaid(row: Row, first: Changes, last: Changes, c: Column)
    ensures At(row + (first + last), c) == if c in last then last[c] else if c in first then first[c] else At(row, c)
  {
  }

  /** A new row has what the request gives, its keeper, and nothing anchored. */
  lemma InsertedColumn(input: Changes, id: nat, organisation: nat, user: nat, now: nat, c: Column)
    ensures At(InsertSets(input, id, organisation, user, now), c) ==
            if c == Id then Plain(id)
            else if c == OrganisationId then Plain(organisation)
            else if c == RegisteredBy then Plain(user)
            else if c == Status then DRAFT
            else if c == CreatedAt || c == UpdatedAt then Plain(now)
            else if c in input && Editable(c) then input[c]
            else Null
  {
  }

  lemma StampedColumn(row: Row, fingerprint: Hash, now: nat, c: Column)
    ensures At(row + StampSets(fingerprint, now), c) ==
            if c == BlockchainPassportHash then Fingerprint(fingerprint)
            else if c == BlockchainAnchoredAt || c == UpdatedAt then Plain(now)
            else if c == BlockchainTxHash then Null
            else At(row, c)
  {
  }

  lemma IdentifiedColumn(row: Row, link: nat, qr: nat, now: nat, c: Column)
    ensures At(row + IdentifiersSet(link, qr, now), c) ==
            if c == DigitalLinkUri then Plain(link)
            else if c == QrCodeUrl then Plain(qr)
            else if c == UpdatedAt then Plain(now)
            else At(row, c)
  {
  }

  /** The smaller statements set one column each, and the time of the change. */
  lemma OneColumn(row: Row, changes: Changes, one: Column, v: Value, now: nat, c: Column)
    requires changes == map[one := v, UpdatedAt := Plain(now)] && one != UpdatedAt
    ensures At(row + changes, c) == if c == one then v else if c == UpdatedAt then Plain(now) else At(row, c)
  {
  }

  lemma StatusColumn(row: Row, status: nat, now: nat, c: Column)
    ensures At(row + TradeSets(status, now), c)
         == if c == Status then Plain(status) else if c == UpdatedAt then Plain(now) else At(row, c)
    ensures At(row + ActivationSets(now), c)
         == if c == Status then ACTIVE else if c == UpdatedAt then Plain(now) else At(row, c)
  {
    OneColumn(row, TradeSets(status, now), Status, Plain(status), now, c);
    OneColumn(row, ActivationSets(now), Status, ACTIVE, now, c);
  }

  lemma GradeAndPhotosColumns(row: Row, n: nat, now: nat, c: Column)
    ensures At(row + GradeSets(n, now), c)
         == if c == ConditionGrade then Plain(n) else if c == UpdatedAt then Plain(now) else At(row, c)
    ensures At(row + PhotoSets(n, now), c)
         == if c == ConditionPhotos then Plain(n) else if c == UpdatedAt then Plain(now) else At(row, c)
  {
    OneColumn(row, GradeSets(n, now), ConditionGrade, Plain(n), now, c);
    OneColumn(row, PhotoSets(n, now), ConditionPhotos, Plain(n), now, c);
  }

  /** Each step on a row is its statement, and without a row only an insert does anything. */
  lemma StepsWrite(hash: Row -> Hash, w: World, s: Step, now: nat)
    ensures w.row == map[] && !s.Inserted? ==> Next(hash, w, s, now) == w
    ensures w.row == map[] && s.Inserted? ==>
              Next(hash, w, s, now).row == InsertSets(s.input, s.id, s.organisation, s.user, now)
    ensures w.row != map[] ==>
              Next(hash, w, s, now).row ==
              match s
              case Inserted(_, _, _, _) => w.row
              case Identified(link, qr) => w.row + IdentifiersSet(link, qr, now)
              case Activated => w.row + ActivationSets(now)
              case Edited(input) => w.row + EditSets(input, now)
              case Graded(grade) => w.row + GradeSets(grade, now)
              case Traded(status) => w.row + TradeSets(status, now)
              case Photographed(photos) => w.row + PhotoSets(photos, now)
              case Stamped(i) =>
                if i < |w.writers| then w.row + StampSets(hash(Document(w.writers[i].returned)), now) else w.row
  {
  }

  datatype Timed = Timed(step: Step, now: nat)

  function Run(hash: Row -> Hash, steps: seq<Timed>): World
    decreases |steps|
  {
    if steps == [] then EMPTY
    else Next(hash, Run(hash, steps[..|steps| - 1]), steps[|steps| - 1].step, steps[|steps| - 1].now)
  }

  /** The integrity check a visitor can ask for. */
  datatype Integrity = Pending | Match | Mismatch

  function VerifyIntegrity(hash: Row -> Hash, row: Row): Integrity {
    if BlockchainPassportHash !in row || row[BlockchainPassportHash] == Null then Pending
    else if row[BlockchainPassportHash] == Fingerprint(hash(Document(row))) then Match
    else Mismatch
  }

  /**
   * A row that carries the fingerprint of another checks out exactly when it
   * agrees with that one on every protected column: a change of any of them
   * shows, and no other change does.
   */
  lemma ChangeShowsWhenProtected(hash: Row -> Hash, stamped: Row, row: Row)
    requires forall d, e :: hash(d) == hash(e) ==> d == e
    requires At(row, BlockchainPassportHash) == Fingerprint(hash(Document(stamped)))
    ensures VerifyIntegrity(hash, row) == Match <==> forall c :: c in PROTECTED ==> At(row, c) == At(stamped, c)
    ensures VerifyIntegrity(hash, row) != Pending
  {
    SameDocumentWhen(row, stamped);
  }

  predicate WriterOk(w: World, x: Writer) {
    x.number < |w.versions| && Document(x.returned) == w.versions[x.number]
  }

  /** What the history knows at every point of every schedule. */
  ghost predicate Known(hash: Row -> Hash, w: World) {
    && (forall i :: 0 <= i < |w.writers| ==> WriterOk(w, w.writers[i]))
    && (w.versions != [] ==> w.row != map[] && Document(w.row) == w.versions[|w.versions| - 1])
    && (forall n :: n in w.stampers ==> n < |w.versions|)
    && (BlockchainPassportHash in w.row && w.row[BlockchainPassportHash] != Null ==>
          && w.stampers != [] && w.stampers[|w.stampers| - 1] < |w.versions|
          && w.row[BlockchainPassportHash] == Fingerprint(hash(w.versions[w.stampers[|w.stampers| - 1]])))
    && (w.versions != [] && w.writers == [] ==>
          BlockchainPassportHash in w.row && w.row[BlockchainPassportHash] != Null)
    && (forall n :: 0 <= n < |w.versions| ==> n in w.stampers || IsWaiting(w, n))
  }

  ghost predicate IsWaiting(w: World, n: nat) { exists i :: 0 <= i < |w.writers| && w.writers[i].number == n }

  lemma WrittenKnown(hash: Row -> Hash, w: World, changes: Changes)
    requires Known(hash, w) && w.row != map[]
    requires BlockchainPassportHash in changes ==> changes[BlockchainPassportHash] == Null
    ensures Known(hash, Written(w, changes))
  {
    var v := Written(w, changes);
    NotEmptied(w.row, changes);
    forall n | 0 <= n < |v.versions|
      ensures n in v.stampers || IsWaiting(v, n)
    {
      if n == |w.versions| {
        assert v.writers[|w.writers|].number == n;
      } else if IsWaiting(w, n) {
        var i :| 0 <= i < |w.writers| && w.writers[i].number == n;
        assert v.writers[i].number == n;
      }
    }
    forall i | 0 <= i < |v.writers|
      ensures WriterOk(v, v.writers[i])
    {
      assert i < |w.writers| ==> WriterOk(w, w.writers[i]);
    }
  }

  /** A statement outside the document and the anchor. */
  lemma AsideKnown(hash: Row -> Hash, w: World, changes: Changes)
    requires Known(hash, w) && w.row != map[] && BlockchainPassportHash !in changes && Aside(changes)
    ensures Known(hash, w.(row := w.row + changes))
  {
    var v := w.(row := w.row + changes);
    AsideLeaves(w.row, changes);
    NotEmptied(w.row, changes);
    forall i | 0 <= i < |v.writers|
      ensures WriterOk(v, v.writers[i])
    {
      assert WriterOk(w, w.writers[i]);
    }
    forall n | 0 <= n < |v.versions|
      ensures n in v.stampers || IsWaiting(v, n)
    {
      assert IsWaiting(w, n) ==> IsWaiting(v, n);
    }
  }

  lemma StampedKnown(hash: Row -> Hash, w: World, i: nat, now: nat)
    requires Known(hash, w) && w.row != map[] && i < |w.writers|
    ensures Known(hash, Next(hash, w, Stamped(i), now))
  {
    var v := Next(hash, w, Stamped(i), now);
    assert WriterOk(w, w.writers[i]);
    StampIsAside(w.row, hash(Document(w.writers[i].returned)), now);
    forall k | 0 <= k < |v.writers|
      ensures WriterOk(v, v.writers[k])
    {
      assert WriterOk(w, w.writers[if k < i then k else k + 1]);
    }
    forall n | 0 <= n < |v.versions|
      ensures n in v.stampers || IsWaiting(v, n)
    {
      StillWaiting(w, i, n, v);
    }
  }

  lemma StampIsAside(row: Row, fingerprint: Hash, now: nat)
    ensures Document(row + StampSets(fingerprint, now)) == Document(row)
    ensures row + StampSets(fingerprint, now) != map[]
    ensures BlockchainPassportHash in row + StampSets(fingerprint, now)
    ensures (row + StampSets(fingerprint, now))[BlockchainPassportHash] == Fingerprint(fingerprint)
  {
    StampLeavesTheDocument(row, fingerprint, now);
    assert BlockchainPassportHash in row + StampSets(fingerprint, now);
  }

  /** A writer stops waiting when it stamps, and no other does. */
  lemma StillWaiting(w: World, i: nat, n: nat, v: World)
    requires i < |w.writers| && v.writers == w.writers[..i] + w.writers[i + 1..]
    requires v.stampers == w.stampers + [w.writers[i].number] && (n in w.stampers || IsWaiting(w, n))
    ensures n in v.stampers || IsWaiting(v, n)
  {
    if n !in w.stampers && n != w.writers[i].number {
      var k :| 0 <= k < |w.writers| && w.writers[k].number == n;
      assert v.writers[if k < i then k else k - 1].number == n;
    }
  }

  lemma NextKnown(hash: Row -> Hash, w: World, s: Step, now: nat)
    requires Known(hash, w)
    ensures Known(hash, Next(hash, w, s, now))
  {
    if w.row != map[] {
      match s
      case Identified(link, qr) =>
        IdentifiersLeaveTheDocument(w.row, link, qr, now);
        AsideKnown(hash, w, IdentifiersSet(link, qr, now));
      case Activated => WrittenKnown(hash, w, ActivationSets(now));
      case Edited(input) => WrittenKnown(hash, w, EditSets(input, now));
      case Graded(grade) => WrittenKnown(hash, w, GradeSets(grade, now));
      case Traded(status) =>
        TradesLeaveTheDocument(w.row, status, now);
        AsideKnown(hash, w, TradeSets(status, now));
      case Photographed(photos) =>
        PhotosLeaveTheDocument(w.row, photos, now);
        AsideKnown(hash, w, PhotoSets(photos, now));
      case Stamped(i) =>
        if i < |w.writers| {
          StampedKnown(hash, w, i, now);
        }
      case _ =>
    }
  }

  lemma {:induction false} RunKnown(hash: Row -> Hash, steps: seq<Timed>)
    ensures Known(hash, Run(hash, steps))
  {
    if steps != [] {
      var before, last := steps[..|steps| - 1], steps[|steps| - 1];
      RunKnown(hash, before);
      NextKnown(hash, Run(hash, before), last.step, last.now);
    }
  }

  // ---------------------------------------------------------------------------
  // Exactly when the fingerprint matches
  // ---------------------------------------------------------------------------

  /**
   * Over every interleaving from creation, once every writer has stored its
   * fingerprint, the check matches exactly when the writer that stored last
   * is the one that wrote last, or wrote the very same document.
   */
  lemma MatchesExactlyWhen(hash: Row -> Hash, steps: seq<Timed>)
    requires var w := Run(hash, steps); w.versions != [] && w.writers == []
    requires forall d, e :: hash(d) == hash(e) ==> d == e
    ensures Run(hash, steps).stampers != []
    ensures var w := Run(hash, steps);
            var wrote, stored := |w.versions| - 1, w.stampers[|w.stampers| - 1];
            && stored <= wrote
            && (VerifyIntegrity(hash, w.row) == Match <==> stored == wrote || w.versions[stored] == w.versions[wrote])
            && VerifyIntegrity(hash, w.row) != Pending
  {
    RunKnown(hash, steps);
  }

  /** A stamp by a writer that wrote after everyone who has stamped. */
  predicate StampInOrder(w: World, s: Step) {
    s.Stamped? && s.writer < |w.writers| ==> forall n :: n in w.stampers ==> n < w.writers[s.writer].number
  }

  /** Writers store their fingerprints in the order they wrote, whatever else comes between. */
  ghost predicate StampsInOrder(hash: Row -> Hash, steps: seq<Timed>)
    decreases |steps|
  {
    steps == [] ||
    (var before := steps[..|steps| - 1];
     StampsInOrder(hash, before) && StampInOrder(Run(hash, before), steps[|steps| - 1].step))
  }

  /** The last to stamp so far is the newest of those that have. */
  predicate LastIsNewest(w: World) { forall n :: n in w.stampers ==> n <= w.stampers[|w.stampers| - 1] }

  lemma {:induction false} NewestStampsLast(hash: Row -> Hash, steps: seq<Timed>)
    requires StampsInOrder(hash, steps)
    ensures LastIsNewest(Run(hash, steps))
  {
    if steps != [] {
      var before := steps[..|steps| - 1];
      NewestStampsLast(hash, before);
    }
  }

  /** In that order every schedule ends in a match. */
  lemma InOrderMatches(hash: Row -> Hash, steps: seq<Timed>)
    requires var w := Run(hash, steps); w.versions != [] && w.writers == []
    requires StampsInOrder(hash, steps)
    ensures VerifyIntegrity(hash, Run(hash, steps).row) == Match
  {
    RunKnown(hash, steps);
    NewestStampsLast(hash, steps);
    var w := Run(hash, steps);
    assert |w.versions| - 1 in w.stampers || IsWaiting(w, |w.versions| - 1);
  }

  // ---------------------------------------------------------------------------
  // One writer at a time
  // ---------------------------------------------------------------------------

  predicate IsWrite(s: Step) { s.Activated? || s.Edited? || s.Graded? }

  /** Writers of hashed data wait for one another. */
  ghost predicate OneWriterAtATime(hash: Row -> Hash, steps: seq<Timed>)
    decreases |steps|
  {
    steps == [] ||
    (var before := steps[..|steps| - 1];
     OneWriterAtATime(hash, before) && (IsWrite(steps[|steps| - 1].step) ==> Run(hash, before).writers == []))
  }

  /** Whoever has stamped wrote before whoever is still to stamp. */
  predicate StampedBeforeWaiting(w: World) {
    && |w.writers| <= 1
    && (forall n, i :: n in w.stampers && 0 <= i < |w.writers| ==> n < w.writers[i].number)
    && (forall n :: n in w.stampers ==> n < |w.versions|)
    && (forall i :: 0 <= i < |w.writers| ==> w.writers[i].number < |w.versions|)
  }

  /** What is written and who waits, as far as order goes, depends on the statement's kind alone. */
  lemma NextBeforeWaiting(hash: Row -> Hash, w: World, s: Step, now: nat)
    requires StampedBeforeWaiting(w) && (IsWrite(s) ==> w.writers == [])
    ensures StampInOrder(w, s) && StampedBeforeWaiting(Next(hash, w, s, now))
  {
    var v := Next(hash, w, s, now);
    if w.row != map[] && IsWrite(s) {
      assert v.stampers == w.stampers && |v.writers| == 1 && v.writers[0].number == |w.versions| < |v.versions|;
    } else if w.row != map[] && s.Stamped? && s.writer < |w.writers| {
      assert v.writers == [] && v.stampers == w.stampers + [w.writers[0].number] && v.versions == w.versions;
    } else {
      assert v.writers == w.writers && v.stampers == w.stampers && v.versions == w.versions;
    }
  }

  lemma {:induction false} OneAtATimeIsInOrder(hash: Row -> Hash, steps: seq<Timed>)
    requires OneWriterAtATime(hash, steps)
    ensures StampsInOrder(hash, steps) && StampedBeforeWaiting(Run(hash, steps))
  {
    if steps != [] {
      var before, last := steps[..|steps| - 1], steps[|steps| - 1];
      OneAtATimeIsInOrder(hash, before);
      NextBeforeWaiting(hash, Run(hash, before), last.step, last.now);
    }
  }

  /**
   * With one writer at a time, creation included, and listings, orders, photos
   * and identifiers at any moment, the check matches after every completed
   * change.
   */
  lemma CompletedChangesMatch(hash: Row -> Hash, steps: seq<Timed>)
    requires OneWriterAtATime(hash, steps)
    requires var w := Run(hash, steps); w.versions != [] && w.writers == []
    ensures VerifyIntegrity(hash, Run(hash, steps).row) == Match
  {
    OneAtATimeIsInOrder(hash, steps);
    InOrderMatches(hash, steps);
  }

  /**
   * Two overlapping edits, the first to write being the last to store: the
   * check then matches only if they happen to leave the same fingerprint.
   */
  lemma OverlappingEditsMismatch(hash: Row -> Hash, w: World, a: Changes, b: Changes, now: nat)
    requires Known(hash, w) && w.row != map[] && w.writers == []
    ensures var first := Next(hash, w, Edited(a), now);
            var second := Next(hash, first, Edited(b), now);
            var done := Next(hash, Next(hash, second, Stamped(1), now), Stamped(0), now);
            && done.writers == []
            && (VerifyIntegrity(hash, done.row) == Match <==> hash(Document(first.row)) == hash(Document(second.row)))
  {
    var first := Next(hash, w, Edited(a), now);
    NotEmptied(w.row, EditSets(a, now));
    var second := Next(hash, first, Edited(b), now);
    NotEmptied(first.row, EditSets(b, now));
    LaterThenEarlier(hash, second, now);
  }

  lemma NotEmptied(row: Row, changes: Changes)
    requires row != map[]
    ensures row + changes != map[]
  {
    var c :| c in row;
    assert c in row + changes;
  }

  /** Of two writers waiting, the later stores and then the earlier: the earlier one's fingerprint stays. */
  lemma LaterThenEarlier(hash: Row -> Hash, w: World, now: nat)
    requires w.row != map[] && |w.writers| == 2
    ensures var done := Next(hash, Next(hash, w, Stamped(1), now), Stamped(0), now);
            && done.writers == [] && Document(done.row) == Document(w.row)
            && BlockchainPassportHash in done.row
            && done.row[BlockchainPassportHash] == Fingerprint(hash(Document(w.writers[0].returned)))
  {
    var third := Next(hash, w, Stamped(1), now);
    StampIsAside(w.row, hash(Document(w.writers[1].returned)), now);
    assert third.writers == [w.writers[0]];
    StampIsAside(third.row, hash(Document(w.writers[0].returned)), now);
  }
}
