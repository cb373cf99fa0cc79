/**
 * The canonical printer: object keys sorted at every level. Two values print
 * the same exactly when they are equal with objects read as maps from keys,
 * whatever order their keys were in.
 */
module StableJson {
  import opened JsonText
  import opened Sorting

  /**
   * What the printer is given. A finite number is its shortest decimal text;
   * `NotFinite` is NaN or an infinity; `Other` is undefined or a function; a
   * date is its ISO text. An object is its own entries in insertion order.
   */
  datatype Json =
    | Null
    | Bool(truth: bool)
    | Num(decimal: Text)
    | NotFinite
    | Other
    | Str(text: Text)
    | Date(iso: Text)
    | Arr(items: seq<Json>)
    | Obj(entries: seq<Entry<Json>>)

  datatype Entry<V> = Entry(key: Text, value: V)

  const NULL_TEXT: Text := [110, 117, 108, 108]
  const TRUE_TEXT: Text := [116, 114, 117, 101]
  const FALSE_TEXT: Text := [102, 97, 108, 115, 101]
  const COMMA: CodeUnit := 44
  const COLON: CodeUnit := 58
  const OPEN_ARRAY: CodeUnit := 91
  const CLOSE_ARRAY: CodeUnit := 93
  const OPEN_OBJECT: CodeUnit := 123
  const CLOSE_OBJECT: CodeUnit := 125

  /** A unit of a number's text: a digit, a sign, a point or an exponent. */
  predicate NumberUnit(c: CodeUnit) { 48 <= c <= 57 || c == 43 || c == 45 || c == 46 || c == 101 }

  predicate IsNumber(t: Text) {
    t != [] && (48 <= t[0] <= 57 || t[0] == 45) && forall i :: 0 <= i < |t| ==> NumberUnit(t[i])
  }

  ghost predicate Digits(t: Text) { t != [] && forall i :: 0 <= i < |t| ==> t[i] in {48, 49, 50, 51, 52, 53, 54, 55, 56, 57} }

  /** Every number as JSON writes it is a number's text: a sign or none, digits, a fraction and an exponent or none. */
  lemma DecimalsAreNumbers(sign: Text, whole: Text, fraction: Text, exponent: Text)
    requires sign in {[], [45]} && Digits(whole)
    requires fraction == [] || (fraction[0] == 46 && Digits(fraction[1..]))
    requires exponent == [] || (|exponent| > 1 && exponent[0] == 101 && exponent[1] in {43, 45} && Digits(exponent[2..]))
    ensures IsNumber(sign + whole + fraction + exponent)
  {
    var t := sign + whole + fraction + exponent;
    assert sign == [] ==> t[0] == whole[0];
    forall i | 0 <= i < |t|
      ensures NumberUnit(t[i])
    {
      var a, b := |sign| + |whole|, |sign| + |whole| + |fraction|;
      if i < |sign| {
      } else if i < a {
        assert t[i] == whole[i - |sign|];
      } else if i < b {
        assert t[i] == fraction[i - a];
        assert i > a ==> fraction[i - a] == fraction[1..][i - a - 1];
      } else {
        assert t[i] == exponent[i - b];
        assert i > b + 1 ==> exponent[i - b] == exponent[2..][i - b - 2];
      }
    }
  }

  ghost predicate DistinctKeys<V>(s: seq<Entry<V>>) {
    forall i, j :: 0 <= i < j < |s| ==> s[i].key != s[j].key
  }

  /** An object has each key once, and a number's text is a number's. */
  ghost predicate Valid(v: Json)
    decreases v
  {
    match v
    case Num(t) => IsNumber(t)
    case Arr(items) => forall i :: 0 <= i < |items| ==> Valid(items[i])
    case Obj(entries) =>
      && DistinctKeys(entries)
      && (forall i :: 0 <= i < |entries| ==> Valid(entries[i].value))
    case _ => true
  }

  // ---------------------------------------------------------------------------
  // Sorting by key
  // ---------------------------------------------------------------------------

  predicate ByKey<V>(d: Entry<V>, e: Entry<V>) { Less(d.key, e.key) }

  lemma ByKeyIsStrict<V(!new)>()
    ensures Strict(ByKey<V>)
  {
    forall d: Entry<V>
      ensures !ByKey(d, d)
    {
      LessIsStrict(d.key);
    }
    forall c: Entry<V>, d: Entry<V>, e: Entry<V> | ByKey(c, d) && ByKey(d, e)
      ensures ByKey(c, e)
    {
      LessIsTransitive(c.key, d.key, e.key);
    }
  }

  lemma DistinctKeysAreRanked<V>(s: seq<Entry<V>>)
    requires DistinctKeys(s)
    ensures Ranked(ByKey<V>, s)
  {
    forall i, j | 0 <= i < j < |s|
      ensures ByKey(s[i], s[j]) || ByKey(s[j], s[i])
    {
      LessIsTotal(s[i].key, s[j].key);
    }
  }

  lemma HeadKeyIsItsOwn<V>(s: seq<Entry<V>>)
    requires s != [] && DistinctKeys(s)
    ensures forall x :: x in s[1..] ==> x.key != s[0].key
  {
  }

  /** Two lists of entries whose values go hand in hand. */
  ghost predicate Parallel<V, W>(s: seq<Entry<V>>, t: seq<Entry<W>>, f: V -> W) {
    |s| == |t| && forall i :: 0 <= i < |s| ==> t[i] == Entry(s[i].key, f(s[i].value))
  }

  /** Sorting looks at keys alone, so it moves the values along. */
  lemma {:induction false} SortsAlike<V, W>(s: seq<Entry<V>>, t: seq<Entry<W>>, f: V -> W)
    requires Parallel(s, t, f)
    ensures Parallel(Sort(ByKey, s), Sort(ByKey, t), f)
  {
    if s != [] {
      SortsAlike(s[1..], t[1..], f);
      InsertsAlike(s[0], t[0], Sort(ByKey, s[1..]), Sort(ByKey, t[1..]), f);
    }
  }

  lemma {:induction false} InsertsAlike<V, W>(d: Entry<V>, e: Entry<W>, s: seq<Entry<V>>, t: seq<Entry<W>>, f: V -> W)
    requires Parallel(s, t, f) && e == Entry(d.key, f(d.value))
    ensures Parallel(Insert(ByKey, d, s), Insert(ByKey, e, t), f)
  {
    if s != [] {
      InsertsAlike(d, e, s[1..], t[1..], f);
    }
  }

  // ---------------------------------------------------------------------------
  // Entries as a map
  // ---------------------------------------------------------------------------

  function ToMap<V>(s: seq<Entry<V>>): map<Text, V> {
    if s == [] then map[] else ToMap(s[1..])[s[0].key := s[0].value]
  }

  lemma {:induction false} ToMapHolds<V>(s: seq<Entry<V>>, x: Entry<V>)
    requires DistinctKeys(s)
    ensures x in s <==> x.key in ToMap(s) && ToMap(s)[x.key] == x.value
  {
    if s != [] {
      assert s == [s[0]] + s[1..];
      HeadKeyIsItsOwn(s);
      ToMapHolds(s[1..], x);
    }
  }

  /** Two lists of distinct keys are the same map exactly when they sort to the same list. */
  lemma SameMapSortsAlike<V(!new)>(s: seq<Entry<V>>, t: seq<Entry<V>>)
    requires DistinctKeys(s) && DistinctKeys(t)
    ensures ToMap(s) == ToMap(t) <==> Sort(ByKey, s) == Sort(ByKey, t)
  {
    ByKeyIsStrict<V>();
    DistinctKeysAreRanked(s);
    DistinctKeysAreRanked(t);
    forall x
      ensures x in s <==> x.key in ToMap(s) && ToMap(s)[x.key] == x.value
      ensures x in t <==> x.key in ToMap(t) && ToMap(t)[x.key] == x.value
      ensures (x in s <==> x in Sort(ByKey, s)) && (x in t <==> x in Sort(ByKey, t))
    {
      SortHolds(ByKey, s, x);
      SortHolds(ByKey, t, x);
      ToMapHolds(s, x);
      ToMapHolds(t, x);
    }
    if ToMap(s) == ToMap(t) {
      SortForgetsOrder(ByKey, s, t);
    }
    if Sort(ByKey, s) == Sort(ByKey, t) {
      SameMembersSameMap(s, t);
    }
  }

  lemma SameMembersSameMap<V>(s: seq<Entry<V>>, t: seq<Entry<V>>)
    requires DistinctKeys(s) && DistinctKeys(t) && forall x :: x in s <==> x in t
    ensures ToMap(s) == ToMap(t)
  {
    forall k | k in ToMap(s) || k in ToMap(t)
      ensures k in ToMap(s) && k in ToMap(t) && ToMap(s)[k] == ToMap(t)[k]
    {
      if k in ToMap(s) {
        ToMapHolds(s, Entry(k, ToMap(s)[k]));
        ToMapHolds(t, Entry(k, ToMap(s)[k]));
      } else {
        ToMapHolds(s, Entry(k, ToMap(t)[k]));
        ToMapHolds(t, Entry(k, ToMap(t)[k]));
      }
    }
  }

  // ---------------------------------------------------------------------------
  // The printer
  // ---------------------------------------------------------------------------

  function Join(parts: seq<Text>): Text {
    if parts == [] then []
    else if |parts| == 1 then parts[0]
    else parts[0] + [COMMA] + Join(parts[1..])
  }

  function Field(e: Entry<Text>): Text { Quote(e.key) + [COLON] + e.value }

  function Fields(entries: seq<Entry<Text>>): seq<Text> {
    if entries == [] then [] else [Field(entries[0])] + Fields(entries[1..])
  }

  function Print(v: Json): Text
    decreases v, 0
  {
    match v
    case Null => NULL_TEXT
    case Bool(b) => if b then TRUE_TEXT else FALSE_TEXT
    case Num(t) => t
    case NotFinite => NULL_TEXT
    case Other => NULL_TEXT
    case Str(s) => Quote(s)
    case Date(iso) => Quote(iso)
    case Arr(items) => [OPEN_ARRAY] + Join(PrintItems(items)) + [CLOSE_ARRAY]
    case Obj(entries) => [OPEN_OBJECT] + Join(Fields(Sort(ByKey, PrintEntries(entries)))) + [CLOSE_OBJECT]
  }

  function PrintItems(items: seq<Json>): seq<Text>
    decreases items, 2
  {
    if items == [] then [] else [Print(items[0])] + PrintItems(items[1..])
  }

  function PrintEntry(e: Entry<Json>): Entry<Text>
    decreases e, 1
  {
    match e case Entry(k, v) => Entry(k, Print(v))
  }

  function PrintEntries(entries: seq<Entry<Json>>): seq<Entry<Text>>
    decreases entries, 2
  {
    if entries == [] then [] else [PrintEntry(entries[0])] + PrintEntries(entries[1..])
  }

  // ---------------------------------------------------------------------------
  // What a value says
  // ---------------------------------------------------------------------------

  /** Values as data: objects are maps, dates are their text, and what JSON cannot say is null. */
  datatype Plain =
    | PNull
    | PBool(truth: bool)
    | PNum(decimal: Text)
    | PStr(text: Text)
    | PArr(items: seq<Plain>)
    | PObj(fields: map<Text, Plain>)

  function Norm(v: Json): Plain
    decreases v, 0
  {
    match v
    case Null => PNull
    case Bool(b) => PBool(b)
    case Num(t) => PNum(t)
    case NotFinite => PNull
    case Other => PNull
    case Str(s) => PStr(s)
    case Date(iso) => PStr(iso)
    case Arr(items) => PArr(NormItems(items))
    case Obj(entries) => PObj(ToMap(NormEntries(entries)))
  }

  function NormItems(items: seq<Json>): seq<Plain>
    decreases items, 2
  {
    if items == [] then [] else [Norm(items[0])] + NormItems(items[1..])
  }

  function NormEntry(e: Entry<Json>): Entry<Plain>
    decreases e, 1
  {
    match e case Entry(k, v) => Entry(k, Norm(v))
  }

  function NormEntries(entries: seq<Entry<Json>>): seq<Entry<Plain>>
    decreases entries, 2
  {
    if entries == [] then [] else [NormEntry(entries[0])] + NormEntries(entries[1..])
  }

  lemma {:induction false} EntriesAreParallel(entries: seq<Entry<Json>>)
    ensures Parallel(entries, PrintEntries(entries), Print)
    ensures Parallel(entries, NormEntries(entries), Norm)
  {
    if entries != [] {
      EntriesAreParallel(entries[1..]);
    }
  }

  /** Printing and reading entries one by one may follow the sort. */
  lemma SortFirst(entries: seq<Entry<Json>>)
    ensures Sort(ByKey, PrintEntries(entries)) == PrintEntries(Sort(ByKey, entries))
    ensures Sort(ByKey, NormEntries(entries)) == NormEntries(Sort(ByKey, entries))
  {
    EntriesAreParallel(entries);
    EntriesAreParallel(Sort(ByKey, entries));
    SortsAlike(entries, PrintEntries(entries), Print);
    SortsAlike(entries, NormEntries(entries), Norm);
  }

  /** Two objects are the same map exactly when their sorted entries read the same. */
  lemma SameObject(d: seq<Entry<Json>>, e: seq<Entry<Json>>)
    requires DistinctKeys(d) && DistinctKeys(e)
    ensures Norm(Obj(d)) == Norm(Obj(e)) <==> NormEntries(Sort(ByKey, d)) == NormEntries(Sort(ByKey, e))
  {
    EntriesAreParallel(d);
    EntriesAreParallel(e);
    SortFirst(d);
    SortFirst(e);
    SameMapSortsAlike(NormEntries(d), NormEntries(e));
  }

  /** What sorting hands to the field-by-field argument. */
  lemma SortedEntries(v: Json)
    requires v.Obj? && Valid(v)
    ensures forall x :: x in Sort(ByKey, v.entries) ==> Valid(x.value) && x.value < v
    ensures Sort(ByKey, v.entries) == [] <==> v.entries == []
  {
    forall x
      ensures x in Sort(ByKey, v.entries) <==> x in v.entries
    {
      SortHolds(ByKey, v.entries, x);
    }
    BothEmpty(Sort(ByKey, v.entries), v.entries);
    forall x | x in Sort(ByKey, v.entries)
      ensures Valid(x.value) && x.value < v
    {
      var i :| 0 <= i < |v.entries| && v.entries[i] == x;
    }
  }

  // ---------------------------------------------------------------------------
  // Reading back
  // ---------------------------------------------------------------------------

  /** What may follow a value inside a document: nothing, a comma or a closing bracket. */
  predicate Ends(z: Text) { z == [] || z[0] == COMMA || z[0] == CLOSE_ARRAY || z[0] == CLOSE_OBJECT }

  /** The first unit of a printed value tells its kind. */
  function KindOf(c: CodeUnit): nat {
    if c == NULL_TEXT[0] then 0
    else if c == TRUE_TEXT[0] then 1
    else if c == FALSE_TEXT[0] then 2
    else if c == QUOTE then 3
    else if c == OPEN_ARRAY then 4
    else if c == OPEN_OBJECT then 5
    else 6
  }

  lemma FirstUnit(v: Json)
    requires Valid(v)
    ensures Print(v) != [] && !Ends(Print(v))
    ensures KindOf(Print(v)[0]) ==
            match v
            case Null => 0
            case NotFinite => 0
            case Other => 0
            case Bool(b) => if b then 1 else 2
            case Str(_) => 3
            case Date(_) => 3
            case Arr(_) => 4
            case Obj(_) => 5
            case Num(_) => 6
  {
  }

  /** How many units at the front of a text could belong to a number. */
  function Leading(z: Text): nat {
    if z != [] && NumberUnit(z[0]) then 1 + Leading(z[1..]) else 0
  }

  lemma {:induction false} LeadingIsTheNumber(s: Text, x: Text)
    requires Ends(x) && forall i :: 0 <= i < |s| ==> NumberUnit(s[i])
    ensures Leading(s + x) == |s|
  {
    if s == [] {
      assert s + x == x;
    } else {
      LeadingIsTheNumber(s[1..], x);
      assert (s + x)[1..] == s[1..] + x;
    }
  }

  lemma NumberReadsBack(s: Text, t: Text, x: Text, y: Text)
    requires IsNumber(s) && IsNumber(t) && Ends(x) && Ends(y) && s + x == t + y
    ensures s == t && x == y
  {
    var a, b := s + x, t + y;
    LeadingIsTheNumber(s, x);
    LeadingIsTheNumber(t, y);
    assert s == a[..|s|] && t == b[..|t|] && x == a[|s|..] && y == b[|t|..];
  }

  /** The text of a list after its opening bracket: its first part, then what follows that. */
  lemma JoinSplits(parts: seq<Text>, close: CodeUnit, x: Text)
    requires parts != []
    ensures Join(parts) + [close] + x == parts[0] + After(parts, close, x)
  {
    if |parts| > 1 {
      Reassociate(parts[0], [COMMA], Join(parts[1..]), [close], x);
    } else {
      Reassociate(parts[0], [], [], [close], x);
      assert parts[0] + [] + [] == parts[0] && [] + ([] + [close] + x) == [close] + x;
    }
  }

  lemma Reassociate(a: Text, b: Text, c: Text, d: Text, e: Text)
    ensures (a + b + c) + d + e == a + (b + (c + d + e))
  {
  }

  function After(parts: seq<Text>, close: CodeUnit, x: Text): Text
    requires parts != []
  {
    if |parts| == 1 then [close] + x else [COMMA] + (Join(parts[1..]) + [close] + x)
  }

  /** Two lists that read on alike after their first part have both ended, or both go on alike. */
  lemma AfterReadsOn(p: seq<Text>, q: seq<Text>, close: CodeUnit, x: Text, y: Text)
    requires p != [] && q != [] && close != COMMA && After(p, close, x) == After(q, close, y)
    ensures |p| == 1 <==> |q| == 1
    ensures |p| == 1 ==> x == y
    ensures |p| > 1 ==> Join(p[1..]) + [close] + x == Join(q[1..]) + [close] + y
  {
    var a, b := After(p, close, x), After(q, close, y);
    assert a[0] == b[0];
    assert a[1..] == b[1..];
    assert a[1..] == if |p| == 1 then x else Join(p[1..]) + [close] + x;
    assert b[1..] == if |q| == 1 then y else Join(q[1..]) + [close] + y;
  }

  /** A printed value is read back in one way, whatever may follow it. */
  lemma {:induction false} ReadsBack(a: Json, b: Json, x: Text, y: Text)
    requires Valid(a) && Valid(b) && Ends(x) && Ends(y) && Print(a) + x == Print(b) + y
    ensures Norm(a) == Norm(b) && x == y
    decreases a
  {
    FirstUnit(a);
    FirstUnit(b);
    var s, t := Print(a) + x, Print(b) + y;
    assert s[0] == Print(a)[0] && t[0] == Print(b)[0];
    match a
    case Num(_) => NumberReadsBack(a.decimal, b.decimal, x, y);
    case Str(_) => QuoteReadsBack(TextOf(a), TextOf(b), x, y);
    case Date(_) => QuoteReadsBack(TextOf(a), TextOf(b), x, y);
    case Arr(items) => ArrayReadsBack(a, b, x, y);
    case Obj(entries) => ObjectReadsBack(a, b, x, y);
    case _ =>
      assert Print(a) == Print(b);
      assert x == s[|Print(a)|..] && y == t[|Print(b)|..];
  }

  function TextOf(v: Json): Text
    requires v.Str? || v.Date?
  {
    if v.Str? then v.text else v.iso
  }

  lemma {:induction false} ArrayReadsBack(a: Json, b: Json, x: Text, y: Text)
    requires a.Arr? && b.Arr? && Valid(a) && Valid(b) && Ends(x) && Ends(y) && Print(a) + x == Print(b) + y
    ensures Norm(a) == Norm(b) && x == y
    decreases a, 1
  {
    ArrayText(a, x);
    ArrayText(b, y);
    Uncons(OPEN_ARRAY, ItemsText(a.items, x), ItemsText(b.items, y));
    ItemsStart(a.items, x);
    ItemsStart(b.items, y);
    if a.items == [] {
      Uncons(CLOSE_ARRAY, x, y);
    } else {
      ItemsReadBack(a.items, b.items, x, y, a);
    }
  }

  /** An array's text after its opening bracket. */
  function ItemsText(items: seq<Json>, x: Text): Text { Join(PrintItems(items)) + [CLOSE_ARRAY] + x }

  lemma ArrayText(a: Json, x: Text)
    requires a.Arr?
    ensures Print(a) + x == [OPEN_ARRAY] + ItemsText(a.items, x)
  {
  }

  lemma ItemsStart(items: seq<Json>, x: Text)
    requires forall v :: v in items ==> Valid(v)
    ensures ItemsText(items, x)[0] == CLOSE_ARRAY <==> items == []
    ensures items == [] ==> ItemsText(items, x) == [CLOSE_ARRAY] + x
  {
    if items != [] {
      FirstUnit(items[0]);
      JoinSplits(PrintItems(items), CLOSE_ARRAY, x);
    }
  }

  lemma {:induction false} ItemsReadBack(s: seq<Json>, t: seq<Json>, x: Text, y: Text, whole: Json)
    requires s != [] && t != [] && Ends(x) && Ends(y)
    requires (forall v :: v in s ==> Valid(v) && v < whole) && forall v :: v in t ==> Valid(v)
    requires ItemsText(s, x) == ItemsText(t, y)
    ensures NormItems(s) == NormItems(t) && x == y
    decreases whole, 0, |s|
  {
    var p, q := PrintItems(s), PrintItems(t);
    JoinSplits(p, CLOSE_ARRAY, x);
    JoinSplits(q, CLOSE_ARRAY, y);
    assert s[0] in s && s[0] < whole;
    ReadsBack(s[0], t[0], After(p, CLOSE_ARRAY, x), After(q, CLOSE_ARRAY, y));
    AfterReadsOn(p, q, CLOSE_ARRAY, x, y);
    assert p[1..] == PrintItems(s[1..]) && q[1..] == PrintItems(t[1..]);
    if |s| > 1 {
      ItemsReadBack(s[1..], t[1..], x, y, whole);
    }
  }

  lemma {:induction false} ObjectReadsBack(a: Json, b: Json, x: Text, y: Text)
    requires a.Obj? && b.Obj? && Valid(a) && Valid(b) && Ends(x) && Ends(y) && Print(a) + x == Print(b) + y
    ensures Norm(a) == Norm(b) && x == y
    decreases a, 1
  {
    var c, d := Sort(ByKey, a.entries), Sort(ByKey, b.entries);
    SortedEntries(a);
    SortedEntries(b);
    ObjectText(a, x);
    ObjectText(b, y);
    Uncons(OPEN_OBJECT, FieldsText(c, x), FieldsText(d, y));
    FieldsStart(c, x);
    FieldsStart(d, y);
    if c == [] {
      Uncons(CLOSE_OBJECT, x, y);
    } else {
      FieldsReadBack(c, d, x, y, a);
    }
    SameObject(a.entries, b.entries);
  }

  /** An object's text after its opening brace, its entries being sorted. */
  function FieldsText(sorted: seq<Entry<Json>>, x: Text): Text {
    Join(Fields(PrintEntries(sorted))) + [CLOSE_OBJECT] + x
  }

  lemma ObjectText(a: Json, x: Text)
    requires a.Obj?
    ensures Print(a) + x == [OPEN_OBJECT] + FieldsText(Sort(ByKey, a.entries), x)
  {
    SortFirst(a.entries);
    assert Print(a) + x == [OPEN_OBJECT] + Join(Fields(Sort(ByKey, PrintEntries(a.entries)))) + [CLOSE_OBJECT] + x;
  }

  lemma FieldsStart(entries: seq<Entry<Json>>, x: Text)
    ensures FieldsText(entries, x)[0] == CLOSE_OBJECT <==> entries == []
    ensures entries == [] ==> FieldsText(entries, x) == [CLOSE_OBJECT] + x
  {
    if entries != [] {
      JoinSplits(Fields(PrintEntries(entries)), CLOSE_OBJECT, x);
    }
  }

  lemma {:induction false} FieldsReadBack(s: seq<Entry<Json>>, t: seq<Entry<Json>>, x: Text, y: Text, whole: Json)
    requires s != [] && t != [] && Ends(x) && Ends(y)
    requires (forall e :: e in s ==> Valid(e.value) && e.value < whole) && forall e :: e in t ==> Valid(e.value)
    requires FieldsText(s, x) == FieldsText(t, y)
    ensures NormEntries(s) == NormEntries(t) && x == y
    decreases whole, 0, |s|
  {
    var p, q := Fields(PrintEntries(s)), Fields(PrintEntries(t));
    JoinSplits(p, CLOSE_OBJECT, x);
    JoinSplits(q, CLOSE_OBJECT, y);
    var u, v := After(p, CLOSE_OBJECT, x), After(q, CLOSE_OBJECT, y);
    FieldSplits(s[0], u);
    FieldSplits(t[0], v);
    QuoteReadsBack(s[0].key, t[0].key, [COLON] + (Print(s[0].value) + u), [COLON] + (Print(t[0].value) + v));
    Uncons(COLON, Print(s[0].value) + u, Print(t[0].value) + v);
    ReadsBack(s[0].value, t[0].value, u, v);
    AfterReadsOn(p, q, CLOSE_OBJECT, x, y);
    assert p[1..] == Fields(PrintEntries(s[1..])) && q[1..] == Fields(PrintEntries(t[1..]));
    if |s| > 1 {
      FieldsReadBack(s[1..], t[1..], x, y, whole);
    }
  }

  lemma FieldSplits(e: Entry<Json>, u: Text)
    ensures Field(PrintEntry(e)) + u == Quote(e.key) + ([COLON] + (Print(e.value) + u))
  {
  }

  lemma Uncons(c: CodeUnit, u: Text, v: Text)
    requires [c] + u == [c] + v
    ensures u == v
  {
    assert u == ([c] + u)[1..] && v == ([c] + v)[1..];
  }

  // ---------------------------------------------------------------------------
  // Values that say the same print the same
  // ---------------------------------------------------------------------------

  lemma {:induction false} SaysSoPrintsSo(a: Json, b: Json)
    requires Valid(a) && Valid(b) && Norm(a) == Norm(b)
    ensures Print(a) == Print(b)
    decreases a, 1
  {
    match a
    case Arr(items) => ItemsPrintAlike(a.items, b.items, a);
    case Obj(entries) =>
      SortedEntries(a);
      SortedEntries(b);
      SortFirst(a.entries);
      SortFirst(b.entries);
      SameObject(a.entries, b.entries);
      EntriesPrintAlike(Sort(ByKey, a.entries), Sort(ByKey, b.entries), a);
    case _ =>
  }

  lemma {:induction false} ItemsPrintAlike(s: seq<Json>, t: seq<Json>, whole: Json)
    requires (forall v :: v in s ==> Valid(v) && v < whole) && forall v :: v in t ==> Valid(v)
    requires NormItems(s) == NormItems(t)
    ensures PrintItems(s) == PrintItems(t)
    decreases whole, 0, |s|
  {
    if s != [] {
      assert NormItems(s)[0] == NormItems(t)[0] && NormItems(s)[1..] == NormItems(t)[1..];
      assert s[0] in s && s[0] < whole;
      SaysSoPrintsSo(s[0], t[0]);
      ItemsPrintAlike(s[1..], t[1..], whole);
    }
  }

  lemma {:induction false} EntriesPrintAlike(s: seq<Entry<Json>>, t: seq<Entry<Json>>, whole: Json)
    requires (forall e :: e in s ==> Valid(e.value) && e.value < whole) && forall e :: e in t ==> Valid(e.value)
    requires NormEntries(s) == NormEntries(t)
    ensures PrintEntries(s) == PrintEntries(t)
    decreases whole, 0, |s|
  {
    if s != [] {
      assert NormEntries(s)[0] == NormEntries(t)[0] && NormEntries(s)[1..] == NormEntries(t)[1..];
      SaysSoPrintsSo(s[0].value, t[0].value);
      EntriesPrintAlike(s[1..], t[1..], whole);
    }
  }

  /** The printer is a canonical form: equal text exactly when the values are equal as data. */
  lemma PrintIsCanonical(a: Json, b: Json)
    requires Valid(a) && Valid(b)
    ensures Print(a) == Print(b) <==> Norm(a) == Norm(b)
  {
    if Print(a) == Print(b) {
      ReadsBack(a, b, [], []);
    }
    if Norm(a) == Norm(b) {
      SaysSoPrintsSo(a, b);
    }
  }
}
