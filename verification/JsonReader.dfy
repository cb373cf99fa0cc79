/**
 * A reader of JSON text, after RFC 8259 without whitespace, that knows nothing
 * of the printer: what the printer writes is JSON, and says what the value says.
 */
module JsonReader {
  import opened Wrappers
  import opened JsonText
  import opened Sorting
  import opened StableJson

  // ---------------------------------------------------------------------------
  // Strings
  // ---------------------------------------------------------------------------

  /** What an escape's letter stands for. */
  function Unescape(c: CodeUnit): Option<CodeUnit> {
    if c == 34 || c == 92 || c == 47 then Some(c)
    else if c == 98 then Some(8)
    else if c == 102 then Some(12)
    else if c == 110 then Some(10)
    else if c == 114 then Some(13)
    else if c == 116 then Some(9)
    else None
  }

  function HexValue(c: CodeUnit): Option<nat> {
    if 48 <= c <= 57 then Some(c - 48)
    else if 97 <= c <= 102 then Some(c - 97 + 10)
    else if 65 <= c <= 70 then Some(c - 65 + 10)
    else None
  }

  /** Four hexadecimal digits. */
  function ReadHex(z: Text): Option<CodeUnit>
    requires |z| == 4
  {
    match (HexValue(z[0]), HexValue(z[1]), HexValue(z[2]), HexValue(z[3]))
    case (Some(a), Some(b), Some(c), Some(d)) =>
      var n := 4096 * a + 256 * b + 16 * c + d;
      if n < 0x1_0000 then Some(n) else None
    case _ => None
  }

  /** The next unit of a string, and how much text it took. */
  function ReadUnit(z: Text): Option<(CodeUnit, nat)>
    requires z != []
    ensures ReadUnit(z).Some? ==> 1 <= ReadUnit(z).value.1 <= |z|
  {
    if z[0] != 92 then (if z[0] < 32 then None else Some((z[0], 1)))
    else if |z| >= 2 && z[1] != 117 then
      match Unescape(z[1])
      case Some(c) => Some((c, 2))
      case None => None
    else if |z| >= 6 then
      match ReadHex(z[2..6])
      case Some(c) => Some((c, 6))
      case None => None
    else None
  }

  /** A string from after its opening quote, and what follows its closing one. */
  function ReadString(z: Text): (r: Option<(Text, Text)>)
    ensures r.Some? ==> |r.value.1| < |z|
    decreases |z|
  {
    if z == [] then None
    else if z[0] == 34 then Some(([], z[1..]))
    else
      match ReadUnit(z)
      case None => None
      case Some((c, n)) =>
        match ReadString(z[n..])
        case None => None
        case Some((s, rest)) => Some(([c] + s, rest))
  }

  // ---------------------------------------------------------------------------
  // Values
  // ---------------------------------------------------------------------------

  predicate Begins(z: Text, word: Text) { |word| <= |z| && z[..|word|] == word }

  /** Units a number is written with: digits, signs, a point, an exponent. */
  function NumberLength(z: Text): (n: nat)
    ensures n <= |z|
  {
    if z != [] && (48 <= z[0] <= 57 || z[0] in {43, 45, 46, 69, 101}) then 1 + NumberLength(z[1..]) else 0
  }

  /** A value at the front of a text, and what follows it. */
  function ReadValue(z: Text): (r: Option<(Plain, Text)>)
    ensures r.Some? ==> |r.value.1| < |z|
    decreases |z|, 1
  {
    if z == [] then None
    else if z[0] == 34 then
      match ReadString(z[1..])
      case Some((s, rest)) => Some((PStr(s), rest))
      case None => None
    else if z[0] == 91 then
      if Begins(z, [91, 93]) then Some((PArr([]), z[2..]))
      else
        match ReadItems(z[1..])
        case Some((items, rest)) => Some((PArr(items), rest))
        case None => None
    else if z[0] == 123 then
      if Begins(z, [123, 125]) then Some((PObj(map[]), z[2..]))
      else
        match ReadFields(z[1..])
        case Some((fields, rest)) => Some((PObj(ToMap(fields)), rest))
        case None => None
    else if Begins(z, [110, 117, 108, 108]) then Some((PNull, z[4..]))
    else if Begins(z, [116, 114, 117, 101]) then Some((PBool(true), z[4..]))
    else if Begins(z, [102, 97, 108, 115, 101]) then Some((PBool(false), z[5..]))
    else
      var n := NumberLength(z);
      if n > 0 then Some((PNum(z[..n]), z[n..])) else None
  }

  /** The items of an array, up to its closing bracket. */
  function ReadItems(z: Text): (r: Option<(seq<Plain>, Text)>)
    ensures r.Some? ==> |r.value.1| < |z|
    decreases |z|, 2
  {
    match ReadValue(z)
    case None => None
    case Some((v, rest)) =>
      if Begins(rest, [93]) then Some(([v], rest[1..]))
      else if Begins(rest, [44]) then
        match ReadItems(rest[1..])
        case Some((items, last)) => Some(([v] + items, last))
        case None => None
      else None
  }

  /** A key, a colon and a value. */
  function ReadField(z: Text): (r: Option<(Entry<Plain>, Text)>)
    ensures r.Some? ==> |r.value.1| < |z|
    decreases |z|, 2
  {
    if !Begins(z, [34]) then None
    else
      match ReadString(z[1..])
      case None => None
      case Some((key, rest)) =>
        if !Begins(rest, [58]) then None
        else
          match ReadValue(rest[1..])
          case Some((v, last)) => Some((Entry(key, v), last))
          case None => None
  }

  /** The fields of an object, up to its closing brace. */
  function ReadFields(z: Text): (r: Option<(seq<Entry<Plain>>, Text)>)
    ensures r.Some? ==> |r.value.1| < |z|
    decreases |z|, 3
  {
    match ReadField(z)
    case None => None
    case Some((e, rest)) =>
      if Begins(rest, [125]) then Some(([e], rest[1..]))
      else if Begins(rest, [44]) then
        match ReadFields(rest[1..])
        case Some((fields, last)) => Some(([e] + fields, last))
        case None => None
      else None
  }

  // ---------------------------------------------------------------------------
  // What the printer writes is read as what the value says
  // ---------------------------------------------------------------------------

  lemma HexIsRead(c: CodeUnit)
    ensures ReadHex(Hex4(c)) == Some(c)
  {
    HexSpells(c);
  }

  /** Each piece of quoted text is read as the units it stands for. */
  lemma PieceIsRead(s: Text, x: Text)
    requires s != []
    ensures Width(s) == 1 ==> ReadUnit(Piece(s) + x) == Some((s[0], |Piece(s)|))
    ensures Width(s) == 2 ==> |Piece(s)| == 2 && ReadUnit(Piece(s) + x) == Some((s[0], 1))
                              && ReadUnit([s[1]] + x) == Some((s[1], 1))
  {
    var z := Piece(s) + x;
    if z[0] == 92 && z[1] == 117 {
      assert z[2..6] == Hex4(s[0]);
      HexIsRead(s[0]);
    }
  }

  /** One unit read, the rest is the rest's. */
  lemma UnitThenRest(z: Text, n: nat, s: Text, x: Text)
    requires z != [] && z[0] != 34 && s != [] && 1 <= n <= |z|
    requires ReadUnit(z) == Some((s[0], n)) && ReadString(z[n..]) == Some((s[1..], x))
    ensures ReadString(z) == Some((s, x))
  {
    assert s == [s[0]] + s[1..];
  }

  lemma {:induction false} EscapedIsRead(s: Text, x: Text)
    ensures ReadString(Escaped(s) + [34] + x) == Some((s, x))
    decreases |s|
  {
    var z := Escaped(s) + [34] + x;
    if s == [] {
      assert z == [34] + x;
    } else {
      var w := Width(s);
      var more := Escaped(s[w..]) + [34] + x;
      EscapedIsRead(s[w..], x);
      PieceStart(s);
      Regroup(Piece(s), Escaped(s[w..]), [34], x);
      PieceIsRead(s, more);
      PieceThenRest(s, more, x);
    }
  }

  lemma PieceThenRest(s: Text, more: Text, x: Text)
    requires s != [] && ReadString(more) == Some((s[Width(s)..], x))
    ensures ReadString(Piece(s) + more) == Some((s, x))
  {
    PieceStart(s);
    PieceIsRead(s, more);
    var z := Piece(s) + more;
    if Width(s) == 1 {
      assert z[|Piece(s)|..] == more;
      UnitThenRest(z, |Piece(s)|, s, x);
    } else {
      assert z[1..] == [s[1]] + more && ([s[1]] + more)[1..] == more && s[1..][1..] == s[2..];
      UnitThenRest([s[1]] + more, 1, s[1..], x);
      UnitThenRest(z, 1, s, x);
    }
  }

  lemma QuotedIsRead(s: Text, x: Text)
    ensures Quote(s) + x == [34] + (Escaped(s) + [34] + x)
    ensures ReadValue(Quote(s) + x) == Some((PStr(s), x))
  {
    EscapedIsRead(s, x);
    var z := Quote(s) + x;
    assert z == [34] + (Escaped(s) + [34] + x);
    assert z[1..] == Escaped(s) + [34] + x;
  }

  lemma {:induction false} NumberIsRead(t: Text, x: Text)
    requires Ends(x) && forall i :: 0 <= i < |t| ==> NumberUnit(t[i])
    ensures NumberLength(t + x) == |t|
  {
    if t == [] {
      assert t + x == x;
    } else {
      NumberIsRead(t[1..], x);
      assert (t + x)[1..] == t[1..] + x;
    }
  }

  lemma WordIsRead(word: Text, x: Text)
    ensures Begins(word + x, word) && (word + x)[|word|..] == x
  {
  }

  /** The printer's text, whatever may follow it, is read as the value's data, and no further. */
  lemma {:induction false} PrintedIsRead(v: Json, x: Text)
    requires Valid(v) && Ends(x)
    ensures ReadValue(Print(v) + x) == Some((Norm(v), x))
    decreases v, 2
  {
    var z := Print(v) + x;
    FirstUnit(v);
    assert z[0] == Print(v)[0];
    match v
    case Str(s) => QuotedIsRead(s, x);
    case Date(iso) => QuotedIsRead(iso, x);
    case Num(t) => NumberIsReadAs(t, x);
    case Arr(items) => ArrayIsRead(v, x);
    case Obj(entries) => ObjectIsRead(v, x);
    case _ => WordIsRead(Print(v), x);
  }

  lemma NumberIsReadAs(t: Text, x: Text)
    requires IsNumber(t) && Ends(x)
    ensures ReadValue(t + x) == Some((PNum(t), x))
  {
    NumberIsRead(t, x);
    var z := t + x;
    assert z[0] == t[0] && z[..|t|] == t && z[|t|..] == x;
  }

  lemma {:induction false} ArrayIsRead(v: Json, x: Text)
    requires v.Arr? && Valid(v) && Ends(x)
    ensures ReadValue(Print(v) + x) == Some((Norm(v), x))
    decreases v, 1
  {
    ArrayText(v, x);
    var z := Print(v) + x;
    assert z[1..] == ItemsText(v.items, x);
    ItemsStart(v.items, x);
    if v.items == [] {
      assert z[..2] == [91, 93] && z[2..] == x;
    } else {
      assert z[1] != 93;
      ItemsAreRead(v.items, x, v);
    }
  }

  lemma {:induction false} ItemsAreRead(items: seq<Json>, x: Text, whole: Json)
    requires items != [] && Ends(x) && forall v :: v in items ==> Valid(v) && v < whole
    ensures ReadItems(ItemsText(items, x)) == Some((NormItems(items), x))
    decreases whole, 0, |items|
  {
    var parts := PrintItems(items);
    var rest := After(parts, 93, x);
    JoinSplits(parts, 93, x);
    assert items[0] in items;
    PrintedIsRead(items[0], rest);
    assert parts[1..] == PrintItems(items[1..]);
    if |items| == 1 {
      assert rest == [93] + x && rest[1..] == x;
      assert NormItems(items) == [Norm(items[0])];
    } else {
      assert rest[1..] == ItemsText(items[1..], x) && rest[..1] == [44];
      ItemsAreRead(items[1..], x, whole);
    }
  }

  lemma {:induction false} ObjectIsRead(v: Json, x: Text)
    requires v.Obj? && Valid(v) && Ends(x)
    ensures ReadValue(Print(v) + x) == Some((Norm(v), x))
    decreases v, 1
  {
    var sorted := Sort(ByKey, v.entries);
    SortedEntries(v);
    ObjectText(v, x);
    var z := FieldsText(sorted, x);
    FieldsStart(sorted, x);
    SortedSameMap(v.entries);
    if sorted == [] {
      NoFields(x);
    } else {
      FieldsAreRead(sorted, x, v);
      FieldsAreAnObject(z, NormEntries(sorted), x);
    }
  }

  lemma NoFields(x: Text)
    ensures ReadValue([123] + ([125] + x)) == Some((PObj(map[]), x))
  {
    var z: Text := [123] + ([125] + x);
    assert z[..2] == [123, 125] && z[2..] == x;
  }

  lemma FieldsAreAnObject(z: Text, fields: seq<Entry<Plain>>, x: Text)
    requires z != [] && z[0] != 125 && ReadFields(z) == Some((fields, x))
    ensures ReadValue([123] + z) == Some((PObj(ToMap(fields)), x))
  {
    assert ([123] + z)[1..] == z && ([123] + z)[1] != 125;
  }

  lemma SortKeepsKeysDistinct(entries: seq<Entry<Json>>)
    requires DistinctKeys(entries)
    ensures DistinctKeys(Sort(ByKey, entries))
  {
    ByKeyIsStrict<Json>();
    DistinctKeysAreRanked(entries);
    SortAscends(ByKey, entries);
    var sorted := Sort(ByKey, entries);
    forall i, j | 0 <= i < j < |sorted|
      ensures sorted[i].key != sorted[j].key
    {
      assert ByKey(sorted[i], sorted[j]);
      LessIsStrict(sorted[i].key);
    }
  }

  lemma {:induction false} FieldsAreRead(entries: seq<Entry<Json>>, x: Text, whole: Json)
    requires entries != [] && Ends(x) && forall e :: e in entries ==> Valid(e.value) && e.value < whole
    ensures ReadFields(FieldsText(entries, x)) == Some((NormEntries(entries), x))
    decreases whole, 0, |entries|
  {
    var parts := Fields(PrintEntries(entries));
    var rest := After(parts, 125, x);
    JoinSplits(parts, 125, x);
    assert entries[0] in entries;
    FieldIsRead(entries[0], rest, whole);
    assert parts[1..] == Fields(PrintEntries(entries[1..]));
    if |entries| == 1 {
      assert rest == [125] + x && rest[1..] == x;
      assert NormEntries(entries) == [NormEntry(entries[0])];
    } else {
      assert rest[1..] == FieldsText(entries[1..], x) && rest[..1] == [44];
      FieldsAreRead(entries[1..], x, whole);
    }
  }

  lemma {:induction false} FieldIsRead(e: Entry<Json>, rest: Text, whole: Json)
    requires Valid(e.value) && e.value < whole && Ends(rest)
    ensures ReadField(Field(PrintEntry(e)) + rest) == Some((NormEntry(e), rest))
    decreases whole, 0, 0
  {
    var after := [58] + (Print(e.value) + rest);
    FieldSplits(e, rest);
    QuotedIsRead(e.key, after);
    var z := Field(PrintEntry(e)) + rest;
    assert z[1..] == Escaped(e.key) + [34] + after;
    EscapedIsRead(e.key, after);
    assert after[1..] == Print(e.value) + rest;
    PrintedIsRead(e.value, rest);
  }

  /** Sorting does not change what an object is. */
  lemma SortedSameMap(entries: seq<Entry<Json>>)
    requires DistinctKeys(entries)
    ensures ToMap(NormEntries(Sort(ByKey, entries))) == Norm(Obj(entries)).fields
  {
    SortKeepsKeysDistinct(entries);
    forall x
      ensures x in NormEntries(Sort(ByKey, entries)) <==> x in NormEntries(entries)
    {
      SortFirst(entries);
      SortHolds(ByKey, NormEntries(entries), x);
    }
    EntriesAreParallel(entries);
    EntriesAreParallel(Sort(ByKey, entries));
    SameMembersSameMap(NormEntries(Sort(ByKey, entries)), NormEntries(entries));
  }

  /** A key comes before another: at the first unit they differ in it has the smaller one, or it has none there. */
  ghost predicate Before(a: Text, b: Text) {
    exists n :: 0 <= n <= |a| && n < |b| && a[..n] == b[..n] && (n == |a| || a[n] < b[n])
  }

  lemma {:induction false} LessIsBefore(a: Text, b: Text)
    ensures Less(a, b) <==> Before(a, b)
  {
    if a != [] && b != [] && a[0] == b[0] {
      LessIsBefore(a[1..], b[1..]);
      if Before(a[1..], b[1..]) {
        var n :| 0 <= n <= |a[1..]| && n < |b[1..]| && a[1..][..n] == b[1..][..n] && (n == |a[1..]| || a[1..][n] < b[1..][n]);
        assert a[..n + 1] == [a[0]] + a[1..][..n] && b[..n + 1] == [b[0]] + b[1..][..n];
      }
      if Before(a, b) {
        var n :| 0 <= n <= |a| && n < |b| && a[..n] == b[..n] && (n == |a| || a[n] < b[n]);
        assert n > 0;
        assert a[1..][..n - 1] == a[..n][1..] && b[1..][..n - 1] == b[..n][1..];
      }
    } else if b != [] && (a == [] || a[0] < b[0]) {
      assert a[..0] == b[..0];
    }
  }

  /** An object's fields are written with their keys going up. */
  lemma KeysAscend(v: Json, x: Text)
    requires v.Obj? && Valid(v)
    ensures var sorted := Sort(ByKey, v.entries);
            && multiset(sorted) == multiset(v.entries)
            && Print(v) + x == [123] + FieldsText(sorted, x)
            && forall i, j :: 0 <= i < j < |sorted| ==> Before(sorted[i].key, sorted[j].key)
  {
    var sorted := Sort(ByKey, v.entries);
    ObjectText(v, x);
    ByKeyIsStrict<Json>();
    DistinctKeysAreRanked(v.entries);
    SortAscends(ByKey, v.entries);
    SortKeepsAll(ByKey, v.entries);
    forall i, j | 0 <= i < j < |sorted|
      ensures Before(sorted[i].key, sorted[j].key)
    {
      assert ByKey(sorted[i], sorted[j]);
      LessIsBefore(sorted[i].key, sorted[j].key);
    }
  }
}
