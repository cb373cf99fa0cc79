/**
 * Text as JavaScript has it, a sequence of UTF-16 code units: its order, and
 * `JSON.stringify` of a string (section 7 of RFC 8259, with lone surrogates
 * escaped), which is uniquely readable.
 */
module JsonText {

  type CodeUnit = n: nat | n < 0x1_0000

  type Text = seq<CodeUnit>

  const QUOTE: CodeUnit := 34
  const BACKSLASH: CodeUnit := 92
  const LOWER_U: CodeUnit := 117

  // ---------------------------------------------------------------------------
  // Order
  // ---------------------------------------------------------------------------

  /** JavaScript's `a < b` on strings. */
  predicate Less(a: Text, b: Text) {
    if b == [] then false
    else if a == [] then true
    else if a[0] != b[0] then a[0] < b[0]
    else Less(a[1..], b[1..])
  }

  lemma {:induction false} LessIsStrict(a: Text)
    ensures !Less(a, a)
  {
    if a != [] {
      LessIsStrict(a[1..]);
    }
  }

  lemma {:induction false} LessIsTransitive(a: Text, b: Text, c: Text)
    requires Less(a, b) && Less(b, c)
    ensures Less(a, c)
  {
    if a != [] && a[0] == b[0] == c[0] {
      LessIsTransitive(a[1..], b[1..], c[1..]);
    }
  }

  lemma {:induction false} LessIsTotal(a: Text, b: Text)
    ensures Less(a, b) || a == b || Less(b, a)
  {
    if a != [] && b != [] && a[0] == b[0] {
      LessIsTotal(a[1..], b[1..]);
      assert a == [a[0]] + a[1..] && b == [b[0]] + b[1..];
    }
  }

  // ---------------------------------------------------------------------------
  // Quoting
  // ---------------------------------------------------------------------------

  predicate High(c: CodeUnit) { 0xD800 <= c <= 0xDBFF }

  predicate Low(c: CodeUnit) { 0xDC00 <= c <= 0xDFFF }

  function HexDigit(d: nat): CodeUnit
    requires d < 16
  {
    if d < 10 then 48 + d else 87 + d
  }

  function Hex4(c: CodeUnit): Text {
    [HexDigit(c / 4096), HexDigit(c / 256 % 16), HexDigit(c / 16 % 16), HexDigit(c % 16)]
  }

  /** The letter of a two-character escape, or 0 when the unit has none. */
  function ShortEscape(c: CodeUnit): CodeUnit {
    if c == QUOTE || c == BACKSLASH then c
    else if c == 8 then 98
    else if c == 9 then 116
    else if c == 10 then 110
    else if c == 12 then 102
    else if c == 13 then 114
    else 0
  }

  /** How many units of `s` the next piece of output stands for: a surrogate pair goes through whole. */
  function Width(s: Text): nat
    requires s != []
  {
    if High(s[0]) && |s| > 1 && Low(s[1]) then 2 else 1
  }

  /** The output for the next piece of `s`. */
  function Piece(s: Text): Text
    requires s != []
  {
    var c := s[0];
    if Width(s) == 2 then [c, s[1]]
    else if ShortEscape(c) != 0 then [BACKSLASH, ShortEscape(c)]
    else if c < 32 || High(c) || Low(c) then [BACKSLASH, LOWER_U] + Hex4(c)
    else [c]
  }

  function Escaped(s: Text): Text
    decreases |s|
  {
    if s == [] then [] else Piece(s) + Escaped(s[Width(s)..])
  }

  function Quote(s: Text): Text { [QUOTE] + Escaped(s) + [QUOTE] }

  /** A unit that stands as it is: no quote, no backslash, no control, no lone half of a surrogate pair. */
  ghost predicate Plainly(s: Text, i: nat)
    requires i < |s|
  {
    && s[i] != 34 && s[i] != 92 && s[i] >= 32
    && (0xD800 <= s[i] <= 0xDBFF ==> i + 1 < |s| && 0xDC00 <= s[i + 1] <= 0xDFFF)
    && (0xDC00 <= s[i] <= 0xDFFF ==> i > 0 && 0xD800 <= s[i - 1] <= 0xDBFF)
  }

  /** Text is written as it is exactly when every unit of it may stand so: nothing else is escaped. */
  lemma {:induction false} EscapedIsItself(s: Text)
    ensures Escaped(s) == s <==> forall i :: 0 <= i < |s| ==> Plainly(s, i)
    ensures |Escaped(s)| >= |s|
    decreases |s|
  {
    if s != [] {
      EscapedIsItself(s[Width(s)..]);
      PieceIsItself(s);
      PieceAndRest(s);
      PlainlySplits(s);
    }
  }

  ghost predicate FirstStands(s: Text)
    requires s != []
  {
    Width(s) == 2 || (s[0] != 34 && s[0] != 92 && s[0] >= 32 && !(0xD800 <= s[0] <= 0xDFFF))
  }

  lemma PieceAndRest(s: Text)
    requires s != [] && |Escaped(s[Width(s)..])| >= |s| - Width(s) && |Piece(s)| >= Width(s)
    ensures Escaped(s) == s <==> Piece(s) == s[..Width(s)] && Escaped(s[Width(s)..]) == s[Width(s)..]
    ensures |Escaped(s)| >= |s|
  {
    var w := Width(s);
    assert s == s[..w] + s[w..];
    if Escaped(s) == s {
      assert |Piece(s)| == w;
      assert Escaped(s)[..w] == Piece(s) && Escaped(s)[w..] == Escaped(s[w..]);
    }
  }

  lemma PlainlySplits(s: Text)
    requires s != []
    ensures (forall i :: 0 <= i < |s| ==> Plainly(s, i))
       <==> FirstStands(s) && forall i :: 0 <= i < |s[Width(s)..]| ==> Plainly(s[Width(s)..], i)
  {
    var w := Width(s);
    var rest := s[w..];
    if forall i :: 0 <= i < |s| ==> Plainly(s, i) {
      assert Plainly(s, 0);
      forall i | 0 <= i < |rest|
        ensures Plainly(rest, i)
      {
        assert Plainly(s, i + w) && (i == 0 && w == 1 ==> Plainly(s, 0));
      }
    }
    if FirstStands(s) && forall i :: 0 <= i < |rest| ==> Plainly(rest, i) {
      forall i | 0 <= i < |s|
        ensures Plainly(s, i)
      {
        assert i >= w ==> Plainly(rest, i - w);
      }
    }
  }

  /** A piece is as long as what it stands for only when it is what it stands for. */
  lemma PieceIsItself(s: Text)
    requires s != []
    ensures |Piece(s)| >= Width(s)
    ensures |Piece(s)| == Width(s) <==> Piece(s) == s[..Width(s)]
    ensures Piece(s) == s[..Width(s)] <==> FirstStands(s)
  {
  }

  /** The escapes that have a letter. */
  lemma LettersOfEscapes(c: CodeUnit)
    ensures c == 34 || c == 92 ==> Escaped([c]) == [92, c]
    ensures c == 8 ==> Escaped([c]) == [92, 98]
    ensures c == 9 ==> Escaped([c]) == [92, 116]
    ensures c == 10 ==> Escaped([c]) == [92, 110]
    ensures c == 12 ==> Escaped([c]) == [92, 102]
    ensures c == 13 ==> Escaped([c]) == [92, 114]
    // The others in four digits, the ones past nine small letters.
    ensures c == 31 ==> Escaped([c]) == [92, 117, 48, 48, 49, 102]
    ensures c == 0xDEAB ==> Escaped([c]) == [92, 117, 100, 101, 97, 98]
  {
    assert Escaped([c]) == Piece([c]) + Escaped([c][1..]);
  }

  lemma HexDigitIsInjective(d: nat, e: nat)
    requires d < 16 && e < 16 && HexDigit(d) == HexDigit(e)
    ensures d == e
  {
  }

  /** Four hexadecimal digits spell the unit. */
  lemma HexSpells(c: CodeUnit)
    ensures c == 4096 * (c / 4096) + 256 * (c / 256 % 16) + 16 * (c / 16 % 16) + c % 16
  {
    var q1 := c / 16;
    var q2 := q1 / 16;
    var q3 := q2 / 16;
    assert c == 16 * q1 + c % 16 && q1 == 16 * q2 + q1 % 16 && q2 == 16 * q3 + q2 % 16;
    assert c / 256 == q2;
    assert c / 4096 == q3;
  }

  lemma HexIsInjective(a: CodeUnit, b: CodeUnit)
    requires Hex4(a) == Hex4(b)
    ensures a == b
  {
    assert Hex4(a)[0] == Hex4(b)[0] && Hex4(a)[1] == Hex4(b)[1] && Hex4(a)[2] == Hex4(b)[2] && Hex4(a)[3] == Hex4(b)[3];
    HexDigitIsInjective(a / 4096, b / 4096);
    HexDigitIsInjective(a / 256 % 16, b / 256 % 16);
    HexDigitIsInjective(a / 16 % 16, b / 16 % 16);
    HexDigitIsInjective(a % 16, b % 16);
    HexSpells(a);
    HexSpells(b);
  }

  /** A piece never begins like the closing quote, and pieces of different text never agree. */
  lemma PieceReadsBack(s: Text, t: Text, u: Text, v: Text)
    requires s != [] && t != [] && Piece(s) + u == Piece(t) + v
    ensures Piece(s)[0] != QUOTE
    ensures Width(s) == Width(t) && s[..Width(s)] == t[..Width(t)] && u == v
  {
    var a, b := Piece(s) + u, Piece(t) + v;
    assert a[0] == Piece(s)[0] == Piece(t)[0] == b[0];
    if Piece(s)[0] == BACKSLASH {
      assert |Piece(s)| >= 2 && |Piece(t)| >= 2;
      assert a[1] == Piece(s)[1] && b[1] == Piece(t)[1];
      if Piece(s)[1] == LOWER_U {
        assert Piece(s)[2..] == Hex4(s[0]) && Piece(t)[2..] == Hex4(t[0]);
        assert a[2..6] == Hex4(s[0]) && b[2..6] == Hex4(t[0]);
        HexIsInjective(s[0], t[0]);
      }
    } else if Width(s) == 2 {
      assert Width(t) == 2 && a[1] == s[1] && b[1] == t[1];
    }
    assert Piece(s) == Piece(t);
    assert u == a[|Piece(s)|..] && v == b[|Piece(t)|..];
  }

  /** The closing quote comes first exactly when nothing is left to read. */
  lemma ClosingQuote(s: Text, x: Text)
    ensures var a := Escaped(s) + [QUOTE] + x;
            && (a[0] == QUOTE <==> s == [])
            && (s == [] ==> x == a[1..])
            && (s != [] ==> a == Piece(s) + (Escaped(s[Width(s)..]) + [QUOTE] + x))
  {
    if s != [] {
      PieceStart(s);
      Regroup(Piece(s), Escaped(s[Width(s)..]), [QUOTE], x);
    }
  }

  lemma Regroup(a: Text, b: Text, c: Text, d: Text)
    ensures (a + b) + c + d == a + (b + c + d)
  {
  }

  lemma PieceStart(s: Text)
    requires s != []
    ensures Piece(s) != [] && Piece(s)[0] != QUOTE
  {
  }

  /** Quoted text ends where its quote ends: what follows cannot be mistaken for it. */
  lemma {:induction false} EscapedReadsBack(s: Text, t: Text, x: Text, y: Text)
    requires Escaped(s) + [QUOTE] + x == Escaped(t) + [QUOTE] + y
    ensures s == t && x == y
    decreases |s|
  {
    ClosingQuote(s, x);
    ClosingQuote(t, y);
    if s != [] {
      var s', t' := s[Width(s)..], t[Width(t)..];
      PieceReadsBack(s, t, Escaped(s') + [QUOTE] + x, Escaped(t') + [QUOTE] + y);
      EscapedReadsBack(s', t', x, y);
      assert s == s[..Width(s)] + s' && t == t[..Width(t)] + t';
    }
  }

  /** Quoting is injective, and self-delimiting whatever comes after. */
  lemma QuoteReadsBack(s: Text, t: Text, x: Text, y: Text)
    requires Quote(s) + x == Quote(t) + y
    ensures s == t && x == y
  {
    var a, b := Quote(s) + x, Quote(t) + y;
    assert a[1..] == Escaped(s) + [QUOTE] + x && b[1..] == Escaped(t) + [QUOTE] + y;
    EscapedReadsBack(s, t, x, y);
  }
}
