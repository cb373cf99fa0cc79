/**
 * Web addresses for new organisations: a slug made from the name, and the
 * search for one that is not taken.
 */
module Slugs {
  import opened Wrappers

  const MAX_LENGTH := 63

  // ---------------------------------------------------------------------------
  // A slug from a name
  // ---------------------------------------------------------------------------

  /** Characters a slug keeps; every other run of characters becomes a hyphen. */
  predicate Kept(c: char) { 'a' <= c <= 'z' || '0' <= c <= '9' }

  predicate Dropped(c: char) { !Kept(c) }

  predicate Hyphen(c: char) { c == '-' }

  /** Every longest run of characters of a class becomes one hyphen. */
  function Collapse(s: string, inClass: char -> bool): string {
    if s == [] then []
    else if !inClass(s[0]) then [s[0]] + Collapse(s[1..], inClass)
    else if |s| > 1 && inClass(s[1]) then Collapse(s[1..], inClass)
    else ['-'] + Collapse(s[1..], inClass)
  }

  function StripLeft(s: string): string { if s != [] && s[0] == '-' then StripLeft(s[1..]) else s }

  function StripRight(s: string): string {
    if s != [] && s[|s| - 1] == '-' then StripRight(s[..|s| - 1]) else s
  }

  function Cut(s: string, n: nat): string { if |s| <= n then s else s[..n] }

  /** `lowered` is the organisation's name, trimmed and in lower case. */
  function Slugify(lowered: string): string {
    var words := StripRight(StripLeft(Collapse(lowered, Dropped)));
    var slug := Cut(Collapse(words, Hyphen), MAX_LENGTH);
    if slug == "" then "organisation" else slug
  }

  /** The characters a web address may have here, by their codes: small letters and digits. */
  lemma KeptAre(c: char)
    ensures Kept(c) <==> 97 <= c as int <= 122 || 48 <= c as int <= 57
  {
  }

  predicate SlugCharacters(s: string) { forall i :: 0 <= i < |s| ==> Kept(s[i]) || s[i] == '-' }

  predicate SingleHyphens(s: string) { forall i :: 0 <= i < |s| - 1 ==> s[i] != '-' || s[i + 1] != '-' }

  lemma {:induction false} CollapseDrops(s: string)
    ensures SlugCharacters(Collapse(s, Dropped)) && SingleHyphens(Collapse(s, Dropped))
    ensures s != [] ==> Collapse(s, Dropped) != [] && (Collapse(s, Dropped)[0] == '-' <==> Dropped(s[0]))
  {
    if s != [] {
      CollapseDrops(s[1..]);
    }
  }

  lemma {:induction false} StripLeftKeeps(s: string)
    requires SlugCharacters(s) && SingleHyphens(s)
    ensures var t := StripLeft(s); SlugCharacters(t) && SingleHyphens(t) && (t != [] ==> t[0] != '-')
  {
    if s != [] && s[0] == '-' {
      StripLeftKeeps(s[1..]);
    }
  }

  lemma {:induction false} StripRightKeeps(s: string)
    requires SlugCharacters(s) && SingleHyphens(s) && (s != [] ==> s[0] != '-')
    ensures var t := StripRight(s);
            SlugCharacters(t) && SingleHyphens(t) && (t != [] ==> t[0] != '-' && t[|t| - 1] != '-')
  {
    if s != [] && s[|s| - 1] == '-' {
      StripRightKeeps(s[..|s| - 1]);
    }
  }

  /** Where no two hyphens meet, squeezing hyphens changes nothing. */
  lemma {:induction false} SqueezeIsIdle(s: string)
    requires SingleHyphens(s)
    ensures Collapse(s, Hyphen) == s
  {
    if s != [] {
      SqueezeIsIdle(s[1..]);
      assert s == [s[0]] + s[1..];
    }
  }

  /**
   * A slug is never empty, has only its characters, starts with none of its hyphens and
   * ends with one only when cut.
   */
  lemma SlugifyMakesASlug(lowered: string)
    ensures var slug := Slugify(lowered);
            && slug != "" && |slug| <= MAX_LENGTH && SlugCharacters(slug) && SingleHyphens(slug)
            && slug[0] != '-' && (slug[|slug| - 1] == '-' ==> |slug| == MAX_LENGTH)
  {
    CollapseDrops(lowered);
    StripLeftKeeps(Collapse(lowered, Dropped));
    StripRightKeeps(StripLeft(Collapse(lowered, Dropped)));
    var words := StripRight(StripLeft(Collapse(lowered, Dropped)));
    SqueezeIsIdle(words);
    CutKeeps(words, MAX_LENGTH);
    assert Slugify(lowered) == if Cut(words, MAX_LENGTH) == "" then "organisation" else Cut(words, MAX_LENGTH);
  }

  lemma {:induction false} SlugsStay(s: string)
    requires SlugCharacters(s) && SingleHyphens(s)
    ensures Collapse(s, Dropped) == s
  {
    if s != [] {
      SlugsStay(s[1..]);
      assert s == [s[0]] + s[1..];
    }
  }

  /** The names that are their own slug. */
  lemma SlugifyFixes(s: string)
    ensures Slugify(s) == s <==>
            && s != "" && |s| <= MAX_LENGTH && SlugCharacters(s) && SingleHyphens(s)
            && s[0] != '-' && s[|s| - 1] != '-'
  {
    SlugifyMakesASlug(s);
    if s != "" && |s| <= MAX_LENGTH && SlugCharacters(s) && SingleHyphens(s) && s[0] != '-' {
      SlugsStay(s);
      StripRightKeeps(s);
      SqueezeIsIdle(StripRight(s));
      StripRightShortens(s);
      assert "organisation"[11] == 'n';
    }
  }

  lemma {:induction false} StripRightShortens(s: string)
    ensures |StripRight(s)| <= |s| && (StripRight(s) == s <==> s == "" || s[|s| - 1] != '-')
  {
    if s != [] && s[|s| - 1] == '-' {
      StripRightShortens(s[..|s| - 1]);
    }
  }

  lemma CutKeeps(s: string, n: nat)
    requires SlugCharacters(s) && SingleHyphens(s) && (s != "" ==> s[0] != '-' && s[|s| - 1] != '-') && n > 0
    ensures var t := Cut(s, n);
            && |t| <= n && SlugCharacters(t) && SingleHyphens(t)
            && (t != "" ==> t[0] != '-' && (t[|t| - 1] == '-' ==> |t| == n))
  {
  }

  // ---------------------------------------------------------------------------
  // Numbers in decimal
  // ---------------------------------------------------------------------------

  function DigitChar(d: nat): char
    requires d < 10
  {
    (d + '0' as int) as char
  }

  function Decimal(n: nat): string { (if n < 10 then "" else Decimal(n / 10)) + [DigitChar(n % 10)] }

  function Pow10(n: nat): nat { if n == 0 then 1 else 10 * Pow10(n - 1) }

  lemma {:induction false} DecimalDigits(n: nat)
    ensures Decimal(n) != "" && forall i :: 0 <= i < |Decimal(n)| ==> '0' <= Decimal(n)[i] <= '9'
  {
    if n >= 10 {
      DecimalDigits(n / 10);
    }
  }

  lemma {:induction false} DecimalIsInjective(m: nat, n: nat)
    requires Decimal(m) == Decimal(n)
    ensures m == n
  {
    var s := Decimal(m);
    assert s[|s| - 1] == DigitChar(m % 10) && Decimal(n)[|s| - 1] == DigitChar(n % 10);
    DecimalInit(m);
    DecimalInit(n);
    if m >= 10 {
      DecimalIsInjective(m / 10, n / 10);
    }
  }

  lemma DecimalInit(n: nat)
    ensures var s := Decimal(n);
            && |s| >= 1 && s[..|s| - 1] == (if n < 10 then "" else Decimal(n / 10))
            && (n >= 10 ==> |s| > 1)
  {
    if n >= 10 {
      DecimalDigits(n / 10);
    }
  }

  lemma {:induction false} ShortDecimals(n: nat, digits: nat)
    requires n < Pow10(digits) && digits > 0
    ensures |Decimal(n)| <= digits
  {
    if n >= 10 {
      ShortDecimals(n / 10, digits - 1);
    }
  }

  // ---------------------------------------------------------------------------
  // Numbered slugs
  // ---------------------------------------------------------------------------

  function Max(a: int, b: int): int { if a >= b then a else b }

  function Numbered(slug: string, suffix: nat): string {
    Cut(slug, Max(1, MAX_LENGTH - |Decimal(suffix)| - 1)) + "-" + Decimal(suffix)
  }

  /** Different numbers give different slugs: the digits after the last hyphen tell them apart. */
  lemma NumberedIsInjective(slug: string, j: nat, k: nat)
    requires Numbered(slug, j) == Numbered(slug, k)
    ensures j == k
  {
    LastHyphen(slug, j);
    LastHyphen(slug, k);
    var s := Numbered(slug, j);
    if |Decimal(j)| == |Decimal(k)| {
      DecimalIsInjective(j, k);
    }
  }

  lemma LastHyphen(slug: string, k: nat)
    ensures var s, at := Numbered(slug, k), |Numbered(slug, k)| - |Decimal(k)| - 1;
            && 0 <= at && s[at] == '-' && s[at + 1..] == Decimal(k)
            && forall i :: at < i < |s| ==> s[i] != '-'
  {
    DecimalDigits(k);
    Tail(Cut(slug, Max(1, MAX_LENGTH - |Decimal(k)| - 1)), Decimal(k));
  }

  lemma Tail(head: string, digits: string)
    requires forall i :: 0 <= i < |digits| ==> digits[i] != '-'
    ensures var s := head + "-" + digits;
            && s[|head|] == '-' && s[|head| + 1..] == digits
            && forall i :: |head| < i < |s| ==> s[i] != '-'
  {
    var s := head + "-" + digits;
    forall i | |head| < i < |s|
      ensures s[i] != '-'
    {
      assert s[i] == digits[i - |head| - 1];
    }
  }

  /** A numbered slug fits exactly while its number has at most 61 digits. */
  lemma NumberedFits(slug: string, k: nat)
    requires slug != ""
    ensures |Numbered(slug, k)| <= MAX_LENGTH <==> |Decimal(k)| <= 61
  {
    DecimalDigits(k);
  }

  lemma NumberedCharacters(slug: string, k: nat)
    requires SlugCharacters(slug) && slug != "" && slug[0] != '-'
    ensures SlugCharacters(Numbered(slug, k)) && Numbered(slug, k) != "" && Numbered(slug, k)[0] != '-'
  {
    DecimalDigits(k);
    var head, digits := Cut(slug, Max(1, MAX_LENGTH - |Decimal(k)| - 1)), Decimal(k);
    assert Numbered(slug, k) == head + "-" + digits;
    assert SlugCharacters(head) && SlugCharacters(digits);
  }

  /** A slug that one of its own numbered forms repeats. */
  ghost predicate RepeatsItself(slug: string) { exists k: nat :: k >= 2 && Numbered(slug, k) == slug }

  /** That takes a slug of full length which already ends in the number. */
  lemma RepeatsWhen(slug: string, k: nat)
    requires |slug| <= MAX_LENGTH && |Decimal(k)| <= 61
    ensures Numbered(slug, k) == slug <==>
            |slug| == MAX_LENGTH && slug[MAX_LENGTH - 1 - |Decimal(k)|..] == "-" + Decimal(k)
  {
    DecimalDigits(k);
    var room := MAX_LENGTH - 1 - |Decimal(k)|;
    CutAndNumber(slug, room, "-" + Decimal(k));
    assert Numbered(slug, k) == Cut(slug, room) + ("-" + Decimal(k));
  }

  /** Cutting a text to make room for an ending gives the text back when it fills the room and has that ending. */
  lemma CutAndNumber(s: string, room: nat, ending: string)
    requires ending != "" && |s| <= room + |ending|
    ensures Cut(s, room) + ending == s <==> |s| == room + |ending| && s[room..] == ending
  {
    if |s| == room + |ending| {
      assert (Cut(s, room) + ending)[room..] == ending;
      assert s == s[..room] + s[room..];
    }
  }

  // ---------------------------------------------------------------------------
  // The search
  // ---------------------------------------------------------------------------

  /** The slug the search looks up when `tries` before it were taken. */
  function Candidate(slug: string, tries: nat): string {
    if tries == 0 then slug else Numbered(slug, tries + 1)
  }

  /** As many different things as `n` do not fit in fewer places. */
  lemma {:induction false} PigeonHole<T>(f: nat -> T, n: nat, places: set<T>)
    requires forall t: nat :: t < n ==> f(t) in places
    requires forall t: nat, u: nat :: t < u < n ==> f(t) != f(u)
    ensures n <= |places|
  {
    if n > 0 {
      PigeonHole(f, n - 1, places - {f(n - 1)});
    }
  }

  /** Candidates differ, but for a slug that one of its numbered forms repeats. */
  lemma CandidatesDiffer(slug: string, t: nat, u: nat)
    requires t < u && (t > 0 || !RepeatsItself(slug))
    ensures Candidate(slug, t) != Candidate(slug, u)
  {
    if t == 0 {
      assert Numbered(slug, u + 1) == slug ==> RepeatsItself(slug);
    } else if Numbered(slug, t + 1) == Numbered(slug, u + 1) {
      NumberedIsInjective(slug, t + 1, u + 1);
    }
  }

  /** There are no more taken candidates than taken slugs, but for one that repeats. */
  lemma TakenCandidates(slug: string, tries: nat, taken: set<string>)
    requires forall t: nat :: t < tries ==> Candidate(slug, t) in taken
    ensures tries <= |taken| + if RepeatsItself(slug) then 1 else 0
  {
    forall t: nat, u: nat | t < u && (t > 0 || !RepeatsItself(slug))
      ensures Candidate(slug, t) != Candidate(slug, u)
    {
      CandidatesDiffer(slug, t, u);
    }
    if !RepeatsItself(slug) {
      PigeonHole((t: nat) => Candidate(slug, t), tries, taken);
    } else if tries > 0 {
      PigeonHole((t: nat) => Candidate(slug, t + 1), tries - 1, taken);
    }
  }

  /** The first candidate that is free, and how many were not. */
  method FreeSlug(base: string, taken: set<string>) returns (slug: string, tries: nat)
    ensures slug == Candidate(base, tries) && slug !in taken
    ensures forall t: nat :: t < tries ==> Candidate(base, t) in taken
    ensures tries <= |taken| + if RepeatsItself(base) then 1 else 0
  {
    slug, tries := base, 0;
    var suffix := 2;
    while true
      invariant suffix == tries + 2 && slug == Candidate(base, tries)
      invariant forall t: nat :: t < tries ==> Candidate(base, t) in taken
      decreases |taken| + 2 - tries
    {
      TakenCandidates(base, tries, taken);
      if slug !in taken {
        break;
      }
      slug := Cut(base, Max(1, MAX_LENGTH - |Decimal(suffix)| - 1)) + "-" + Decimal(suffix);
      suffix := suffix + 1;
      tries := tries + 1;
    }
  }

  lemma CandidateIsASlug(slug: string, tries: nat)
    requires slug != "" && |slug| <= MAX_LENGTH && SlugCharacters(slug) && slug[0] != '-'
    ensures var s := Candidate(slug, tries);
            && s != "" && SlugCharacters(s) && s[0] != '-'
            && (tries + 1 < Pow10(61) ==> |s| <= MAX_LENGTH)
  {
    if tries > 0 {
      NumberedCharacters(slug, tries + 1);
      NumberedFits(slug, tries + 1);
      if tries + 1 < Pow10(61) {
        ShortDecimals(tries + 1, 61);
      }
    }
  }

  datatype Organisation = Organisation(name: string, slug: string)

  predicate DistinctSlugs(rows: seq<Organisation>) {
    forall i, j :: 0 <= i < j < |rows| ==> rows[i].slug != rows[j].slug
  }

  /** The slugs in use. */
  function SlugsOf(rows: seq<Organisation>): set<string> { set i | 0 <= i < |rows| :: rows[i].slug }

  lemma {:induction false} NoMoreSlugsThanRows(rows: seq<Organisation>)
    ensures |SlugsOf(rows)| <= |rows|
  {
    if rows != [] {
      var before := rows[..|rows| - 1];
      NoMoreSlugsThanRows(before);
      assert SlugsOf(rows) == SlugsOf(before) + {rows[|rows| - 1].slug};
    }
  }

  /** Of an approved request's organisation: its row, found by name or new. */
  method ResolveOrganisation(rows: seq<Organisation>, name: string, lowered: string)
    returns (r: Option<nat>, after: seq<Organisation>)
    requires DistinctSlugs(rows)
    ensures DistinctSlugs(after)
    ensures name == "" ==> r == None && after == rows
    ensures name != "" ==> r.Some? && r.value < |after| && after[r.value].name == name
    ensures name != "" && (exists i :: 0 <= i < |rows| && rows[i].name == name) ==> after == rows
    ensures name != "" && (forall i :: 0 <= i < |rows| ==> rows[i].name != name) ==>
              && r == Some(|rows|) && |after| == |rows| + 1 && after[..|rows|] == rows
              && var slug := after[|rows|].slug;
                 && slug != "" && SlugCharacters(slug) && slug[0] != '-'
                 && (|rows| + 2 < Pow10(61) ==> |slug| <= MAX_LENGTH)
  {
    if name == "" { return None, rows; }
    for i := 0 to |rows|
      invariant forall k :: 0 <= k < i ==> rows[k].name != name
    {
      if rows[i].name == name { return Some(i), rows; }
    }
    var base := Slugify(lowered);
    SlugifyMakesASlug(lowered);
    var slug, tries := FreeSlug(base, SlugsOf(rows));
    NoMoreSlugsThanRows(rows);
    CandidateIsASlug(base, tries);
    forall i | 0 <= i < |rows|
      ensures rows[i].slug != slug
    {
      assert rows[i].slug in SlugsOf(rows);
    }
    return Some(|rows|), rows + [Organisation(name, slug)];
  }

  /**
   * A slug that repeats itself does cost a look-up, and a name can have one: with one
   * organisation, the first two candidates are taken.
   */
  lemma RepeatingCostsATry()
    ensures exists slug: string :: |slug| == MAX_LENGTH && Slugify(slug) == slug && RepeatsItself(slug)
              && Candidate(slug, 0) in {slug} && Candidate(slug, 1) in {slug}
  {
    var slug := seq(61, _ => 'a') + "-2";
    assert Decimal(2) == "2";
    assert slug[61..] == "-" + Decimal(2);
    RepeatsWhen(slug, 2);
    LongTwo(slug);
  }

  lemma LongTwo(slug: string)
    requires slug == seq(61, _ => 'a') + "-2"
    ensures Slugify(slug) == slug
  {
    assert slug[61] == '-' && slug[62] == '2' && forall i :: 0 <= i < 61 ==> slug[i] == 'a';
    SlugifyFixes(slug);
  }
}
