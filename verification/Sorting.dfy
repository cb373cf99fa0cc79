/** Sorting by a strict order, and why its outcome depends on the members alone. */
module Sorting {

  type Order<!V> = (V, V) -> bool

  ghost predicate Strict<V(!new)>(less: Order<V>) {
    (forall a :: !less(a, a)) && (forall a, b, c :: less(a, b) && less(b, c) ==> less(a, c))
  }

  /** No two entries of the list are level. */
  ghost predicate Ranked<V>(less: Order<V>, s: seq<V>) {
    forall i, j :: 0 <= i < j < |s| ==> less(s[i], s[j]) || less(s[j], s[i])
  }

  ghost predicate Ascending<V>(less: Order<V>, s: seq<V>) {
    forall i, j :: 0 <= i < j < |s| ==> less(s[i], s[j])
  }

  function Insert<V>(less: Order<V>, e: V, sorted: seq<V>): seq<V> {
    if sorted == [] then [e]
    else if less(sorted[0], e) then [sorted[0]] + Insert(less, e, sorted[1..])
    else [e] + sorted
  }

  function Sort<V>(less: Order<V>, s: seq<V>): seq<V> {
    if s == [] then [] else Insert(less, s[0], Sort(less, s[1..]))
  }

  lemma {:induction false} InsertHolds<V>(less: Order<V>, e: V, s: seq<V>, x: V)
    ensures x in Insert(less, e, s) <==> x == e || x in s
  {
    if s != [] {
      InsertHolds(less, e, s[1..], x);
      assert s == [s[0]] + s[1..];
    }
  }

  lemma {:induction false} SortHolds<V>(less: Order<V>, s: seq<V>, x: V)
    ensures x in Sort(less, s) <==> x in s
  {
    if s != [] {
      SortHolds(less, s[1..], x);
      InsertHolds(less, s[0], Sort(less, s[1..]), x);
      assert s == [s[0]] + s[1..];
    }
  }

  lemma {:induction false} InsertKeepsAll<V>(less: Order<V>, e: V, s: seq<V>)
    ensures multiset(Insert(less, e, s)) == multiset([e] + s)
  {
    if s != [] && less(s[0], e) {
      InsertKeepsAll(less, e, s[1..]);
      assert s == [s[0]] + s[1..];
    }
  }

  /** Nothing is lost or added. */
  lemma {:induction false} SortKeepsAll<V>(less: Order<V>, s: seq<V>)
    ensures multiset(Sort(less, s)) == multiset(s)
  {
    if s != [] {
      SortKeepsAll(less, s[1..]);
      InsertKeepsAll(less, s[0], Sort(less, s[1..]));
      assert s == [s[0]] + s[1..];
    }
  }

  lemma PrependAscends<V>(less: Order<V>, e: V, s: seq<V>)
    requires Ascending(less, s) && forall x :: x in s ==> less(e, x)
    ensures Ascending(less, [e] + s)
  {
    var t := [e] + s;
    forall i, j | 0 <= i < j < |t|
      ensures less(t[i], t[j])
    {
      assert t[j] == s[j - 1] && s[j - 1] in s;
      assert i > 0 ==> t[i] == s[i - 1];
    }
  }

  lemma {:induction false} InsertAscends<V(!new)>(less: Order<V>, e: V, s: seq<V>)
    requires Strict(less) && Ascending(less, s) && forall x :: x in s ==> less(e, x) || less(x, e)
    ensures Ascending(less, Insert(less, e, s))
  {
    if s != [] {
      assert s == [s[0]] + s[1..];
      if less(s[0], e) {
        InsertAscends(less, e, s[1..]);
        var t := Insert(less, e, s[1..]);
        forall x | x in t
          ensures less(s[0], x)
        {
          InsertHolds(less, e, s[1..], x);
        }
        PrependAscends(less, s[0], t);
      } else {
        assert s[0] in s;
        PrependAscends(less, e, s);
      }
    }
  }

  lemma {:induction false} SortAscends<V(!new)>(less: Order<V>, s: seq<V>)
    requires Strict(less) && Ranked(less, s)
    ensures Ascending(less, Sort(less, s))
  {
    if s != [] {
      SortAscends(less, s[1..]);
      var t := Sort(less, s[1..]);
      forall x | x in t
        ensures less(s[0], x) || less(x, s[0])
      {
        SortHolds(less, s[1..], x);
      }
      InsertAscends(less, s[0], t);
    }
  }

  lemma BothEmpty<V>(s: seq<V>, t: seq<V>)
    requires forall x :: x in s <==> x in t
    ensures s == [] <==> t == []
  {
    if s != [] {
      assert s[0] in s;
    }
    if t != [] {
      assert t[0] in t;
    }
  }

  lemma TailMembers<V(!new)>(less: Order<V>, s: seq<V>, x: V)
    requires Strict(less) && s != [] && Ascending(less, s)
    ensures x in s[1..] <==> x in s && x != s[0]
  {
    assert s == [s[0]] + s[1..];
  }

  /** There is one ascending list of given members. */
  lemma {:induction false} AscendingIsUnique<V(!new)>(less: Order<V>, s: seq<V>, t: seq<V>)
    requires Strict(less) && Ascending(less, s) && Ascending(less, t) && forall x :: x in s <==> x in t
    ensures s == t
  {
    BothEmpty(s, t);
    if s != [] {
      assert s[0] in t && t[0] in s;
      forall x
        ensures x in s[1..] <==> x in t[1..]
      {
        TailMembers(less, s, x);
        TailMembers(less, t, x);
      }
      AscendingIsUnique(less, s[1..], t[1..]);
      assert s == [s[0]] + s[1..] && t == [t[0]] + t[1..];
    }
  }

  /** Two lists with the same members, none of them level, sort to the same list. */
  lemma SortForgetsOrder<V(!new)>(less: Order<V>, s: seq<V>, t: seq<V>)
    requires Strict(less) && Ranked(less, s) && Ranked(less, t) && forall x :: x in s <==> x in t
    ensures Sort(less, s) == Sort(less, t)
  {
    SortAscends(less, s);
    SortAscends(less, t);
    forall x
      ensures x in Sort(less, s) <==> x in Sort(less, t)
    {
      SortHolds(less, s, x);
      SortHolds(less, t, x);
    }
    AscendingIsUnique(less, Sort(less, s), Sort(less, t));
  }
}
