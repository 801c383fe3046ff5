/** The stable sort of the standard library, and what a collation that tells names apart makes of it. */
module Sorting {
  type Comparison<!T> = (T, T) -> bool

  /** Inserts `x` after everything that is not to come after it. */
  function Insert<T>(s: seq<T>, x: T, before: Comparison<T>): seq<T> {
    if s == [] || !before(x, s[|s| - 1]) then s + [x] else Insert(s[..|s| - 1], x, before) + [s[|s| - 1]]
  }

  function Sort<T>(s: seq<T>, before: Comparison<T>): seq<T> {
    if s == [] then [] else Insert(Sort(s[..|s| - 1], before), s[|s| - 1], before)
  }

  /** Code unit order, the default of `sort`. */
  predicate CodeUnitBefore(a: string, b: string) {
    b != [] && (a == [] || a[0] < b[0] || (a[0] == b[0] && CodeUnitBefore(a[1..], b[1..])))
  }

  /** What the programs need of the locale's collation: that it orders any two different names. */
  ghost predicate Collates(collate: Comparison<string>) {
    && (forall a, b :: collate(a, b) ==> !collate(b, a))
    && (forall a, b, c :: collate(a, b) && collate(b, c) ==> collate(a, c))
    && (forall a, b :: a != b ==> collate(a, b) || collate(b, a))
  }

  function By<T>(key: T -> string, collate: Comparison<string>): Comparison<T> {
    (x: T, y: T) => collate(key(x), key(y))
  }

  lemma {:induction false} InsertKeeps<T>(s: seq<T>, x: T, before: Comparison<T>)
    ensures multiset(Insert(s, x, before)) == multiset(s) + multiset{x}
  {
    if s != [] && before(x, s[|s| - 1]) {
      var front, last := s[..|s| - 1], s[|s| - 1];
      InsertKeeps(front, x, before);
      assert multiset(s) == multiset(front) + multiset{last} by { assert s == front + [last]; }
      assert multiset(Insert(s, x, before)) == multiset(Insert(front, x, before)) + multiset{last};
    }
  }

  lemma {:induction false} SortKeeps<T>(s: seq<T>, before: Comparison<T>)
    ensures multiset(Sort(s, before)) == multiset(s)
  {
    if s != [] {
      SortKeeps(s[..|s| - 1], before);
      InsertKeeps(Sort(s[..|s| - 1], before), s[|s| - 1], before);
      assert s == s[..|s| - 1] + [s[|s| - 1]];
    }
  }

  lemma SortHolds<T>(s: seq<T>, before: Comparison<T>)
    ensures forall x :: x in Sort(s, before) <==> x in s
  {
    SortKeeps(s, before);
    forall x ensures x in Sort(s, before) <==> x in s {
      assert x in Sort(s, before) <==> x in multiset(Sort(s, before));
      assert x in s <==> x in multiset(s);
    }
  }

  ghost predicate Ascending<T>(s: seq<T>, before: Comparison<T>) {
    forall i, j :: 0 <= i < j < |s| ==> before(s[i], s[j])
  }

  ghost predicate DistinctKeys<T>(s: seq<T>, key: T -> string) {
    forall i, j :: 0 <= i < j < |s| ==> key(s[i]) != key(s[j])
  }

  lemma {:induction false} InsertAscends<T>(s: seq<T>, x: T, key: T -> string, collate: Comparison<string>)
    requires Collates(collate) && Ascending(s, By(key, collate)) && forall p :: p in s ==> key(p) != key(x)
    ensures Ascending(Insert(s, x, By(key, collate)), By(key, collate))
  {
    var before := By(key, collate);
    if s != [] {
      var front, last := s[..|s| - 1], s[|s| - 1];
      if before(x, last) {
        InsertAscends(front, x, key, collate);
        InsertKeeps(front, x, before);
        var inserted := Insert(front, x, before);
        forall i | 0 <= i < |inserted| ensures before(inserted[i], last) {
          assert inserted[i] in multiset(inserted);
          assert inserted[i] in front || inserted[i] == x;
        }
      } else {
        assert before(last, x);
        forall i | 0 <= i < |s| ensures before(s[i], x) { }
      }
    }
  }

  lemma {:induction false} SortAscends<T>(s: seq<T>, key: T -> string, collate: Comparison<string>)
    requires Collates(collate) && DistinctKeys(s, key)
    ensures Ascending(Sort(s, By(key, collate)), By(key, collate))
  {
    if s != [] {
      var front, last := s[..|s| - 1], s[|s| - 1];
      SortAscends(front, key, collate);
      SortKeeps(front, By(key, collate));
      var sorted := Sort(front, By(key, collate));
      forall p | p in sorted ensures key(p) != key(last) {
        assert p in multiset(sorted) && p in multiset(front);
        var i :| 0 <= i < |front| && front[i] == p;
        assert s[i] == p;
      }
      InsertAscends(sorted, last, key, collate);
    }
  }

  lemma SortStep<T>(s: seq<T>, before: Comparison<T>)
    requires s != []
    ensures Sort(s, before) == Insert(Sort(s[..|s| - 1], before), s[|s| - 1], before)
  {
    hide Insert;
  }

  /** Sorting leaves an ascending sequence as it is. */
  lemma {:induction false} SortOfAscending<T>(s: seq<T>, key: T -> string, collate: Comparison<string>)
    requires Collates(collate) && Ascending(s, By(key, collate))
    ensures Sort(s, By(key, collate)) == s
  {
    if s != [] {
      var front, last := s[..|s| - 1], s[|s| - 1];
      SortOfAscending(front, key, collate);
      assert s == front + [last];
      assert front != [] ==> By(key, collate)(s[|front| - 1], s[|s| - 1]);
      hide Sort, Ascending;
      assert front != [] ==> !By(key, collate)(last, front[|front| - 1]);
      assert Insert(front, last, By(key, collate)) == front + [last];
      SortStep(s, By(key, collate));
    }
  }

  /** Two ascending sequences of the same elements are the same sequence. */
  lemma {:induction false} AscendingIsUnique<T>(s: seq<T>, t: seq<T>, key: T -> string, collate: Comparison<string>)
    requires Collates(collate) && Ascending(s, By(key, collate)) && Ascending(t, By(key, collate))
    requires multiset(s) == multiset(t)
    ensures s == t
  {
    if s == [] {
      assert |multiset(t)| == 0;
    } else {
      assert |multiset(s)| == |s| && |multiset(t)| == |t|;
      SameFirst(s, t, key, collate);
      WithoutFirst(s);
      WithoutFirst(t);
      AscendingIsUnique(s[1..], t[1..], key, collate);
    }
  }

  lemma WithoutFirst<T>(s: seq<T>)
    requires s != []
    ensures multiset(s[1..]) == multiset(s) - multiset{s[0]} && s == [s[0]] + s[1..]
  {
    assert s == [s[0]] + s[1..];
  }

  lemma SameFirst<T>(s: seq<T>, t: seq<T>, key: T -> string, collate: Comparison<string>)
    requires Collates(collate) && Ascending(s, By(key, collate)) && Ascending(t, By(key, collate))
    requires multiset(s) == multiset(t) && s != [] && t != []
    ensures s[0] == t[0]
  {
    assert s[0] in multiset(t) && t[0] in multiset(s);
    var i :| 0 <= i < |t| && t[i] == s[0];
    var j :| 0 <= j < |s| && s[j] == t[0];
  }
}
