/** What std::sort does to items whose keys are pairwise different: the one strictly ascending arrangement. */
module Sorting {
  import opened ByteStrings

  ghost predicate Ascending<T>(key: T -> seq<int>, xs: seq<T>) {
    forall i, j | 0 <= i < j < |xs| :: Less(key(xs[i]), key(xs[j]))
  }

  predicate DistinctKeys<T>(key: T -> seq<int>, xs: seq<T>) {
    forall i, j | 0 <= i < j < |xs| :: key(xs[i]) != key(xs[j])
  }

  function Insert<T>(key: T -> seq<int>, xs: seq<T>, x: T): seq<T> {
    if xs == [] then [x]
    else if Less(key(x), key(xs[0])) then [x] + xs
    else [xs[0]] + Insert(key, xs[1..], x)
  }

  function Sort<T>(key: T -> seq<int>, xs: seq<T>): seq<T> {
    if xs == [] then [] else Insert(key, Sort(key, xs[..|xs| - 1]), xs[|xs| - 1])
  }

  lemma {:induction false} InsertMembers<T>(key: T -> seq<int>, xs: seq<T>, x: T, y: T)
    ensures y in Insert(key, xs, x) <==> y == x || y in xs
  {
    if xs != [] && !Less(key(x), key(xs[0])) {
      InsertMembers(key, xs[1..], x, y);
      assert xs == [xs[0]] + xs[1..];
    }
  }

  lemma {:induction false} InsertAscending<T>(key: T -> seq<int>, xs: seq<T>, x: T)
    requires Ascending(key, xs) && forall y | y in xs :: key(y) != key(x)
    ensures Ascending(key, Insert(key, xs, x))
  {
    if xs != [] {
      if Less(key(x), key(xs[0])) {
        forall j | 0 < j < |xs|
          ensures Less(key(x), key(xs[j]))
        {
          LessTransitive(key(x), key(xs[0]), key(xs[j]));
        }
      } else {
        assert xs[0] in xs;
        LessTotal(key(x), key(xs[0]));
        InsertAscending(key, xs[1..], x);
        var rest := Insert(key, xs[1..], x);
        forall j | 0 <= j < |rest|
          ensures Less(key(xs[0]), key(rest[j]))
        {
          InsertMembers(key, xs[1..], x, rest[j]);
        }
      }
    }
  }

  lemma {:induction false} SortMembers<T>(key: T -> seq<int>, xs: seq<T>, y: T)
    ensures y in Sort(key, xs) <==> y in xs
  {
    if xs != [] {
      var front := xs[..|xs| - 1];
      SortMembers(key, front, y);
      InsertMembers(key, Sort(key, front), xs[|xs| - 1], y);
      assert xs == front + [xs[|xs| - 1]];
    }
  }

  lemma {:induction false} SortAscending<T>(key: T -> seq<int>, xs: seq<T>)
    requires DistinctKeys(key, xs)
    ensures Ascending(key, Sort(key, xs))
  {
    if xs != [] {
      var front, last := xs[..|xs| - 1], xs[|xs| - 1];
      SortAscending(key, front);
      forall y | y in Sort(key, front)
        ensures key(y) != key(last)
      {
        SortMembers(key, front, y);
      }
      InsertAscending(key, Sort(key, front), last);
    }
  }

  /** Two ascending arrangements of the same items are the same. */
  lemma {:induction false} AscendingUnique<T>(key: T -> seq<int>, a: seq<T>, b: seq<T>)
    requires Ascending(key, a) && Ascending(key, b)
    requires forall x | x in a :: x in b
    requires forall x | x in b :: x in a
    ensures a == b
  {
    if a == [] {
      assert forall i | 0 <= i < |b| :: b[i] in a;
    } else {
      FirstsAgree(key, a, b);
      forall x | x in a[1..] ensures x in b[1..] {
        var i :| 0 <= i < |a[1..]| && a[1..][i] == x;
        assert Less(key(a[0]), key(a[i + 1]));
        LessIrreflexive(key(x));
        assert x in a && b == [b[0]] + b[1..];
      }
      forall x | x in b[1..] ensures x in a[1..] {
        var i :| 0 <= i < |b[1..]| && b[1..][i] == x;
        assert Less(key(b[0]), key(b[i + 1]));
        LessIrreflexive(key(x));
        assert x in b && a == [a[0]] + a[1..];
      }
      AscendingUnique(key, a[1..], b[1..]);
      assert a == [a[0]] + a[1..] && b == [b[0]] + b[1..];
    }
  }

  lemma FirstsAgree<T>(key: T -> seq<int>, a: seq<T>, b: seq<T>)
    requires Ascending(key, a) && Ascending(key, b) && a != []
    requires forall x | x in a :: x in b
    requires forall x | x in b :: x in a
    ensures b != [] && a[0] == b[0]
  {
    assert a[0] in b;
    var j :| 0 <= j < |b| && b[j] == a[0];
    assert b[0] in a;
    var i :| 0 <= i < |a| && a[i] == b[0];
    if i != 0 && j != 0 {
      LessAsymmetric(key(a[0]), key(a[i]));
    }
  }
}
