/** Stable sorting: what a language's own sort does with a comparator. */
module Sorting {
  /** "Comes before" as a comparator gives it: ties allowed, and ties are themselves an equivalence. */
  ghost predicate IsOrder<T(!new)>(before: (T, T) -> bool) {
    && (forall x, y :: before(x, y) ==> !before(y, x))
    && (forall x, y, z {:trigger before(x, y), before(y, z)} :: before(x, z) ==> before(x, y) || before(y, z))
  }

  predicate Tied<T>(before: (T, T) -> bool, x: T, y: T) {
    !before(x, y) && !before(y, x)
  }

  predicate Sorted<T>(before: (T, T) -> bool, s: seq<T>) {
    forall i, j :: 0 <= i < j < |s| ==> !before(s[j], s[i])
  }

  function Insert<T>(before: (T, T) -> bool, x: T, s: seq<T>): seq<T> {
    if s == [] then [x]
    else if before(s[0], x) then [s[0]] + Insert(before, x, s[1..])
    else [x] + s
  }

  /** Each item goes ahead of the ties that came after it. */
  function Sort<T>(before: (T, T) -> bool, s: seq<T>): seq<T> {
    if s == [] then [] else Insert(before, s[0], Sort(before, s[1..]))
  }

  /** The items tied with `x`, in the order they stand. */
  function Ties<T>(before: (T, T) -> bool, x: T, s: seq<T>): seq<T> {
    if s == [] then []
    else if Tied(before, x, s[0]) then [s[0]] + Ties(before, x, s[1..])
    else Ties(before, x, s[1..])
  }

  lemma {:induction false} InsertMembers<T>(before: (T, T) -> bool, x: T, s: seq<T>, y: T)
    ensures y in Insert(before, x, s) <==> y == x || y in s
  {
    if s != [] && before(s[0], x) {
      InsertMembers(before, x, s[1..], y);
      assert y in s <==> y == s[0] || y in s[1..];
    }
  }

  lemma {:induction false} SortMembers<T>(before: (T, T) -> bool, s: seq<T>, y: T)
    ensures y in Sort(before, s) <==> y in s
  {
    if s != [] {
      SortMembers(before, s[1..], y);
      InsertMembers(before, s[0], Sort(before, s[1..]), y);
      assert y in s <==> y == s[0] || y in s[1..];
    }
  }

  lemma {:induction false} TiesMembers<T>(before: (T, T) -> bool, x: T, s: seq<T>, y: T)
    ensures y in Ties(before, x, s) <==> y in s && Tied(before, x, y)
  {
    if s != [] {
      TiesMembers(before, x, s[1..], y);
      assert y in s <==> y == s[0] || y in s[1..];
    }
  }

  lemma {:induction false} TiesJoin<T>(before: (T, T) -> bool, x: T, a: seq<T>, b: seq<T>)
    ensures Ties(before, x, a + b) == Ties(before, x, a) + Ties(before, x, b)
  {
    if a == [] {
      assert a + b == b;
    } else {
      assert (a + b)[1..] == a[1..] + b;
      TiesJoin(before, x, a[1..], b);
    }
  }

  lemma {:induction false} InsertSorts<T(!new)>(before: (T, T) -> bool, x: T, s: seq<T>)
    requires IsOrder(before) && Sorted(before, s)
    ensures Sorted(before, Insert(before, x, s))
  {
    if s != [] {
      var r := Insert(before, x, s);
      if before(s[0], x) {
        InsertSorts(before, x, s[1..]);
        forall i, j | 0 <= i < j < |r| ensures !before(r[j], r[i]) {
          if i == 0 {
            assert r[j] in Insert(before, x, s[1..]);
            InsertMembers(before, x, s[1..], r[j]);
          }
        }
      } else {
        forall i, j | 0 <= i < j < |r| ensures !before(r[j], r[i]) {
          if i == 0 { assert !before(r[j], s[0]) && !before(s[0], x); }
        }
      }
    }
  }

  /** What goes ahead of `x` is tied with nothing that `x` is tied with. */
  ghost predicate Parts<T(!new)>(before: (T, T) -> bool, x: T, t: T) {
    Tied(before, t, x) ==> forall y :: before(y, x) ==> !Tied(before, t, y)
  }

  lemma {:induction false} InsertIsStable<T(!new)>(before: (T, T) -> bool, x: T, s: seq<T>, t: T)
    requires Parts(before, x, t)
    ensures Ties(before, t, Insert(before, x, s))
        == if Tied(before, t, x) then [x] + Ties(before, t, s) else Ties(before, t, s)
  {
    if s != [] && before(s[0], x) {
      InsertIsStable(before, x, s[1..], t);
      assert Insert(before, x, s)[1..] == Insert(before, x, s[1..]);
    } else {
      assert ([x] + s)[1..] == s;
    }
  }

  /** Sorted, and ties stand as they stood. */
  lemma {:induction false} SortIsStable<T(!new)>(before: (T, T) -> bool, s: seq<T>)
    requires IsOrder(before)
    ensures Sorted(before, Sort(before, s))
    ensures forall t :: Ties(before, t, Sort(before, s)) == Ties(before, t, s)
  {
    if s != [] {
      SortIsStable(before, s[1..]);
      InsertSorts(before, s[0], Sort(before, s[1..]));
      forall t ensures Ties(before, t, Sort(before, s)) == Ties(before, t, s) {
        InsertIsStable(before, s[0], Sort(before, s[1..]), t);
      }
    }
  }

  /** There is only one such arrangement. */
  lemma {:induction false} StableIsUnique<T(!new)>(before: (T, T) -> bool, a: seq<T>, b: seq<T>)
    requires IsOrder(before) && Sorted(before, a) && Sorted(before, b)
    requires forall t :: Ties(before, t, a) == Ties(before, t, b)
    ensures a == b
    decreases |a|
  {
    if a == [] {
      assert b != [] ==> Ties(before, b[0], b) != [];
    } else {
      SameHead(before, a, b);
      forall t ensures Ties(before, t, a[1..]) == Ties(before, t, b[1..]) {
        if Tied(before, t, a[0]) {
          assert Ties(before, t, a[1..]) == Ties(before, t, a)[1..];
          assert Ties(before, t, b[1..]) == Ties(before, t, b)[1..];
        }
      }
      StableIsUnique(before, a[1..], b[1..]);
    }
  }

  lemma SameHead<T(!new)>(before: (T, T) -> bool, a: seq<T>, b: seq<T>)
    requires IsOrder(before) && Sorted(before, a) && Sorted(before, b)
    requires forall t :: Ties(before, t, a) == Ties(before, t, b)
    requires a != []
    ensures b != [] && a[0] == b[0]
  {
    TiesMembers(before, a[0], a, a[0]);
    TiesMembers(before, a[0], b, a[0]);
    var i :| 0 <= i < |b| && b[i] == a[0];
    TiesMembers(before, b[0], b, b[0]);
    TiesMembers(before, b[0], a, b[0]);
    var j :| 0 <= j < |a| && a[j] == b[0];
    assert Tied(before, a[0], b[0]);
    assert Ties(before, a[0], a)[0] == a[0];
    assert Ties(before, a[0], b)[0] == b[0];
  }
}
