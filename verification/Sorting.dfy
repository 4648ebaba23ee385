/** Sorting by a key, and what the first few of a sorted sequence depend on. */
module Sorting {
  /** `before` compares keys: ties are transitive. */
  ghost predicate WeakOrder<T(!new)>(before: (T, T) -> bool) {
    && (forall x :: !before(x, x))
    && (forall x, y, z :: before(x, y) && before(y, z) ==> before(x, z))
    && (forall x, y, z :: before(x, z) ==> before(x, y) || before(y, z))
  }

  predicate Ordered<T>(before: (T, T) -> bool, s: seq<T>) {
    forall i, j :: 0 <= i < j < |s| ==> !before(s[j], s[i])
  }

  /** No two different elements have the same key. */
  predicate Distinguished<T(==)>(before: (T, T) -> bool, s: seq<T>) {
    forall x, y :: x in s && y in s && x != y ==> before(x, y) || before(y, x)
  }

  function Insert<T>(before: (T, T) -> bool, x: T, s: seq<T>): seq<T> {
    if s == [] || !before(s[0], x) then [x] + s else [s[0]] + Insert(before, x, s[1..])
  }

  /** The stable sort. */
  function Sorted<T>(before: (T, T) -> bool, s: seq<T>): seq<T> {
    if s == [] then [] else Insert(before, s[0], Sorted(before, s[1..]))
  }

  function Top<T>(s: seq<T>, n: nat): seq<T> {
    if |s| <= n then s else s[..n]
  }

  /** How many elements come before `x`. */
  function CountBefore<T>(before: (T, T) -> bool, x: T, s: seq<T>): nat {
    if s == [] then 0 else (if before(s[0], x) then 1 else 0) + CountBefore(before, x, s[1..])
  }

  // ----- The sort is an ordered permutation, and the only one -----

  lemma {:induction false} InsertIsOrdered<T(!new)>(before: (T, T) -> bool, x: T, s: seq<T>)
    requires WeakOrder(before) && Ordered(before, s)
    ensures Ordered(before, Insert(before, x, s))
    ensures multiset(Insert(before, x, s)) == multiset{x} + multiset(s)
  {
    var r := Insert(before, x, s);
    if s != [] {
      assert s == [s[0]] + s[1..];
      if before(s[0], x) {
        InsertIsOrdered(before, x, s[1..]);
        forall j | 0 < j < |r| ensures !before(r[j], s[0]) {
          assert r[j] in multiset(r[1..]);
          assert r[j] == x || r[j] in s[1..];
        }
      } else {
        forall j | 0 < j < |r| ensures !before(r[j], x) {
          assert !before(s[j - 1], s[0]) || j == 1;
        }
      }
    }
  }

  lemma {:induction false} SortedIsOrdered<T(!new)>(before: (T, T) -> bool, s: seq<T>)
    requires WeakOrder(before)
    ensures Ordered(before, Sorted(before, s))
    ensures multiset(Sorted(before, s)) == multiset(s)
    ensures |Sorted(before, s)| == |s|
  {
    if s != [] {
      SortedIsOrdered(before, s[1..]);
      InsertIsOrdered(before, s[0], Sorted(before, s[1..]));
      assert s == [s[0]] + s[1..];
    }
    assert |Sorted(before, s)| == |multiset(Sorted(before, s))| == |multiset(s)|;
  }

  lemma {:induction false} OrderedIsUnique<T(!new)>(before: (T, T) -> bool, a: seq<T>, b: seq<T>)
    requires Ordered(before, a) && Ordered(before, b) && multiset(a) == multiset(b)
    requires Distinguished(before, a)
    ensures a == b
  {
    assert |a| == |multiset(a)| == |multiset(b)| == |b|;
    if a != [] {
      assert a[0] in multiset(b) && b[0] in multiset(a);
      assert a[0] == b[0];
      assert a == [a[0]] + a[1..] && b == [b[0]] + b[1..];
      assert multiset(a[1..]) == multiset(a) - multiset{a[0]};
      assert multiset(b[1..]) == multiset(b) - multiset{b[0]};
      OrderedIsUnique(before, a[1..], b[1..]);
    }
  }

  /** The result does not depend on the order of the input. */
  lemma SortedForgetsOrder<T(!new)>(before: (T, T) -> bool, a: seq<T>, b: seq<T>)
    requires WeakOrder(before) && multiset(a) == multiset(b) && Distinguished(before, a)
    ensures Sorted(before, a) == Sorted(before, b)
  {
    SortedIsOrdered(before, a);
    SortedIsOrdered(before, b);
    var s := Sorted(before, a);
    forall x | x in s ensures x in a {
      assert x in multiset(s);
    }
    OrderedIsUnique(before, s, Sorted(before, b));
  }

  lemma {:induction false} SortedOfOrdered<T(!new)>(before: (T, T) -> bool, s: seq<T>)
    requires Ordered(before, s)
    ensures Sorted(before, s) == s
  {
    if s != [] {
      SortedOfOrdered(before, s[1..]);
      assert s[1..] != [] ==> s[1..][0] == s[1];
    }
  }

  // ----- The first n -----

  lemma {:induction false} InsertTop<T(!new)>(before: (T, T) -> bool, x: T, s: seq<T>, n: nat)
    ensures Top(Insert(before, x, s), n) == Top(Insert(before, x, Top(s, n)), n)
  {
    if 0 < n < |s| {
      var t := s[..n];
      if before(s[0], x) {
        InsertTop(before, x, s[1..], n - 1);
        assert Top(s[1..], n - 1) == t[1..];
        TopCons(s[0], Insert(before, x, s[1..]), n);
        TopCons(s[0], Insert(before, x, t[1..]), n);
      } else {
        assert ([x] + s)[..n] == ([x] + t)[..n];
      }
    }
  }

  lemma TopCons<T>(x: T, s: seq<T>, n: nat)
    requires 0 < n
    ensures Top([x] + s, n) == [x] + Top(s, n - 1)
  {
  }

  lemma TopIsOrdered<T(!new)>(before: (T, T) -> bool, s: seq<T>, n: nat)
    requires Ordered(before, s)
    ensures Ordered(before, Top(s, n)) && Top(Top(s, n), n) == Top(s, n)
  {
  }

  /** Below the first n of `b`, nothing can reach the first n of the whole. */
  lemma {:induction false} TopOfRight<T(!new)>(before: (T, T) -> bool, a: seq<T>, b: seq<T>, n: nat)
    requires WeakOrder(before)
    ensures Top(Sorted(before, a + b), n) == Top(Sorted(before, a + Top(Sorted(before, b), n)), n)
    decreases |a|
  {
    hide Insert, WeakOrder, Top, Ordered;
    var best := Top(Sorted(before, b), n);
    if a == [] {
      SortedIsOrdered(before, b);
      TopIsOrdered(before, Sorted(before, b), n);
      SortedOfOrdered(before, best);
      assert a + b == b && a + best == best;
    } else {
      TopOfRight(before, a[1..], b, n);
      assert (a + b)[0] == a[0] && (a + b)[1..] == a[1..] + b;
      assert (a + best)[0] == a[0] && (a + best)[1..] == a[1..] + best;
      InsertTop(before, a[0], Sorted(before, a[1..] + b), n);
      InsertTop(before, a[0], Sorted(before, a[1..] + best), n);
    }
  }

  /** The first n of two sequences together are among the first n of each. */
  lemma TopOfBoth<T(!new)>(before: (T, T) -> bool, a: seq<T>, b: seq<T>, n: nat)
    requires WeakOrder(before) && Distinguished(before, a + b)
    ensures Top(Sorted(before, a + b), n) ==
      Top(Sorted(before, Top(Sorted(before, a), n) + Top(Sorted(before, b), n)), n)
  {
    hide Sorted, Top, WeakOrder, Distinguished;
    var bestA, bestB := Top(Sorted(before, a), n), Top(Sorted(before, b), n);
    TopOfRight(before, a, b, n);
    TopMembers(before, a, n);
    TopMembers(before, b, n);
    Swap(before, a, bestB, a + b);
    TopOfRight(before, bestB, a, n);
    Swap(before, bestA, bestB, a + b);
  }

  lemma TopMembers<T(!new)>(before: (T, T) -> bool, s: seq<T>, n: nat)
    requires WeakOrder(before)
    ensures forall x :: x in Top(Sorted(before, s), n) ==> x in s
  {
    SortedIsOrdered(before, s);
    forall x | x in Top(Sorted(before, s), n) ensures x in s {
      assert x in multiset(Sorted(before, s));
    }
  }

  lemma Swap<T(!new)>(before: (T, T) -> bool, a: seq<T>, b: seq<T>, all: seq<T>)
    requires WeakOrder(before) && Distinguished(before, all)
    requires forall x :: x in a || x in b ==> x in all
    ensures Sorted(before, a + b) == Sorted(before, b + a)
  {
    SortedForgetsOrder(before, a + b, b + a);
  }

  // ----- Positions are ranks -----

  lemma {:induction false} InsertCounts<T(!new)>(before: (T, T) -> bool, x: T, y: T, s: seq<T>)
    ensures CountBefore(before, x, Insert(before, y, s)) ==
      (if before(y, x) then 1 else 0) + CountBefore(before, x, s)
  {
    if s == [] || !before(s[0], y) {
      assert ([y] + s)[1..] == s;
    } else {
      InsertCounts(before, x, y, s[1..]);
      assert ([s[0]] + Insert(before, y, s[1..]))[1..] == Insert(before, y, s[1..]);
    }
  }

  lemma {:induction false} SortedCounts<T(!new)>(before: (T, T) -> bool, x: T, s: seq<T>)
    ensures CountBefore(before, x, Sorted(before, s)) == CountBefore(before, x, s)
  {
    if s != [] {
      SortedCounts(before, x, s[1..]);
      InsertCounts(before, x, s[0], Sorted(before, s[1..]));
    }
  }

  lemma {:induction false} NoneBefore<T(!new)>(before: (T, T) -> bool, x: T, s: seq<T>)
    requires forall y :: y in s ==> !before(y, x)
    ensures CountBefore(before, x, s) == 0
  {
    if s != [] {
      NoneBefore(before, x, s[1..]);
    }
  }

  predicate Strict<T>(before: (T, T) -> bool, s: seq<T>) {
    forall i, j :: 0 <= i < j < |s| ==> before(s[i], s[j])
  }

  lemma {:induction false} InsertIsStrict<T(!new)>(before: (T, T) -> bool, x: T, s: seq<T>)
    requires WeakOrder(before) && Strict(before, s)
    requires forall y :: y in s ==> before(x, y) || before(y, x)
    ensures Strict(before, Insert(before, x, s))
    ensures forall y :: y in Insert(before, x, s) <==> y == x || y in s
  {
    var r := Insert(before, x, s);
    if s != [] {
      if before(s[0], x) {
        InsertIsStrict(before, x, s[1..]);
        forall j | 0 < j < |r| ensures before(s[0], r[j]) {
          assert r[j] in r[1..];
        }
      } else {
        forall j | 0 < j < |r| ensures before(x, r[j]) {
          assert r[j] == s[j - 1];
        }
      }
    }
  }

  /** Where no two positions hold the same key, the sort is strict. */
  lemma {:induction false} SortedIsStrict<T(!new)>(before: (T, T) -> bool, s: seq<T>)
    requires WeakOrder(before)
    requires forall i, j :: 0 <= i < j < |s| ==> before(s[i], s[j]) || before(s[j], s[i])
    ensures Strict(before, Sorted(before, s))
    ensures forall y :: y in Sorted(before, s) <==> y in s
  {
    if s != [] {
      SortedIsStrict(before, s[1..]);
      InsertIsStrict(before, s[0], Sorted(before, s[1..]));
      assert s == [s[0]] + s[1..];
    }
  }

  /** In a strictly ordered sequence the element at position i has i elements before it. */
  lemma {:induction false} PositionIsCount<T(!new)>(before: (T, T) -> bool, s: seq<T>, i: nat)
    requires WeakOrder(before) && i < |s| && Strict(before, s)
    ensures CountBefore(before, s[i], s) == i
  {
    assert s == [s[0]] + s[1..];
    if i == 0 {
      forall y | y in s ensures !before(y, s[0]) {
      }
      NoneBefore(before, s[0], s);
    } else {
      PositionIsCount(before, s[1..], i - 1);
    }
  }

  // ----- Sorting commutes with a map that keeps the keys -----

  function Mapped<T, U>(f: T -> U, s: seq<T>): (r: seq<U>)
    ensures |r| == |s| && forall i :: 0 <= i < |s| ==> r[i] == f(s[i])
  {
    if s == [] then [] else [f(s[0])] + Mapped(f, s[1..])
  }

  lemma {:induction false} InsertMapped<T(!new), U(!new)>(
    lt: (T, T) -> bool, lt': (U, U) -> bool, f: T -> U, x: T, s: seq<T>)
    requires forall y, z :: lt(y, z) == lt'(f(y), f(z))
    ensures Mapped(f, Insert(lt, x, s)) == Insert(lt', f(x), Mapped(f, s))
  {
    if s != [] && lt(s[0], x) {
      InsertMapped(lt, lt', f, x, s[1..]);
    }
  }

  lemma {:induction false} SortedMapped<T(!new), U(!new)>(
    lt: (T, T) -> bool, lt': (U, U) -> bool, f: T -> U, s: seq<T>)
    requires forall y, z :: lt(y, z) == lt'(f(y), f(z))
    ensures Mapped(f, Sorted(lt, s)) == Sorted(lt', Mapped(f, s))
  {
    if s != [] {
      SortedMapped(lt, lt', f, s[1..]);
      InsertMapped(lt, lt', f, s[0], Sorted(lt, s[1..]));
    }
  }
}
