/** The stable ascending sort by key that the program relies on everywhere it sorts. */
module Sorting {
  /** Puts x behind every element whose key is not larger. */
  function Insert<T>(s: seq<T>, x: T, key: T -> real): seq<T> {
    if s == [] || key(s[|s| - 1]) <= key(x) then s + [x]
    else Insert(s[..|s| - 1], x, key) + [s[|s| - 1]]
  }

  function SortBy<T>(s: seq<T>, key: T -> real): seq<T> {
    if s == [] then [] else Insert(SortBy(s[..|s| - 1], key), s[|s| - 1], key)
  }

  ghost predicate Ascending<T>(s: seq<T>, key: T -> real) {
    forall i, j | 0 <= i < j < |s| :: key(s[i]) <= key(s[j])
  }

  function CountIf<T>(s: seq<T>, p: T -> bool): nat {
    if s == [] then 0 else CountIf(s[..|s| - 1], p) + (if p(s[|s| - 1]) then 1 else 0)
  }

  lemma CountIfSnoc<T>(s: seq<T>, x: T, p: T -> bool)
    ensures CountIf(s + [x], p) == CountIf(s, p) + (if p(x) then 1 else 0)
  {
    assert (s + [x])[..|s|] == s;
  }

  lemma {:induction false} CountIfAppend<T>(s: seq<T>, t: seq<T>, p: T -> bool)
    ensures CountIf(s + t, p) == CountIf(s, p) + CountIf(t, p)
    decreases |t|
  {
    if t == [] {
      assert s + t == s;
    } else {
      var u := t[..|t| - 1];
      assert s + t == (s + u) + [t[|t| - 1]];
      CountIfSnoc(s + u, t[|t| - 1], p);
      CountIfAppend(s, u, p);
    }
  }

  lemma {:induction false} InsertBounded<T>(s: seq<T>, x: T, key: T -> real, bound: real)
    requires key(x) <= bound && forall i | 0 <= i < |s| :: key(s[i]) <= bound
    ensures forall i | 0 <= i < |Insert(s, x, key)| :: key(Insert(s, x, key)[i]) <= bound
  {
    if s == [] || key(s[|s| - 1]) <= key(x) {
    } else {
      InsertBounded(s[..|s| - 1], x, key, bound);
    }
  }

  lemma {:induction false} InsertAscends<T>(s: seq<T>, x: T, key: T -> real)
    requires Ascending(s, key)
    ensures Ascending(Insert(s, x, key), key)
  {
    if s == [] || key(s[|s| - 1]) <= key(x) {
    } else {
      InsertAscends(s[..|s| - 1], x, key);
      InsertBounded(s[..|s| - 1], x, key, key(s[|s| - 1]));
    }
  }

  lemma {:induction false} InsertElements<T>(s: seq<T>, x: T, key: T -> real)
    ensures multiset(Insert(s, x, key)) == multiset(s) + multiset{x}
  {
    if s == [] || key(s[|s| - 1]) <= key(x) {
    } else {
      InsertElements(s[..|s| - 1], x, key);
      assert s == s[..|s| - 1] + [s[|s| - 1]];
    }
  }

  lemma {:induction false} SortProperties<T>(s: seq<T>, key: T -> real)
    ensures Ascending(SortBy(s, key), key)
    ensures multiset(SortBy(s, key)) == multiset(s)
    ensures |SortBy(s, key)| == |s|
  {
    if s != [] {
      var t, x := s[..|s| - 1], s[|s| - 1];
      assert s == t + [x];
      SortProperties(t, key);
      InsertAscends(SortBy(t, key), x, key);
      InsertElements(SortBy(t, key), x, key);
      assert multiset(s) == multiset(t) + multiset{x};
    }
    assert |multiset(SortBy(s, key))| == |multiset(s)|;
  }

  lemma {:induction false} InsertCount<T>(s: seq<T>, x: T, key: T -> real, p: T -> bool)
    ensures CountIf(Insert(s, x, key), p) == CountIf(s, p) + (if p(x) then 1 else 0)
  {
    if s == [] || key(s[|s| - 1]) <= key(x) {
      CountIfSnoc(s, x, p);
    } else {
      InsertCount(s[..|s| - 1], x, key, p);
      CountIfSnoc(Insert(s[..|s| - 1], x, key), s[|s| - 1], p);
    }
  }

  /** Sorting keeps the number of elements with any property. */
  lemma {:induction false} SortCount<T>(s: seq<T>, key: T -> real, p: T -> bool)
    ensures CountIf(SortBy(s, key), p) == CountIf(s, p)
  {
    if s != [] {
      SortCount(s[..|s| - 1], key, p);
      InsertCount(SortBy(s[..|s| - 1], key), s[|s| - 1], key, p);
    }
  }

  /** The sum of a figure over a sequence. */
  function Total<T>(s: seq<T>, f: T -> real): real {
    if s == [] then 0.0 else Total(s[..|s| - 1], f) + f(s[|s| - 1])
  }

  lemma TotalSnoc<T>(s: seq<T>, x: T, f: T -> real)
    ensures Total(s + [x], f) == Total(s, f) + f(x)
  {
    assert (s + [x])[..|s|] == s;
  }

  lemma {:induction false} InsertTotal<T>(s: seq<T>, x: T, key: T -> real, f: T -> real)
    ensures Total(Insert(s, x, key), f) == Total(s, f) + f(x)
  {
    if s == [] || key(s[|s| - 1]) <= key(x) {
      TotalSnoc(s, x, f);
    } else {
      InsertTotal(s[..|s| - 1], x, key, f);
      TotalSnoc(Insert(s[..|s| - 1], x, key), s[|s| - 1], f);
    }
  }

  /** Sorting keeps the sum of any figure. */
  lemma {:induction false} SortTotal<T>(s: seq<T>, key: T -> real, f: T -> real)
    ensures Total(SortBy(s, key), f) == Total(s, f)
  {
    if s != [] {
      SortTotal(s[..|s| - 1], key, f);
      InsertTotal(SortBy(s[..|s| - 1], key), s[|s| - 1], key, f);
    }
  }

  /** Elements in the order the sort leaves them are left alone. */
  lemma {:induction false} SortIdentity<T>(s: seq<T>, key: T -> real)
    requires Ascending(s, key)
    ensures SortBy(s, key) == s
  {
    if s != [] {
      SortIdentity(s[..|s| - 1], key);
    }
  }

  function Keep<T>(s: seq<T>, p: T -> bool): seq<T> {
    if s == [] then [] else Keep(s[..|s| - 1], p) + if p(s[|s| - 1]) then [s[|s| - 1]] else []
  }

  function HasKey<T>(key: T -> real, v: real): T -> bool {
    x => key(x) == v
  }

  lemma KeepSnoc<T>(s: seq<T>, x: T, p: T -> bool)
    ensures Keep(s + [x], p) == Keep(s, p) + if p(x) then [x] else []
  {
    assert (s + [x])[..|s|] == s;
  }

  lemma {:induction false} InsertStable<T>(s: seq<T>, x: T, key: T -> real, v: real)
    ensures Keep(Insert(s, x, key), HasKey(key, v)) == Keep(s, HasKey(key, v)) + if key(x) == v then [x] else []
  {
    if s == [] || key(s[|s| - 1]) <= key(x) {
      KeepSnoc(s, x, HasKey(key, v));
    } else {
      InsertStable(s[..|s| - 1], x, key, v);
      KeepSnoc(Insert(s[..|s| - 1], x, key), s[|s| - 1], HasKey(key, v));
    }
  }

  /** Elements with equal keys keep their order. */
  lemma {:induction false} SortStable<T>(s: seq<T>, key: T -> real, v: real)
    ensures Keep(SortBy(s, key), HasKey(key, v)) == Keep(s, HasKey(key, v))
  {
    if s != [] {
      SortStable(s[..|s| - 1], key, v);
      InsertStable(SortBy(s[..|s| - 1], key), s[|s| - 1], key, v);
    }
  }
}
