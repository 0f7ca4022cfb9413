/** Ordering on both sides of the data: JavaScript's stable `Array.prototype.sort` with a comparator, as the
    pages call it on a copy of their lists, and Python's `sorted(set(...))` of strings, as the exporters call
    it to build comma-separated value lists. */
module Sorting {

  // ---------------------------------------------------------------- comparators

  /** A comparator returns a number whose sign orders its arguments, as `Array.prototype.sort` expects. */
  type Comparator<!T> = (T, T) -> real

  /** The comparator orders consistently: swapping the arguments swaps the sign, and "not after" is
      transitive. `Array.prototype.sort` promises nothing for comparators that break this. */
  ghost predicate IsConsistent<T(!new)>(cmp: Comparator<T>) {
    (forall a, b :: cmp(a, b) < 0.0 <==> cmp(b, a) > 0.0)
    && (forall a, b, c :: cmp(a, b) <= 0.0 && cmp(b, c) <= 0.0 ==> cmp(a, c) <= 0.0)
  }

  /** `isAscending ? comparison : -comparison`. */
  function Directed<T>(ascending: bool, cmp: Comparator<T>): Comparator<T> {
    if ascending then cmp else (a: T, b: T) => -cmp(a, b)
  }

  /** Negating a consistent comparator gives a consistent comparator with the same ties. */
  lemma DirectedConsistent<T(!new)>(ascending: bool, cmp: Comparator<T>)
    requires IsConsistent(cmp)
    ensures IsConsistent(Directed(ascending, cmp))
    ensures forall a, b :: Directed(ascending, cmp)(a, b) == 0.0 <==> cmp(a, b) == 0.0
  {
    var d := Directed(ascending, cmp);
    if !ascending {
      forall a, b, c | d(a, b) <= 0.0 && d(b, c) <= 0.0 ensures d(a, c) <= 0.0 {
        assert cmp(b, a) <= 0.0 && cmp(c, b) <= 0.0;
      }
    }
  }

  /** `keyA - keyB`: the comparator of a numeric sort key. */
  function ByKey<T>(key: T -> real): Comparator<T> {
    (a: T, b: T) => key(a) - key(b)
  }

  lemma ByKeyConsistent<T(!new)>(key: T -> real)
    ensures IsConsistent(ByKey(key))
  {
  }

  // ---------------------------------------------------------------- stable sort

  /** Inserts `x` after every element that does not compare greater than it. */
  function Insert<T>(x: T, t: seq<T>, cmp: Comparator<T>): (r: seq<T>)
    ensures multiset(r) == multiset(t) + multiset{x}
    ensures |r| == |t| + 1
  {
    if t == [] then [x]
    else if cmp(x, t[0]) < 0.0 then [x] + t
    else
      assert t == [t[0]] + t[1..];
      [t[0]] + Insert(x, t[1..], cmp)
  }

  /** The stable sort of `s` by `cmp` (insertion of each element in turn). */
  function SortBy<T>(s: seq<T>, cmp: Comparator<T>): (r: seq<T>)
    ensures multiset(r) == multiset(s)
    ensures |r| == |s|
  {
    if s == [] then []
    else
      assert s == s[..|s| - 1] + [s[|s| - 1]];
      Insert(s[|s| - 1], SortBy(s[..|s| - 1], cmp), cmp)
  }

  ghost predicate Sorted<T>(t: seq<T>, cmp: Comparator<T>) {
    forall i, j :: 0 <= i < j < |t| ==> cmp(t[i], t[j]) <= 0.0
  }

  lemma {:induction false} InsertSorted<T(!new)>(x: T, t: seq<T>, cmp: Comparator<T>)
    requires IsConsistent(cmp) && Sorted(t, cmp)
    ensures Sorted(Insert(x, t, cmp), cmp)
    decreases |t|
  {
    if t != [] && cmp(x, t[0]) >= 0.0 {
      InsertSorted(x, t[1..], cmp);
      var r := Insert(x, t, cmp);
      var rest := Insert(x, t[1..], cmp);
      assert r == [t[0]] + rest;
      forall j | 1 <= j < |r| ensures cmp(t[0], r[j]) <= 0.0 {
        assert r[j] in multiset(rest);
        assert r[j] == x || r[j] in t[1..] by {
          assert r[j] in multiset(t[1..]) + multiset{x};
        }
      }
    }
  }

  /** `SortBy` orders its result by the comparator. */
  lemma {:induction false} SortBySorted<T(!new)>(s: seq<T>, cmp: Comparator<T>)
    requires IsConsistent(cmp)
    ensures Sorted(SortBy(s, cmp), cmp)
    decreases |s|
  {
    if s != [] {
      SortBySorted(s[..|s| - 1], cmp);
      InsertSorted(s[|s| - 1], SortBy(s[..|s| - 1], cmp), cmp);
    }
  }

  /** The elements of `t` that tie with `p`, in order. */
  function Ties<T>(t: seq<T>, p: T, cmp: Comparator<T>): (r: seq<T>)
    ensures |r| <= |t|
  {
    if t == [] then []
    else (if cmp(t[0], p) == 0.0 then [t[0]] else []) + Ties(t[1..], p, cmp)
  }

  lemma {:induction false} TiesAppend<T>(a: seq<T>, b: seq<T>, p: T, cmp: Comparator<T>)
    ensures Ties(a + b, p, cmp) == Ties(a, p, cmp) + Ties(b, p, cmp)
    decreases |a|
  {
    if a != [] {
      assert (a + b)[1..] == a[1..] + b;
      TiesAppend(a[1..], b, p, cmp);
    } else {
      assert a + b == b;
    }
  }

  lemma {:induction false} NoTies<T>(t: seq<T>, p: T, cmp: Comparator<T>)
    requires forall e :: e in t ==> cmp(e, p) != 0.0
    ensures Ties(t, p, cmp) == []
    decreases |t|
  {
    if t != [] {
      NoTies(t[1..], p, cmp);
    }
  }

  /** In a sorted list, everything after an element greater than `x` is greater than `x` too. */
  lemma AllAfter<T(!new)>(x: T, t: seq<T>, cmp: Comparator<T>)
    requires IsConsistent(cmp) && Sorted(t, cmp)
    requires t != [] && cmp(x, t[0]) < 0.0
    ensures forall e :: e in t ==> cmp(x, e) < 0.0
  {
    forall e | e in t ensures cmp(x, e) < 0.0 {
      var k :| 0 <= k < |t| && t[k] == e;
      assert cmp(t[0], e) <= 0.0;
    }
  }

  lemma InsertTiesFront<T(!new)>(x: T, t: seq<T>, p: T, cmp: Comparator<T>)
    requires IsConsistent(cmp) && Sorted(t, cmp)
    requires t != [] && cmp(x, t[0]) < 0.0
    ensures Ties([x] + t, p, cmp) == Ties(t, p, cmp) + Ties([x], p, cmp)
  {
    TiesAppend([x], t, p, cmp);
    AllAfter(x, t, cmp);
    if cmp(x, p) == 0.0 {
      assert forall e :: e in t ==> cmp(e, p) != 0.0;
      NoTies(t, p, cmp);
    }
  }

  lemma {:induction false} InsertTies<T(!new)>(x: T, t: seq<T>, p: T, cmp: Comparator<T>)
    requires IsConsistent(cmp) && Sorted(t, cmp)
    ensures Ties(Insert(x, t, cmp), p, cmp) == Ties(t, p, cmp) + Ties([x], p, cmp)
    decreases |t|
  {
    if t == [] {
    } else if cmp(x, t[0]) < 0.0 {
      InsertTiesFront(x, t, p, cmp);
    } else {
      SortedTail(t, cmp);
      InsertTies(x, t[1..], p, cmp);
      InsertTiesBehind(x, t, p, cmp);
    }
  }

  lemma SortedTail<T>(t: seq<T>, cmp: Comparator<T>)
    requires Sorted(t, cmp) && t != []
    ensures Sorted(t[1..], cmp)
  {
    forall i, j | 0 <= i < j < |t| - 1 ensures cmp(t[1..][i], t[1..][j]) <= 0.0 {
      assert t[1..][i] == t[i + 1] && t[1..][j] == t[j + 1];
    }
  }

  /** Inserting behind the first element keeps it first, in front of the ties of the rest. */
  lemma InsertTiesBehind<T>(x: T, t: seq<T>, p: T, cmp: Comparator<T>)
    requires t != [] && cmp(x, t[0]) >= 0.0
    requires Ties(Insert(x, t[1..], cmp), p, cmp) == Ties(t[1..], p, cmp) + Ties([x], p, cmp)
    ensures Ties(Insert(x, t, cmp), p, cmp) == Ties(t, p, cmp) + Ties([x], p, cmp)
  {
    TiesCons(t[0], t[1..], Insert(x, t[1..], cmp), Ties([x], p, cmp), p, cmp);
    assert t == [t[0]] + t[1..];
  }

  lemma TiesHead<T>(y: T, rest: seq<T>, p: T, cmp: Comparator<T>)
    ensures Ties([y] + rest, p, cmp) == (if cmp(y, p) == 0.0 then [y] else []) + Ties(rest, p, cmp)
  {
    assert ([y] + rest)[1..] == rest;
  }

  lemma AppendAssoc<T>(a: seq<T>, b: seq<T>, c: seq<T>)
    ensures a + (b + c) == (a + b) + c
  {
  }

  /** Putting the same element in front of two lists keeps the difference of their ties. */
  lemma TiesCons<T>(y: T, tail: seq<T>, rest: seq<T>, extra: seq<T>, p: T, cmp: Comparator<T>)
    requires Ties(rest, p, cmp) == Ties(tail, p, cmp) + extra
    ensures Ties([y] + rest, p, cmp) == Ties([y] + tail, p, cmp) + extra
  {
    TiesHead(y, rest, p, cmp);
    TiesHead(y, tail, p, cmp);
    AppendAssoc(if cmp(y, p) == 0.0 then [y] else [], Ties(tail, p, cmp), extra);
  }

  /** `SortBy` is stable: the elements that tie with any `p` keep their order from `s`. */
  lemma {:induction false} SortByStable<T(!new)>(s: seq<T>, p: T, cmp: Comparator<T>)
    requires IsConsistent(cmp)
    ensures Ties(SortBy(s, cmp), p, cmp) == Ties(s, p, cmp)
    decreases |s|
  {
    if s != [] {
      var init := s[..|s| - 1];
      SortByStable(init, p, cmp);
      SortBySorted(init, cmp);
      InsertTies(s[|s| - 1], SortBy(init, cmp), p, cmp);
      TiesSnoc(init, s[|s| - 1], SortBy(init, cmp), Insert(s[|s| - 1], SortBy(init, cmp), cmp), p, cmp);
      InitLast(s);
    }
  }

  lemma InitLast<T>(s: seq<T>)
    requires s != []
    ensures s == s[..|s| - 1] + [s[|s| - 1]]
  {
  }

  /** Ties of `init + [last]`, when `inserted` has those of `init` followed by `last`'s. */
  lemma TiesSnoc<T>(init: seq<T>, last: T, sorted: seq<T>, inserted: seq<T>, p: T, cmp: Comparator<T>)
    requires Ties(sorted, p, cmp) == Ties(init, p, cmp)
    requires Ties(inserted, p, cmp) == Ties(sorted, p, cmp) + Ties([last], p, cmp)
    ensures Ties(inserted, p, cmp) == Ties(init + [last], p, cmp)
  {
    TiesAppend(init, [last], p, cmp);
  }

  // ---------------------------------------------------------------- Python's sorted(set(...)) of strings

  /** Python's `<` on strings: lexicographic by code point, a proper prefix first. */
  predicate StrLess(a: string, b: string) {
    if a == [] then b != []
    else if b == [] then false
    else if a[0] != b[0] then a[0] < b[0]
    else StrLess(a[1..], b[1..])
  }

  lemma {:induction false} StrLessIrreflexive(a: string)
    ensures !StrLess(a, a)
  {
    if a != [] {
      StrLessIrreflexive(a[1..]);
    }
  }

  lemma {:induction false} StrLessTransitive(a: string, b: string, c: string)
    requires StrLess(a, b) && StrLess(b, c)
    ensures StrLess(a, c)
  {
    if a != [] && b != [] && c != [] && a[0] == b[0] && b[0] == c[0] {
      StrLessTransitive(a[1..], b[1..], c[1..]);
    }
  }

  lemma {:induction false} StrLessTotal(a: string, b: string)
    ensures a == b || StrLess(a, b) || StrLess(b, a)
  {
    if a != [] && b != [] && a[0] == b[0] {
      StrLessTotal(a[1..], b[1..]);
      if a[1..] == b[1..] {
        assert a == [a[0]] + a[1..] && b == [b[0]] + b[1..];
      }
    }
  }

  lemma {:induction false} StrLessAsymmetric(a: string, b: string)
    ensures !(StrLess(a, b) && StrLess(b, a))
  {
    if a != [] && b != [] && a[0] == b[0] {
      StrLessAsymmetric(a[1..], b[1..]);
    }
  }

  /** The set of values in a list. */
  function Elements<T>(t: seq<T>): set<T> {
    set e | e in t
  }

  predicate StrictlySorted(t: seq<string>) {
    forall i, j :: 0 <= i < j < |t| ==> StrLess(t[i], t[j])
  }

  /** Adds `x` to a strictly sorted list of distinct strings. */
  function InsertUnique(x: string, t: seq<string>): (r: seq<string>)
    requires StrictlySorted(t)
    ensures StrictlySorted(r)
    ensures Elements(r) == Elements(t) + {x}
  {
    if t == [] then [x]
    else if x == t[0] then
      assert x in Elements(t);
      t
    else if StrLess(x, t[0]) then
      InsertBefore(x, t);
      [x] + t
    else
      var rest := InsertUnique(x, t[1..]);
      InsertBehind(x, t, rest);
      [t[0]] + rest
  }

  lemma InsertBefore(x: string, t: seq<string>)
    requires StrictlySorted(t) && t != [] && StrLess(x, t[0])
    ensures StrictlySorted([x] + t) && Elements([x] + t) == Elements(t) + {x}
  {
    forall j | 0 < j < |t| ensures StrLess(x, t[j]) {
      StrLessTransitive(x, t[0], t[j]);
    }
  }

  lemma InsertBehind(x: string, t: seq<string>, rest: seq<string>)
    requires StrictlySorted(t) && t != [] && x != t[0] && !StrLess(x, t[0])
    requires StrictlySorted(rest) && Elements(rest) == Elements(t[1..]) + {x}
    ensures StrictlySorted([t[0]] + rest) && Elements([t[0]] + rest) == Elements(t) + {x}
  {
    StrLessTotal(x, t[0]);
    var r := [t[0]] + rest;
    forall j | 1 <= j < |r| ensures StrLess(t[0], r[j]) {
      assert r[j] == rest[j - 1] && rest[j - 1] in Elements(rest);
      if r[j] != x {
        var k :| 0 <= k < |t[1..]| && t[1..][k] == r[j];
        assert t[k + 1] == r[j];
      }
    }
    assert t == [t[0]] + t[1..];
    ElementsCons(t[0], t[1..]);
    ElementsCons(t[0], rest);
  }

  lemma ElementsCons<T>(h: T, t: seq<T>)
    ensures Elements([h] + t) == {h} + Elements(t)
  {
    assert forall e :: e in [h] + t <==> e == h || e in t;
  }

  /** `sorted(set(values))`: the distinct values in increasing order. */
  function SortedUnique(values: seq<string>): (r: seq<string>)
    ensures StrictlySorted(r)
    ensures Elements(r) == Elements(values)
  {
    if values == [] then []
    else
      var init := values[..|values| - 1];
      assert values == init + [values[|values| - 1]];
      InsertUnique(values[|values| - 1], SortedUnique(init))
  }

  /** A strictly sorted list is determined by its elements. */
  lemma {:induction false} StrictlySortedUnique(a: seq<string>, b: seq<string>)
    requires StrictlySorted(a) && StrictlySorted(b)
    requires Elements(a) == Elements(b)
    ensures a == b
    decreases |a|
  {
    if a != [] || b != [] {
      assert a != [] && b != [] by {
        if a != [] { assert a[0] in Elements(b); }
        if b != [] { assert b[0] in Elements(a); }
      }
      assert a[0] in Elements(b) && b[0] in Elements(a);
      var i :| 0 <= i < |b| && b[i] == a[0];
      var j :| 0 <= j < |a| && a[j] == b[0];
      StrLessAsymmetric(a[0], b[0]);
      assert a[0] == b[0];
      StrLessIrreflexive(a[0]);
      forall e | e in Elements(a[1..]) ensures e in Elements(b[1..]) {
        var k :| 1 <= k < |a| && a[k] == e;
        assert e in Elements(b);
        var m :| 0 <= m < |b| && b[m] == e;
        assert b[1..][m - 1] == e;
      }
      forall e | e in Elements(b[1..]) ensures e in Elements(a[1..]) {
        var k :| 1 <= k < |b| && b[k] == e;
        assert e in Elements(a);
        var m :| 0 <= m < |a| && a[m] == e;
        assert a[1..][m - 1] == e;
      }
      StrictlySortedUnique(a[1..], b[1..]);
      assert a == [a[0]] + a[1..] && b == [b[0]] + b[1..];
    }
  }

  /** `sorted(set(values))` depends only on which values occur, not on their order or multiplicity. */
  lemma SortedUniqueBySet(u: seq<string>, v: seq<string>)
    requires Elements(u) == Elements(v)
    ensures SortedUnique(u) == SortedUnique(v)
  {
    StrictlySortedUnique(SortedUnique(u), SortedUnique(v));
  }
}
