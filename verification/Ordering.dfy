/** The orders and sorts the writer relies on: Go's `<` on strings, its `sort` package seen only
    through "some sorted permutation", and the one strictly sorted sequence of a finite set.
 */
module Ordering {

  /** A strict order in which any two distinct values are comparable. */
  ghost predicate StrictTotal<T(!new)>(less: (T, T) -> bool) {
    && (forall x :: !less(x, x))
    && (forall x, y, z :: less(x, y) && less(y, z) ==> less(x, z))
    && (forall x, y :: x != y ==> less(x, y) || less(y, x))
  }

  /** What `sort.Slice` needs of its comparison: ties are allowed. */
  ghost predicate StrictWeak<T(!new)>(less: (T, T) -> bool) {
    && (forall x, y :: less(x, y) ==> !less(y, x))
    && (forall x, y, z :: less(x, y) && less(y, z) ==> less(x, z))
    && (forall x, y, z :: !less(x, y) && !less(y, z) ==> !less(x, z))
  }

  ghost predicate Sorted<T>(less: (T, T) -> bool, s: seq<T>) {
    forall i, j :: 0 <= i < j < |s| ==> !less(s[j], s[i])
  }

  ghost predicate StrictlySorted<T>(less: (T, T) -> bool, s: seq<T>) {
    forall i, j :: 0 <= i < j < |s| ==> less(s[i], s[j])
  }

  function Elems<T>(s: seq<T>): set<T> { set x | x in s }

  ghost predicate Distinct<T>(s: seq<T>) { forall i, j :: 0 <= i < j < |s| ==> s[i] != s[j] }

  lemma {:induction false} SubsetSize<T>(a: set<T>, b: set<T>)
    requires a <= b
    ensures |a| <= |b|
  {
    if a != {} {
      var x :| x in a;
      SubsetSize(a - {x}, b - {x});
    }
  }

  predicate StringLess(a: string, b: string)
    decreases |a|
  {
    b != "" && (a == "" || a[0] < b[0] || (a[0] == b[0] && StringLess(a[1..], b[1..])))
  }

  lemma {:induction false} StringTrichotomy(a: string, b: string)
    ensures a == b || StringLess(a, b) || StringLess(b, a)
    ensures !(StringLess(a, b) && StringLess(b, a))
    ensures !StringLess(a, a)
    decreases |a|
  {
    if a != "" {
      if b != "" && a[0] == b[0] {
        StringTrichotomy(a[1..], b[1..]);
        assert a == [a[0]] + a[1..] && b == [b[0]] + b[1..];
      } else {
        StringTrichotomy(a[1..], a[1..]);
      }
    }
  }

  lemma {:induction false} StringTransitive(a: string, b: string, c: string)
    requires StringLess(a, b) && StringLess(b, c)
    ensures StringLess(a, c)
    decreases |a|
  {
    if a != "" && a[0] == b[0] == c[0] {
      StringTransitive(a[1..], b[1..], c[1..]);
    }
  }

  lemma StringOrder()
    ensures StrictTotal(StringLess)
  {
    forall x, y ensures !StringLess(x, x) && (x != y ==> StringLess(x, y) || StringLess(y, x)) {
      StringTrichotomy(x, y);
    }
    forall x, y, z | StringLess(x, y) && StringLess(y, z) ensures StringLess(x, z) {
      StringTransitive(x, y, z);
    }
  }

  lemma TotalIsWeak<T(!new)>(less: (T, T) -> bool)
    requires StrictTotal(less)
    ensures StrictWeak(less)
  {
    forall x, y | less(x, y) ensures !less(y, x) {
      assert less(y, x) ==> less(x, x);
    }
    forall x, y, z | !less(x, y) && !less(y, z) ensures !less(x, z) {
      assert x != y ==> less(y, x);
      assert y != z ==> less(z, y);
    }
  }

  ghost predicate IsMinimum<T>(less: (T, T) -> bool, s: set<T>, m: T) {
    m in s && forall y :: y in s ==> y == m || less(m, y)
  }

  lemma {:induction false} MinimumExists<T(!new)>(less: (T, T) -> bool, s: set<T>)
    requires StrictTotal(less) && s != {}
    ensures exists m :: IsMinimum(less, s, m)
  {
    var x :| x in s;
    if s == {x} {
      assert IsMinimum(less, s, x);
    } else {
      assert s == {x} + (s - {x});
      MinimumExists(less, s - {x});
      var m :| IsMinimum(less, s - {x}, m);
      var n := if less(x, m) then x else m;
      forall y | y in s ensures y == n || less(n, y) {
        assert y != x ==> y in s - {x};
      }
      assert IsMinimum(less, s, n);
    }
  }

  /** The only strictly sorted listing of a finite set (see SortedUnique). */
  ghost function SortSet<T(!new)>(less: (T, T) -> bool, s: set<T>): seq<T>
    requires StrictTotal(less)
  {
    if s == {} then []
    else
      MinimumExists(less, s);
      var m :| IsMinimum(less, s, m);
      [m] + SortSet(less, s - {m})
  }

  lemma {:induction false} SortSetSorts<T(!new)>(less: (T, T) -> bool, s: set<T>)
    requires StrictTotal(less)
    ensures StrictlySorted(less, SortSet(less, s))
    ensures forall x :: x in SortSet(less, s) <==> x in s
    ensures |SortSet(less, s)| == |s|
  {
    var r := SortSet(less, s);
    if s != {} {
      MinimumExists(less, s);
      SortSetSorts(less, s - {r[0]});
    }
  }

  lemma {:induction false} SortedUnique<T(!new)>(less: (T, T) -> bool, a: seq<T>, b: seq<T>)
    requires StrictTotal(less)
    requires StrictlySorted(less, a) && StrictlySorted(less, b)
    requires forall x :: x in a <==> x in b
    ensures a == b
  {
    assert a != [] ==> a[0] in b;
    assert b != [] ==> b[0] in a;
    if a != [] {
      assert a[0] in b && b[0] in a;
      assert a[0] == b[0];
      forall x ensures x in a[1..] <==> x in b[1..] {
        if x in a[1..] { assert less(a[0], x); assert x in a; }
        if x in b[1..] { assert less(b[0], x); assert x in b; }
      }
      SortedUnique(less, a[1..], b[1..]);
      assert a == [a[0]] + a[1..] && b == [b[0]] + b[1..];
    }
  }

  lemma SortedIsSortSet<T(!new)>(less: (T, T) -> bool, a: seq<T>)
    requires StrictTotal(less) && StrictlySorted(less, a)
    ensures a == SortSet(less, Elems(a))
  {
    SortSetSorts(less, Elems(a));
    SortedUnique(less, a, SortSet(less, Elems(a)));
  }

  ghost function InsertInto<T>(less: (T, T) -> bool, x: T, s: seq<T>): seq<T> {
    if s == [] || less(x, s[0]) then [x] + s else [s[0]] + InsertInto(less, x, s[1..])
  }

  /** The sorted listing of a sequence, repetitions kept. */
  ghost function SortSeq<T>(less: (T, T) -> bool, s: seq<T>): seq<T> {
    if s == [] then [] else InsertInto(less, s[0], SortSeq(less, s[1..]))
  }

  lemma {:induction false} InsertIntoSorts<T(!new)>(less: (T, T) -> bool, x: T, s: seq<T>)
    requires StrictTotal(less) && Sorted(less, s)
    ensures Sorted(less, InsertInto(less, x, s))
    ensures multiset(InsertInto(less, x, s)) == multiset(s) + multiset{x}
    ensures forall y :: y in InsertInto(less, x, s) ==> y == x || y in s
  {
    TotalIsWeak(less);
    if s != [] && !less(x, s[0]) {
      InsertIntoSorts(less, x, s[1..]);
      assert s == [s[0]] + s[1..];
      var r := InsertInto(less, x, s[1..]);
      forall j | 0 <= j < |r| ensures !less(r[j], s[0]) {
        assert r[j] in r;
      }
    } else {
      forall j | 0 <= j < |s| ensures !less(s[j], x) {
        assert less(x, s[0]);
      }
    }
  }

  lemma {:induction false} SortSeqSorts<T(!new)>(less: (T, T) -> bool, s: seq<T>)
    requires StrictTotal(less)
    ensures Sorted(less, SortSeq(less, s))
    ensures multiset(SortSeq(less, s)) == multiset(s)
  {
    if s != [] {
      SortSeqSorts(less, s[1..]);
      InsertIntoSorts(less, s[0], SortSeq(less, s[1..]));
      assert s == [s[0]] + s[1..];
    }
  }

  /** Under a total order a sorted permutation is unique, so every sort gives `SortSeq`. */
  lemma {:induction false} SortedPermutationUnique<T(!new)>(less: (T, T) -> bool, a: seq<T>, b: seq<T>)
    requires StrictTotal(less)
    requires Sorted(less, a) && Sorted(less, b) && multiset(a) == multiset(b)
    ensures a == b
  {
    hide StrictTotal;
    SameElements(a, b);
    if a != [] {
      SameHead(less, a, b);
      TailElements(a);
      TailElements(b);
      SortedPermutationUnique(less, a[1..], b[1..]);
      assert a == [a[0]] + a[1..] && b == [b[0]] + b[1..];
    }
  }

  lemma TailElements<T>(a: seq<T>)
    requires a != []
    ensures multiset(a[1..]) == multiset(a) - multiset{a[0]}
  {
    assert a == [a[0]] + a[1..];
  }

  lemma SameHead<T(!new)>(less: (T, T) -> bool, a: seq<T>, b: seq<T>)
    requires StrictTotal(less) && a != [] && b != []
    requires Sorted(less, a) && Sorted(less, b) && forall x :: x in a <==> x in b
    ensures a[0] == b[0]
  {
    assert a[0] in b && b[0] in a;
    var i :| 0 <= i < |b| && b[i] == a[0];
    var j :| 0 <= j < |a| && a[j] == b[0];
    assert i != 0 ==> !less(b[i], b[0]);
    assert j != 0 ==> !less(a[j], a[0]);
  }

  lemma SortSeqIs<T(!new)>(less: (T, T) -> bool, s: seq<T>, sorted: seq<T>)
    requires StrictTotal(less) && Sorted(less, sorted) && multiset(s) == multiset(sorted)
    ensures SortSeq(less, s) == sorted
  {
    SortSeqSorts(less, s);
    SortedPermutationUnique(less, SortSeq(less, s), sorted);
  }

  method Insert<T(!new)>(less: (T, T) -> bool, x: T, s: seq<T>) returns (r: seq<T>)
    requires StrictWeak(less) && Sorted(less, s)
    ensures Sorted(less, r)
    ensures multiset(r) == multiset(s) + multiset{x}
  {
    var i := 0;
    while i < |s| && !less(x, s[i])
      invariant 0 <= i <= |s|
      invariant forall j :: 0 <= j < i ==> !less(x, s[j])
    {
      i := i + 1;
    }
    r := s[..i] + [x] + s[i..];
    assert s == s[..i] + s[i..];
    forall j | i <= j < |s| ensures !less(s[j], x) {
      assert less(x, s[i]) && !less(s[i], x);
    }
  }

  /** `sort.Slice` / `sort.Strings`: callers learn only that the result is a sorted permutation. */
  method Sort<T(!new)>(less: (T, T) -> bool, values: seq<T>) returns (r: seq<T>)
    requires StrictWeak(less)
    ensures Sorted(less, r)
    ensures multiset(r) == multiset(values)
    ensures forall x :: x in r <==> x in values
    ensures |r| == |values|
  {
    r := [];
    for i := 0 to |values|
      invariant Sorted(less, r)
      invariant multiset(r) == multiset(values[..i])
    {
      r := Insert(less, values[i], r);
      assert values[..i + 1] == values[..i] + [values[i]];
    }
    assert values[..|values|] == values;
    SameElements(r, values);
  }

  lemma SameElements<T>(a: seq<T>, b: seq<T>)
    requires multiset(a) == multiset(b)
    ensures forall x :: x in a <==> x in b
    ensures |a| == |b|
  {
    assert forall x :: x in a <==> x in multiset(a);
    assert forall x :: x in b <==> x in multiset(b);
    assert |multiset(a)| == |a| && |multiset(b)| == |b|;
  }

  /** `compact`: keeps the first of each run of equal neighbours, so that of a sorted list nothing repeats. */
  method Compact<T(==, !new)>(ghost less: (T, T) -> bool, values: seq<T>) returns (out: seq<T>)
    ensures forall x :: x in out <==> x in values
    ensures forall i :: 0 <= i < |out| - 1 ==> out[i] != out[i + 1]
    ensures StrictTotal(less) && Sorted(less, values) ==> StrictlySorted(less, out)
  {
    if |values| == 0 {
      return values;
    }
    out := values[..1];
    for i := 1 to |values|
      invariant out != [] && out[|out| - 1] == values[i - 1]
      invariant StrictTotal(less) && Sorted(less, values) ==> StrictlySorted(less, out)
      invariant forall j :: 0 <= j < |out| - 1 ==> out[j] != out[j + 1]
      invariant forall x :: x in out <==> x in values[..i]
    {
      assert values[..i + 1] == values[..i] + [values[i]];
      if values[i] != out[|out| - 1] {
        if StrictTotal(less) && Sorted(less, values) {
          forall j | 0 <= j < |out| ensures less(out[j], values[i]) {
            assert out[|out| - 1] == values[i - 1];
            assert less(values[i - 1], values[i]);
          }
        }
        out := out + [values[i]];
      }
    }
    assert values[..|values|] == values;
  }

  /** Sorting and compacting a list of strings lists its element set in order. */
  method SortedUniqueStrings(values: seq<string>) returns (r: seq<string>)
    ensures StrictTotal(StringLess)
    ensures r == SortSet(StringLess, Elems(values))
  {
    StringOrder();
    TotalIsWeak(StringLess);
    r := Sort(StringLess, values);
    r := Compact(StringLess, r);
    SortSetSorts(StringLess, Elems(values));
    SortedUnique(StringLess, r, SortSet(StringLess, Elems(values)));
  }

  /** The sorted listing of a set of strings. */
  ghost function SortedStrings(s: set<string>): seq<string> {
    StringOrder();
    SortSet(StringLess, s)
  }

  lemma SortedStringsLists(s: set<string>)
    ensures StrictlySorted(StringLess, SortedStrings(s))
    ensures forall x :: x in SortedStrings(s) <==> x in s
    ensures Elems(SortedStrings(s)) == s
    ensures SortedStrings(s) == [] <==> s == {}
    ensures forall i, j :: 0 <= i < j < |SortedStrings(s)| ==> SortedStrings(s)[i] != SortedStrings(s)[j]
  {
    StringOrder();
    SortSetSorts(StringLess, s);
  }

  /** The elements of a set, in the arbitrary order a Go map is walked in. */
  method ListSet<T(==)>(values: set<T>) returns (r: seq<T>)
    ensures Elems(r) == values
  {
    r := [];
    var todo := values;
    while todo != {}
      invariant todo <= values && Elems(r) == values - todo
      decreases todo
    {
      var x :| x in todo;
      todo := todo - {x};
      ghost var before := r;
      r := r + [x];
      assert Elems(r) == Elems(before) + {x};
    }
  }

  /** `stringSet`: lists a set, met in any order, sorted. */
  method StringSet(values: set<string>) returns (r: seq<string>)
    ensures r == SortedStrings(values)
  {
    var list := ListSet(values);
    r := SortedUniqueStrings(list);
  }

  lemma {:induction false} ListedOnce<T, K>(key: T -> K, a: seq<T>, x: T)
    requires forall i, j :: 0 <= i < j < |a| ==> key(a[i]) != key(a[j])
    ensures multiset(a)[x] <= 1
  {
    if a != [] {
      var n := |a| - 1;
      assert a == a[..n] + [a[n]];
      ListedOnce(key, a[..n], x);
      if a[n] == x {
        forall i | 0 <= i < n ensures a[..n][i] != x { assert key(a[i]) != key(a[n]); }
        assert x !in a[..n];
        assert multiset(a[..n])[x] == 0;
      }
    }
  }

  /** Distinct keys stay distinct in any order. */
  lemma PermutationDistinct<T, K>(key: T -> K, a: seq<T>, b: seq<T>)
    requires multiset(a) == multiset(b)
    requires forall i, j :: 0 <= i < j < |a| ==> key(a[i]) != key(a[j])
    ensures forall i, j :: 0 <= i < j < |b| ==> key(b[i]) != key(b[j])
  {
    SameElements(a, b);
    forall i, j | 0 <= i < j < |b| ensures key(b[i]) != key(b[j]) {
      assert b[i] in a && b[j] in a;
      if key(b[i]) == key(b[j]) {
        var p :| 0 <= p < |a| && a[p] == b[i];
        var q :| 0 <= q < |a| && a[q] == b[j];
        assert p == q;
        ListedTwice(b, i, j);
        ListedOnce(key, a, b[i]);
        assert false;
      }
    }
  }

  /** A sort by key of a list whose keys are distinct leaves no tie. */
  lemma SortedWithoutTies<T, K(!new)>(less: (K, K) -> bool, key: T -> K, a: seq<T>, b: seq<T>)
    requires StrictTotal(less) && multiset(a) == multiset(b)
    requires forall i, j :: 0 <= i < j < |a| ==> key(a[i]) != key(a[j])
    requires forall i, j :: 0 <= i < j < |b| ==> !less(key(b[j]), key(b[i]))
    ensures forall i, j :: 0 <= i < j < |b| ==> less(key(b[i]), key(b[j]))
  {
    PermutationDistinct(key, a, b);
  }

  lemma ListedTwice<T>(b: seq<T>, i: nat, j: nat)
    requires i < j < |b| && b[i] == b[j]
    ensures multiset(b)[b[i]] >= 2
  {
    assert b == b[..i] + [b[i]] + b[i + 1..j] + [b[j]] + b[j + 1..];
  }

  function Keyed<T, K>(key: T -> K, a: seq<T>): (r: seq<K>)
    ensures |r| == |a| && forall i :: 0 <= i < |a| ==> r[i] == key(a[i])
  {
    seq(|a|, i requires 0 <= i < |a| => key(a[i]))
  }

  /** Sorting by key changes nothing when the keys are already in strict order. */
  lemma SortedAlready<T, K(!new)>(less: (K, K) -> bool, key: T -> K, a: seq<T>, b: seq<T>)
    requires StrictTotal(less) && multiset(a) == multiset(b) && StrictlySorted(less, Keyed(key, a))
    requires forall i, j :: 0 <= i < j < |b| ==> !less(key(b[j]), key(b[i]))
    ensures a == b
  {
    var x, y := Keyed(key, a), Keyed(key, b);
    assert forall i, j :: 0 <= i < j < |a| ==> less(x[i], x[j]);
    SortedWithoutTies(less, key, a, b);
    SameElements(a, b);
    forall k ensures k in x <==> k in y {
      if k in x {
        var i :| 0 <= i < |x| && x[i] == k;
        assert a[i] in b;
        var j :| 0 <= j < |b| && b[j] == a[i];
        assert y[j] == k;
      }
      if k in y {
        var i :| 0 <= i < |y| && y[i] == k;
        assert b[i] in a;
        var j :| 0 <= j < |a| && a[j] == b[i];
        assert x[j] == k;
      }
    }
    SortedUnique(less, x, y);
    forall i | 0 <= i < |a| ensures a[i] == b[i] {
      assert b[i] in a;
      var j :| 0 <= j < |a| && a[j] == b[i];
      assert x[j] == y[i] == x[i];
    }
  }
}
