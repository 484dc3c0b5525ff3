/** The contract of Go's sort.Slice, met by insertion: a permutation, sorted if the order is a strict weak order of the items. */
module Sorting {

  /** Nothing later is less than anything earlier. */
  ghost predicate Sorted<T>(less: (T, T) -> bool, s: seq<T>) {
    forall i, j :: 0 <= i < j < |s| ==> !less(s[j], s[i])
  }

  ghost predicate StrictWeakOrder<T(!new)>(less: (T, T) -> bool) {
    && (forall a, b :: less(a, b) ==> !less(b, a))
    && (forall a, b, c :: !less(a, b) && !less(b, c) ==> !less(a, c))
  }

  /** A strict weak order of the items. */
  ghost predicate Orders<T(!new)>(less: (T, T) -> bool, items: multiset<T>) {
    && (forall a, b :: a in items && b in items && less(a, b) ==> !less(b, a))
    && (forall a, b, c :: a in items && b in items && c in items && !less(a, b) && !less(b, c) ==> !less(a, c))
  }

  /** What sort.Slice promises: a permutation, and a sorted one if less orders the items. */
  ghost predicate MayReturn<T(!new)>(less: (T, T) -> bool, s: seq<T>, r: seq<T>) {
    multiset(r) == multiset(s) && (Orders(less, multiset(s)) ==> Sorted(less, r))
  }

  method Sort<T(==, !new)>(s: seq<T>, less: (T, T) -> bool) returns (r: seq<T>)
    ensures MayReturn(less, s, r)
  {
    r := [];
    for k := 0 to |s|
      invariant multiset(r) == multiset(s[..k])
      invariant Orders(less, multiset(s)) ==> Sorted(less, r)
    {
      assert s[..k + 1] == s[..k] + [s[k]];
      MoreOrders(less, s, k + 1);
      r := Insert(r, less, s[k]);
    }
    assert s[..|s|] == s;
  }

  lemma MoreOrders<T(!new)>(less: (T, T) -> bool, s: seq<T>, k: nat)
    requires k <= |s|
    ensures Orders(less, multiset(s)) ==> Orders(less, multiset(s[..k]))
  {
    assert s == s[..k] + s[k..];
    assert multiset(s) == multiset(s[..k]) + multiset(s[k..]);
  }

  method Insert<T(==, !new)>(s: seq<T>, less: (T, T) -> bool, x: T) returns (r: seq<T>)
    ensures multiset(r) == multiset(s) + multiset{x}
    ensures Orders(less, multiset(s) + multiset{x}) && Sorted(less, s) ==> Sorted(less, r)
  {
    var i := |s|;
    while i > 0 && less(x, s[i - 1])
      invariant 0 <= i <= |s|
      invariant forall j :: i <= j < |s| ==> less(x, s[j])
    {
      i := i - 1;
    }
    if Orders(less, multiset(s) + multiset{x}) && Sorted(less, s) {
      InsertSorted(less, s, i, x);
    }
    assert s == s[..i] + s[i..];
    r := s[..i] + [x] + s[i..];
  }

  lemma InsertSorted<T(!new)>(less: (T, T) -> bool, r: seq<T>, i: nat, x: T)
    requires Orders(less, multiset(r) + multiset{x}) && Sorted(less, r) && i <= |r|
    requires i > 0 ==> !less(x, r[i - 1])
    requires forall j :: i <= j < |r| ==> less(x, r[j])
    ensures Sorted(less, r[..i] + [x] + r[i..])
  {
    hide Orders;
    forall j | 0 <= j < i ensures !less(x, r[j]) {
      if j < i - 1 {
        NotLess(less, r, x, i - 1, j);
      }
    }
    forall j | i <= j < |r| ensures !less(r[j], x) {
      NotLessBack(less, r, x, j);
    }
  }

  lemma NotLessBack<T(!new)>(less: (T, T) -> bool, r: seq<T>, x: T, j: nat)
    requires Orders(less, multiset(r) + multiset{x}) && j < |r| && less(x, r[j])
    ensures !less(r[j], x)
  {
    var items := multiset(r) + multiset{x};
    assert x in items && r[j] in items;
  }

  lemma NotLess<T(!new)>(less: (T, T) -> bool, r: seq<T>, x: T, k: nat, j: nat)
    requires Orders(less, multiset(r) + multiset{x}) && Sorted(less, r) && j < k < |r| && !less(x, r[k])
    ensures !less(x, r[j])
  {
    var items := multiset(r) + multiset{x};
    assert x in items && r[k] in items && r[j] in items;
    assert !less(r[k], r[j]);
  }

  /** Nothing is less than x. */
  ghost predicate IsLeast<T(!new)>(less: (T, T) -> bool, s: seq<T>, x: T) { forall y :: y in s ==> !less(y, x) }

  lemma SameItems<T>(s: seq<T>, r: seq<T>)
    requires multiset(r) == multiset(s)
    ensures |r| == |s| && forall x :: x in s <==> x in r
  {
    assert |multiset(r)| == |r| && |multiset(s)| == |s|;
    assert forall x :: x in s <==> x in multiset(s);
    assert forall x :: x in r <==> x in multiset(r);
  }

  lemma SortedFirstIsLeast<T(!new)>(less: (T, T) -> bool, s: seq<T>, r: seq<T>)
    requires s != [] && multiset(r) == multiset(s) && Orders(less, multiset(s)) && Sorted(less, r)
    ensures r != [] && IsLeast(less, s, r[0])
  {
    SameItems(s, r);
    forall y | y in s ensures !less(y, r[0]) {
      var i :| 0 <= i < |r| && r[i] == y;
      assert r[0] in multiset(s) && y in multiset(s);
    }
  }

  /** If anything is less than y, a permutation that starts with y does not start with the least. */
  lemma FirstIsArbitrary<T(!new)>(less: (T, T) -> bool, s: seq<T>, y: T) returns (r: seq<T>)
    requires y in s
    ensures multiset(r) == multiset(s) && r != [] && r[0] == y
  {
    var i :| 0 <= i < |s| && s[i] == y;
    r := [y] + (s[..i] + s[i + 1..]);
    assert s == s[..i] + [y] + s[i + 1..];
  }

  /** The first item that sorting returns is sure to be a least one if and only if less orders the items. */
  lemma FirstIsLeastExactly<T(!new)>(less: (T, T) -> bool, s: seq<T>)
    requires s != []
    ensures (forall r :: MayReturn(less, s, r) ==> r != [] && IsLeast(less, s, r[0])) <==> Orders(less, multiset(s))
  {
    if Orders(less, multiset(s)) {
      forall r | MayReturn(less, s, r) ensures r != [] && IsLeast(less, s, r[0]) {
        SortedFirstIsLeast(less, s, r);
      }
    } else {
      var x, y := SomeLess(less, s);
      var r := FirstIsArbitrary(less, s, y);
      assert MayReturn(less, s, r) && !IsLeast(less, s, r[0]);
    }
  }

  /** Three items in a circle: none is least, and they have no order. */
  lemma CircleIsNoOrder<T(!new)>(less: (T, T) -> bool, a: T, b: T, c: T)
    requires less(a, b) && less(b, c) && less(c, a)
    ensures !Orders(less, multiset([a, b, c]))
    ensures forall x :: x in [a, b, c] ==> !IsLeast(less, [a, b, c], x)
  {
    var items := multiset([a, b, c]);
    assert a in items && b in items && c in items;
    assert a in [a, b, c] && b in [a, b, c] && c in [a, b, c];
  }

  lemma SomeLess<T(!new)>(less: (T, T) -> bool, s: seq<T>) returns (x: T, y: T)
    requires !Orders(less, multiset(s))
    ensures x in s && y in s && less(x, y)
  {
    if forall a, b :: a in s && b in s ==> !less(a, b) {
      assert forall a :: a in multiset(s) <==> a in s;
      assert false;
    }
    x, y :| x in s && y in s && less(x, y);
  }

  lemma {:induction false} CountOfDistinct<T>(s: seq<T>, x: T)
    requires forall i, j :: 0 <= i < j < |s| ==> s[i] != s[j]
    ensures multiset(s)[x] == if x in s then 1 else 0
  {
    if s != [] {
      var rest := s[..|s| - 1];
      assert s == rest + [s[|s| - 1]];
      CountOfDistinct(rest, x);
      assert s[|s| - 1] !in rest;
    }
  }

  /** Lists without duplicates that have the same members are permutations of each other. */
  lemma SameMembers<T>(s: seq<T>, t: seq<T>)
    requires forall i, j :: 0 <= i < j < |s| ==> s[i] != s[j]
    requires forall i, j :: 0 <= i < j < |t| ==> t[i] != t[j]
    requires forall x :: x in s <==> x in t
    ensures multiset(s) == multiset(t)
  {
    forall x ensures multiset(s)[x] == multiset(t)[x] {
      CountOfDistinct(s, x);
      CountOfDistinct(t, x);
    }
  }
}
