/** Loops that keep the first item of each key and skip items without one. */
module FirstOfEach {
  import opened Text
  import Sorting

  function Keys<T(==), K(==)>(items: seq<T>, key: T -> Option<K>): set<K> { set x | x in items && key(x).Some? :: key(x).value }

  /** The items with a key that no earlier item has. */
  function Keep<T(==), K(==)>(items: seq<T>, key: T -> Option<K>): seq<T> {
    if items == [] then [] else
      var kept, x := Keep(items[..|items| - 1], key), items[|items| - 1];
      if key(x).None? || key(x).value in Keys(kept, key) then kept else kept + [x]
  }

  predicate IsFirst<T(==), K(==)>(items: seq<T>, key: T -> Option<K>, i: int) {
    0 <= i < |items| && key(items[i]).Some? && forall j :: 0 <= j < i ==> key(items[j]) != key(items[i])
  }

  predicate Apart<T(==), K(==)>(items: seq<T>, key: T -> Option<K>) {
    && (forall i :: 0 <= i < |items| ==> key(items[i]).Some?)
    && (forall i, j :: 0 <= i < j < |items| ==> key(items[i]) != key(items[j]))
  }

  lemma {:induction false} KeysOfKeep<T, K>(items: seq<T>, key: T -> Option<K>)
    ensures Keys(Keep(items, key), key) == Keys(items, key)
  {
    if items != [] {
      var rest, x := items[..|items| - 1], items[|items| - 1];
      KeysOfKeep(rest, key);
      assert items == rest + [x];
      KeysOfConcat(rest, [x], key);
      KeysOfConcat(Keep(rest, key), [x], key);
    }
  }

  lemma KeysOfConcat<T, K>(a: seq<T>, b: seq<T>, key: T -> Option<K>)
    ensures Keys(a + b, key) == Keys(a, key) + Keys(b, key)
  {
  }

  lemma SameKeys<T, K>(a: seq<T>, b: seq<T>, key: T -> Option<K>)
    requires |a| == |b| && forall i :: 0 <= i < |a| ==> key(a[i]) == key(b[i])
    ensures Keys(a, key) == Keys(b, key)
  {
    forall x | x in a && key(x).Some? ensures key(x).value in Keys(b, key) {
      var i :| 0 <= i < |a| && a[i] == x;
      assert b[i] in b;
    }
    forall x | x in b && key(x).Some? ensures key(x).value in Keys(a, key) {
      var i :| 0 <= i < |b| && b[i] == x;
      assert a[i] in a;
    }
  }

  /** One turn of the loop. */
  lemma KeepStep<T, K>(items: seq<T>, k: nat, key: T -> Option<K>)
    requires k < |items|
    ensures var kept, x := Keep(items[..k], key), items[k];
            if key(x).None? || key(x).value in Keys(kept, key)
            then Keep(items[..k + 1], key) == kept
            else Keep(items[..k + 1], key) == kept + [x] &&
                 Keys(Keep(items[..k + 1], key), key) == Keys(kept, key) + {key(x).value}
  {
    assert items[..k + 1][..k] == items[..k];
    KeysGrow(Keep(items[..k], key), items[k], key);
  }

  lemma KeysGrow<T, K>(items: seq<T>, x: T, key: T -> Option<K>)
    ensures Keys(items + [x], key) == Keys(items, key) + (if key(x).None? then {} else {key(x).value})
  {
    KeysOfConcat(items, [x], key);
    assert x in [x];
  }

  lemma {:induction false} KeepIsApart<T, K>(items: seq<T>, key: T -> Option<K>)
    ensures Apart(Keep(items, key), key)
  {
    if items != [] {
      KeepIsApart(items[..|items| - 1], key);
    }
  }

  /** What is kept are exactly the first items of their keys. */
  lemma {:induction false} KeepMembers<T, K>(items: seq<T>, key: T -> Option<K>, x: T)
    ensures x in Keep(items, key) <==> exists i :: IsFirst(items, key, i) && x == items[i]
  {
    if items != [] {
      var n, rest := |items| - 1, items[..|items| - 1];
      KeepMembers(rest, key, x);
      KeysOfKeep(rest, key);
      FirstOfMore(items, key);
      hide IsFirst, Keys;
      if x in Keep(rest, key) {
        var i :| IsFirst(rest, key, i) && x == rest[i];
        assert IsFirst(items, key, i);
      }
      if exists i :: IsFirst(items, key, i) && x == items[i] {
        var i :| IsFirst(items, key, i) && x == items[i];
        assert i < n ==> IsFirst(rest, key, i);
      }
    }
  }

  lemma FirstOfMore<T, K>(items: seq<T>, key: T -> Option<K>)
    requires items != []
    ensures var n, rest := |items| - 1, items[..|items| - 1];
            && (IsFirst(items, key, n) <==> key(items[n]).Some? && key(items[n]).value !in Keys(rest, key))
            && (forall i :: i < n ==> IsFirst(items, key, i) == IsFirst(rest, key, i))
            && (forall i :: IsFirst(items, key, i) ==> i <= n) && (forall i :: IsFirst(rest, key, i) ==> 0 <= i < n)
            && forall i :: 0 <= i < n ==> rest[i] == items[i]
  {
    var n, rest := |items| - 1, items[..|items| - 1];
    assert forall i :: 0 <= i < n ==> items[i] == rest[i];
  }

  /** Items with different keys are all kept. */
  lemma {:induction false} KeepApart<T, K>(items: seq<T>, key: T -> Option<K>)
    requires Apart(items, key)
    ensures Keep(items, key) == items
  {
    if items != [] {
      var rest := items[..|items| - 1];
      KeepApart(rest, key);
      assert items == rest + [items[|items| - 1]];
    }
  }

  /** An item is dropped exactly when it has no key or shares its key. */
  lemma {:induction false} KeepsAllOnlyIfApart<T, K>(items: seq<T>, key: T -> Option<K>)
    ensures |Keep(items, key)| <= |items|
    ensures |Keep(items, key)| == |items| <==> Apart(items, key)
  {
    if items != [] {
      KeepsAllOnlyIfApart(items[..|items| - 1], key);
    }
    if Apart(items, key) {
      KeepApart(items, key);
    } else if |Keep(items, key)| == |items| {
      KeepLongIsAll(items, key);
      KeepIsApart(items, key);
    }
  }

  lemma {:induction false} KeepLongIsAll<T, K>(items: seq<T>, key: T -> Option<K>)
    requires |Keep(items, key)| == |items|
    ensures Keep(items, key) == items
  {
    if items != [] {
      var rest := items[..|items| - 1];
      KeepIsShort(rest, key);
      KeepLongIsAll(rest, key);
      assert items == rest + [items[|items| - 1]];
    }
  }

  lemma {:induction false} KeepIsShort<T, K>(items: seq<T>, key: T -> Option<K>)
    ensures |Keep(items, key)| <= |items|
  {
    if items != [] {
      KeepIsShort(items[..|items| - 1], key);
    }
  }

  lemma ApartGrows<T, K>(items: seq<T>, x: T, key: T -> Option<K>)
    requires Apart(items, key) && key(x).Some? && key(x).value !in Keys(items, key)
    ensures Apart(items + [x], key)
  {
    forall i | 0 <= i < |items| ensures key(items[i]) != key(x) {
      assert items[i] in items;
    }
  }

  lemma {:induction false} CountAtLeastTwo<T>(s: seq<T>, i: nat, j: nat)
    requires i < j < |s| && s[i] == s[j]
    ensures multiset(s)[s[i]] >= 2
  {
    assert s == s[..i + 1] + s[i + 1..];
    assert multiset(s) == multiset(s[..i + 1]) + multiset(s[i + 1..]);
    assert s[..i + 1][i] == s[i] && s[i + 1..][j - i - 1] == s[i];
  }

  lemma ApartOfPermutation<T, K>(a: seq<T>, b: seq<T>, key: T -> Option<K>)
    requires Apart(a, key) && multiset(a) == multiset(b)
    ensures Apart(b, key)
  {
    forall i | 0 <= i < |b| ensures b[i] in a {
      assert b[i] in multiset(b);
    }
    forall i, j | 0 <= i < j < |b| ensures key(b[i]) != key(b[j]) {
      var x, y :| 0 <= x < |a| && 0 <= y < |a| && a[x] == b[i] && a[y] == b[j];
      if x == y {
        CountAtLeastTwo(b, i, j);
        forall p, q | 0 <= p < q < |a| ensures a[p] != a[q] {
          assert key(a[p]) != key(a[q]);
        }
        Sorting.CountOfDistinct(a, b[i]);
      }
    }
  }
}
