/**
 * `Array.prototype.sort` with the comparator `(a, b) => key(a) - key(b)`, which
 * the column factory uses on interview steps and on columns. The language
 * requires this sort to be stable, and a stable sort by an integer key has
 * exactly one possible result (StableSortIsUnique), so SortBy, an insertion
 * sort, is that result whichever algorithm the engine runs.
 */
module StableSort {

  /** `s` is in ascending order of `key`. */
  ghost predicate SortedBy<T>(s: seq<T>, key: T -> int) {
    forall i, j :: 0 <= i < j < |s| ==> key(s[i]) <= key(s[j])
  }

  /** The elements of `s` whose key is `k`, in their order in `s`. */
  function WithKey<T>(s: seq<T>, key: T -> int, k: int): seq<T> {
    if s == [] then []
    else WithKey(s[..|s| - 1], key, k) + (if key(s[|s| - 1]) == k then [s[|s| - 1]] else [])
  }

  /** Inserts `x` after the last element of `t` whose key is not greater. */
  function Insert<T>(t: seq<T>, x: T, key: T -> int): (r: seq<T>)
    ensures |r| == |t| + 1
  {
    if t == [] || key(t[|t| - 1]) <= key(x) then t + [x]
    else Insert(t[..|t| - 1], x, key) + [t[|t| - 1]]
  }

  /** The stable ascending sort of `s` by `key`. */
  function SortBy<T>(s: seq<T>, key: T -> int): (r: seq<T>)
    ensures |r| == |s|
  {
    if s == [] then [] else Insert(SortBy(s[..|s| - 1], key), s[|s| - 1], key)
  }

  lemma {:induction false} WithKeyMembers<T>(s: seq<T>, key: T -> int, k: int, x: T)
    ensures x in WithKey(s, key, k) <==> x in s && key(x) == k
  {
    if s != [] {
      WithKeyMembers(s[..|s| - 1], key, k, x);
      assert s == s[..|s| - 1] + [s[|s| - 1]];
    }
  }

  lemma {:induction false} WithKeyAppend<T>(s: seq<T>, t: seq<T>, key: T -> int, k: int)
    ensures WithKey(s + t, key, k) == WithKey(s, key, k) + WithKey(t, key, k)
    decreases |t|
  {
    if t == [] {
      assert s + t == s;
    } else {
      assert (s + t)[..|s + t| - 1] == s + t[..|t| - 1];
      WithKeyAppend(s, t[..|t| - 1], key, k);
    }
  }

  /** Every element of `s` has a key of at most `m`. */
  ghost predicate KeysAtMost<T>(s: seq<T>, key: T -> int, m: int) {
    forall i :: 0 <= i < |s| ==> key(s[i]) <= m
  }

  lemma AppendSorted<T>(s: seq<T>, y: T, key: T -> int)
    requires SortedBy(s, key) && KeysAtMost(s, key, key(y))
    ensures SortedBy(s + [y], key)
  {
    var r := s + [y];
    forall i, j | 0 <= i < j < |r| ensures key(r[i]) <= key(r[j]) {
      assert r[i] == s[i];
      if j < |s| { assert r[j] == s[j]; }
    }
  }

  /** A bound on the keys of `u` and on `key(x)` bounds the keys of the insertion. */
  lemma InsertKeysAtMost<T>(u: seq<T>, x: T, key: T -> int, m: int)
    requires KeysAtMost(u, key, m) && key(x) <= m
    requires multiset(Insert(u, x, key)) == multiset(u) + multiset{x}
    ensures KeysAtMost(Insert(u, x, key), key, m)
  {
    var v := Insert(u, x, key);
    forall i | 0 <= i < |v| ensures key(v[i]) <= m {
      assert v[i] in multiset(u) + multiset{x};
      if v[i] != x {
        assert v[i] in u;
        var k :| 0 <= k < |u| && u[k] == v[i];
      }
    }
  }

  lemma {:induction false} InsertSorted<T>(t: seq<T>, x: T, key: T -> int)
    requires SortedBy(t, key)
    ensures SortedBy(Insert(t, x, key), key)
    ensures multiset(Insert(t, x, key)) == multiset(t) + multiset{x}
  {
    if t == [] || key(t[|t| - 1]) <= key(x) {
      assert KeysAtMost(t, key, key(x)) by {
        forall i | 0 <= i < |t| ensures key(t[i]) <= key(x) {
          if i < |t| - 1 { assert key(t[i]) <= key(t[|t| - 1]); }
        }
      }
      AppendSorted(t, x, key);
    } else {
      var u, last := t[..|t| - 1], t[|t| - 1];
      assert t == u + [last];
      assert SortedBy(u, key) by {
        forall i, j | 0 <= i < j < |u| ensures key(u[i]) <= key(u[j]) {
          assert u[i] == t[i] && u[j] == t[j];
        }
      }
      assert KeysAtMost(u, key, key(last)) by {
        forall i | 0 <= i < |u| ensures key(u[i]) <= key(last) {
          assert u[i] == t[i];
        }
      }
      InsertSorted(u, x, key);
      InsertKeysAtMost(u, x, key, key(last));
      AppendSorted(Insert(u, x, key), last, key);
    }
  }

  lemma {:induction false} InsertStable<T>(t: seq<T>, x: T, key: T -> int, k: int)
    ensures WithKey(Insert(t, x, key), key, k) == WithKey(t, key, k) + (if key(x) == k then [x] else [])
  {
    if t == [] || key(t[|t| - 1]) <= key(x) {
      WithKeyAppend(t, [x], key, k);
      assert WithKey([x], key, k) == WithKey([], key, k) + (if key(x) == k then [x] else []) by {
        assert [x][..0] == [];
      }
    } else {
      var u, last := t[..|t| - 1], t[|t| - 1];
      InsertStable(u, x, key, k);
      var v := Insert(u, x, key);
      assert (v + [last])[..|v + [last]| - 1] == v;
      assert WithKey(v + [last], key, k) == WithKey(v, key, k) + (if key(last) == k then [last] else []);
      assert t == u + [last];
    }
  }

  /** The result is in ascending order of the key. */
  lemma {:induction false} SortByIsSorted<T>(s: seq<T>, key: T -> int)
    ensures SortedBy(SortBy(s, key), key)
  {
    if s != [] {
      SortByIsSorted(s[..|s| - 1], key);
      InsertSorted(SortBy(s[..|s| - 1], key), s[|s| - 1], key);
    }
  }

  /** The result is a permutation of the input. */
  lemma {:induction false} SortByIsPermutation<T>(s: seq<T>, key: T -> int)
    ensures multiset(SortBy(s, key)) == multiset(s)
  {
    if s != [] {
      SortByIsPermutation(s[..|s| - 1], key);
      SortByIsSorted(s[..|s| - 1], key);
      InsertSorted(SortBy(s[..|s| - 1], key), s[|s| - 1], key);
      assert s == s[..|s| - 1] + [s[|s| - 1]];
    }
  }

  /** Stability: elements with equal keys keep their relative input order. */
  lemma {:induction false} SortByIsStable<T>(s: seq<T>, key: T -> int, k: int)
    ensures WithKey(SortBy(s, key), key, k) == WithKey(s, key, k)
  {
    if s != [] {
      SortByIsStable(s[..|s| - 1], key, k);
      InsertStable(SortBy(s[..|s| - 1], key), s[|s| - 1], key, k);
    }
  }

  lemma SortByMembers<T>(s: seq<T>, key: T -> int, x: T)
    ensures x in SortBy(s, key) <==> x in s
  {
    SortByIsPermutation(s, key);
    assert x in SortBy(s, key) <==> x in multiset(SortBy(s, key));
  }

  /**
   * Any sorted sequence that keeps, for every key, the input's elements with
   * that key in the input's order is SortBy's result: every stable sort agrees.
   */
  lemma {:induction false} StableSortIsUnique<T>(s: seq<T>, r: seq<T>, key: T -> int)
    requires SortedBy(r, key)
    requires forall k :: WithKey(r, key, k) == WithKey(s, key, k)
    ensures r == SortBy(s, key)
  {
    SortByIsSorted(s, key);
    forall k ensures WithKey(r, key, k) == WithKey(SortBy(s, key), key, k) {
      SortByIsStable(s, key, k);
    }
    SortedWithSameKeysAreEqual(r, SortBy(s, key), key);
  }

  lemma WithKeyDropLast<T>(s: seq<T>, key: T -> int, k: int)
    requires s != []
    ensures WithKey(s, key, k) == WithKey(s[..|s| - 1], key, k) + (if key(s[|s| - 1]) == k then [s[|s| - 1]] else [])
  {
  }

  lemma CancelSuffix<T>(p: seq<T>, q: seq<T>, e: seq<T>)
    requires p + e == q + e
    ensures p == q
  {
    assert p == (p + e)[..|p|];
    assert q == (q + e)[..|q|];
  }

  /** The last element of a sorted sequence carries its largest key. */
  lemma LastIsLargest<T>(s: seq<T>, key: T -> int, x: T)
    requires SortedBy(s, key) && x in s
    ensures key(x) <= key(s[|s| - 1])
  {
    var i :| 0 <= i < |s| && s[i] == x;
  }

  /** Two sorted sequences with the same elements per key end with the same element. */
  lemma LastsAgree<T>(a: seq<T>, b: seq<T>, key: T -> int)
    requires SortedBy(a, key) && SortedBy(b, key) && a != [] && b != []
    requires forall k :: WithKey(a, key, k) == WithKey(b, key, k)
    ensures a[|a| - 1] == b[|b| - 1]
  {
    var x, y := a[|a| - 1], b[|b| - 1];
    assert WithKey(a, key, key(x)) == WithKey(b, key, key(x));
    assert WithKey(a, key, key(y)) == WithKey(b, key, key(y));
    LastKeysMeet(a, b, key);
    SameKeyLasts(a, b, key, key(x));
  }

  /** The largest keys of two sorted sequences meet when both keys select the same elements. */
  lemma LastKeysMeet<T>(a: seq<T>, b: seq<T>, key: T -> int)
    requires SortedBy(a, key) && SortedBy(b, key) && a != [] && b != []
    requires WithKey(a, key, key(a[|a| - 1])) == WithKey(b, key, key(a[|a| - 1]))
    requires WithKey(a, key, key(b[|b| - 1])) == WithKey(b, key, key(b[|b| - 1]))
    ensures key(a[|a| - 1]) == key(b[|b| - 1])
  {
    var x, y := a[|a| - 1], b[|b| - 1];
    WithKeyMembers(a, key, key(x), x);
    WithKeyMembers(b, key, key(x), x);
    LastIsLargest(b, key, x);
    WithKeyMembers(b, key, key(y), y);
    WithKeyMembers(a, key, key(y), y);
    LastIsLargest(a, key, y);
  }

  /** Two sequences ending in key `k` that select the same elements for `k` end alike. */
  lemma SameKeyLasts<T>(a: seq<T>, b: seq<T>, key: T -> int, k: int)
    requires a != [] && b != [] && key(a[|a| - 1]) == k && key(b[|b| - 1]) == k
    requires WithKey(a, key, k) == WithKey(b, key, k)
    ensures a[|a| - 1] == b[|b| - 1]
  {
    var x, y := a[|a| - 1], b[|b| - 1];
    var wa, wb := WithKey(a[..|a| - 1], key, k), WithKey(b[..|b| - 1], key, k);
    WithKeyDropLast(a, key, k);
    WithKeyDropLast(b, key, k);
    assert wa + [x] == wb + [y];
    assert |wa| == |wb|;
    assert x == (wa + [x])[|wa|] == (wb + [y])[|wb|] == y;
  }

  /** Dropping a common last element keeps the elements per key equal. */
  lemma InitsAgree<T>(a: seq<T>, b: seq<T>, key: T -> int, a': seq<T>, b': seq<T>)
    requires a != [] && b != [] && a[|a| - 1] == b[|b| - 1]
    requires a' == a[..|a| - 1] && b' == b[..|b| - 1]
    requires forall k :: WithKey(a, key, k) == WithKey(b, key, k)
    ensures forall k :: WithKey(a', key, k) == WithKey(b', key, k)
  {
    var x := a[|a| - 1];
    forall j ensures WithKey(a', key, j) == WithKey(b', key, j) {
      WithKeyDropLast(a, key, j);
      WithKeyDropLast(b, key, j);
      CancelSuffix(WithKey(a', key, j), WithKey(b', key, j), if key(x) == j then [x] else []);
    }
  }

  lemma SortedPrefix<T>(s: seq<T>, key: T -> int)
    requires SortedBy(s, key) && s != []
    ensures SortedBy(s[..|s| - 1], key)
  {
    var u := s[..|s| - 1];
    forall i, j | 0 <= i < j < |u| ensures key(u[i]) <= key(u[j]) {
      assert u[i] == s[i] && u[j] == s[j];
    }
  }

  lemma {:induction false} SortedWithSameKeysAreEqual<T>(a: seq<T>, b: seq<T>, key: T -> int)
    requires SortedBy(a, key) && SortedBy(b, key)
    requires forall k :: WithKey(a, key, k) == WithKey(b, key, k)
    ensures a == b
    decreases |a| + |b|
  {
    if a == [] || b == [] {
      var c := if a == [] then b else a;
      if c != [] {
        WithKeyMembers(a, key, key(c[0]), c[0]);
        WithKeyMembers(b, key, key(c[0]), c[0]);
        assert false;
      }
      return;
    }
    LastsAgree(a, b, key);
    var a', b' := a[..|a| - 1], b[..|b| - 1];
    InitsAgree(a, b, key, a', b');
    SortedPrefix(a, key);
    SortedPrefix(b, key);
    SortedWithSameKeysAreEqual(a', b', key);
    assert a == a[..|a| - 1] + [a[|a| - 1]] && b == b[..|b| - 1] + [b[|b| - 1]];
  }

  /**
   * `Insert` places `x` right after the last element whose key is not greater:
   * at position `j` when every element from `j` on has a greater key.
   */
  lemma {:induction false} InsertAt<T>(t: seq<T>, x: T, key: T -> int, j: int)
    requires 0 <= j <= |t| && (j == 0 || key(t[j - 1]) <= key(x))
    requires forall k :: j <= k < |t| ==> key(t[k]) > key(x)
    ensures Insert(t, x, key) == t[..j] + [x] + t[j..]
  {
    if j < |t| {
      var u, last := t[..|t| - 1], t[|t| - 1];
      assert Insert(t, x, key) == Insert(u, x, key) + [last];
      assert u[..j] == t[..j] && (j == 0 || u[j - 1] == t[j - 1]);
      InsertAt(u, x, key, j);
      assert t[j..] == u[j..] + [last];
    }
  }

  /**
   * Moves `a[i]` left past the elements of the sorted prefix `a[..i]` whose
   * key is greater, so that `a[..i + 1]` becomes sorted.
   */
  method InsertInPlace<T>(a: array<T>, i: int, key: T -> int)
    requires 0 <= i < a.Length
    modifies a
    ensures a[..i + 1] == Insert(old(a[..i]), old(a[i]), key)
    ensures forall k :: i < k < a.Length ==> a[k] == old(a[k])
  {
    var x := a[i];
    ghost var t := a[..i];
    var j := i;
    while j > 0 && key(a[j - 1]) > key(x)
      invariant 0 <= j <= i
      invariant forall k :: 0 <= k < j ==> a[k] == t[k]
      invariant forall k :: j < k <= i ==> a[k] == t[k - 1]
      invariant forall k :: i < k < a.Length ==> a[k] == old(a[k])
      invariant forall k :: j <= k < i ==> key(t[k]) > key(x)
    {
      a[j] := a[j - 1];
      j := j - 1;
    }
    a[j] := x;
    InsertAt(t, x, key, j);
    assert a[..i + 1] == t[..j] + [x] + t[j..] by {
      forall k | 0 <= k <= i ensures a[..i + 1][k] == (t[..j] + [x] + t[j..])[k] {
        if k > j { assert (t[..j] + [x] + t[j..])[k] == t[k - 1]; }
      }
    }
  }

  /**
   * Sorts `a` in place, stably, by ascending `key`; ties keep their order.
   */
  method SortInPlace<T>(a: array<T>, key: T -> int)
    modifies a
    ensures a[..] == SortBy(old(a[..]), key)
  {
    ghost var s := a[..];
    var i := 0;
    while i < a.Length
      invariant 0 <= i <= a.Length
      invariant a[..i] == SortBy(s[..i], key)
      invariant forall k :: i <= k < a.Length ==> a[k] == s[k]
    {
      ghost var prefix, x := a[..i], a[i];
      assert x == s[i];
      assert s[..i + 1][..i] == s[..i];
      assert SortBy(s[..i + 1], key) == Insert(prefix, x, key);
      InsertInPlace(a, i, key);
      i := i + 1;
    }
    assert a[..] == a[..a.Length] && s == s[..a.Length];
  }

  // ---------------------------------------------------------------------------
  // Permutations of sequences whose elements carry distinct names
  // ---------------------------------------------------------------------------

  /** An element that occurs once in `r` is at no second position. */
  lemma SingleOccurrence<T>(r: seq<T>, i: int, j: int)
    requires 0 <= i < j < |r| && multiset(r)[r[i]] == 1
    ensures r[j] != r[i]
  {
    assert r == r[..j] + [r[j]] + r[j + 1..];
    assert r[..j][i] == r[i];
    assert multiset(r[..j])[r[i]] >= 1;
    assert multiset(r)[r[i]] == multiset(r[..j])[r[i]] + multiset([r[j]])[r[i]] + multiset(r[j + 1..])[r[i]];
    assert multiset([r[j]])[r[i]] == 0;
  }

  /** In a sequence whose elements have distinct names, each element occurs once. */
  lemma {:induction false} DistinctNamesOccurOnce<T>(s: seq<T>, name: T -> string, a: int)
    requires forall x, y :: 0 <= x < y < |s| ==> name(s[x]) != name(s[y])
    requires 0 <= a < |s|
    ensures multiset(s)[s[a]] == 1
  {
    var n := |s|;
    var init := s[..n - 1];
    assert s == init + [s[n - 1]];
    if a == n - 1 {
      forall k | 0 <= k < n - 1 ensures init[k] != s[a] {
        assert name(s[k]) != name(s[a]);
      }
      assert s[a] !in init;
    } else {
      DistinctNamesOccurOnce(init, name, a);
      assert s[n - 1] != s[a] by { assert name(s[a]) != name(s[n - 1]); }
    }
  }

  /** A permutation of a sequence with distinct names has distinct names. */
  lemma DistinctNamesInPermutation<T>(s: seq<T>, r: seq<T>, name: T -> string, i: int, j: int)
    requires forall a, b :: 0 <= a < b < |s| ==> name(s[a]) != name(s[b])
    requires multiset(r) == multiset(s) && 0 <= i < j < |r|
    ensures name(r[i]) != name(r[j])
  {
    assert r[i] in multiset(s) && r[j] in multiset(s);
    var a :| 0 <= a < |s| && s[a] == r[i];
    var b :| 0 <= b < |s| && s[b] == r[j];
    DistinctNamesOccurOnce(s, name, a);
    SingleOccurrence(r, i, j);
    assert a != b;
  }
}
