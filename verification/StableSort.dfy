/**
 Stable sorting by an integer key, as list.sort(key=...) does it, and the
 algebra that retention relies on: sorting commutes with selection, forgets an
 earlier sort, and the last K places of a sorted list ignore anything that at
 least K elements outrank.
 */
module StableSort {
  import opened Seqs

  /** Put x before the first element whose key is not smaller: equal keys keep their order. */
  function Insert<T(!new)>(x: T, s: seq<T>, key: T -> int): (r: seq<T>)
    ensures |r| == |s| + 1
  {
    if s == [] || key(x) <= key(s[0]) then [x] + s
    else [s[0]] + Insert(x, s[1..], key)
  }

  lemma {:induction false} InsertMembers<T(!new)>(x: T, s: seq<T>, key: T -> int)
    ensures forall y :: y in Insert(x, s, key) <==> y == x || y in s
  {
    if s != [] && key(x) > key(s[0]) {
      InsertMembers(x, s[1..], key);
      assert s == [s[0]] + s[1..];
    }
  }

  /** Insert the elements of a, last one first, into m. */
  function InsertAll<T(!new)>(a: seq<T>, m: seq<T>, key: T -> int): (r: seq<T>)
    ensures |r| == |a| + |m|
  {
    if a == [] then m else Insert(a[0], InsertAll(a[1..], m, key), key)
  }

  lemma {:induction false} InsertAllMembers<T(!new)>(a: seq<T>, m: seq<T>, key: T -> int)
    ensures forall y :: y in InsertAll(a, m, key) <==> y in a || y in m
  {
    if a != [] {
      InsertAllMembers(a[1..], m, key);
      InsertMembers(a[0], InsertAll(a[1..], m, key), key);
      assert a == [a[0]] + a[1..];
    }
  }

  function Sort<T(!new)>(xs: seq<T>, key: T -> int): (r: seq<T>)
    ensures |r| == |xs|
  {
    InsertAll(xs, [], key)
  }

  ghost predicate Sorted<T(!new)>(s: seq<T>, key: T -> int) {
    forall i, j :: 0 <= i < j < |s| ==> key(s[i]) <= key(s[j])
  }

  lemma {:induction false} InsertSorted<T(!new)>(x: T, s: seq<T>, key: T -> int)
    requires Sorted(s, key)
    ensures Sorted(Insert(x, s, key), key)
  {
    if s != [] && key(x) > key(s[0]) {
      InsertSorted(x, s[1..], key);
      InsertMembers(x, s[1..], key);
      var r := Insert(x, s[1..], key);
      forall j | 0 <= j < |r| ensures key(s[0]) <= key(r[j]) {
        assert r[j] in r;
      }
    }
  }

  lemma {:induction false} InsertAllSorted<T(!new)>(a: seq<T>, m: seq<T>, key: T -> int)
    requires Sorted(m, key)
    ensures Sorted(InsertAll(a, m, key), key)
  {
    if a != [] {
      InsertAllSorted(a[1..], m, key);
      InsertSorted(a[0], InsertAll(a[1..], m, key), key);
    }
  }

  lemma {:induction false} InsertAllConcat<T(!new)>(a: seq<T>, b: seq<T>, m: seq<T>, key: T -> int)
    ensures InsertAll(a + b, m, key) == InsertAll(a, InsertAll(b, m, key), key)
  {
    if a == [] {
      assert a + b == b;
    } else {
      assert (a + b)[1..] == a[1..] + b;
      InsertAllConcat(a[1..], b, m, key);
    }
  }

  /** Two insertions commute unless the elements tie without being equal. */
  lemma {:induction false} InsertCommutes<T(!new)>(x: T, y: T, s: seq<T>, key: T -> int)
    requires key(x) != key(y) || x == y
    ensures Insert(x, Insert(y, s, key), key) == Insert(y, Insert(x, s, key), key)
  {
    if s != [] && key(x) > key(s[0]) && key(y) > key(s[0]) {
      InsertCommutes(x, y, s[1..], key);
    }
  }

  lemma {:induction false} SortSortedIsSame<T(!new)>(s: seq<T>, key: T -> int)
    requires Sorted(s, key)
    ensures Sort(s, key) == s
  {
    if s != [] {
      SortSortedIsSame(s[1..], key);
    }
  }

  lemma {:induction false} InsertIntoInsertAll<T(!new)>(x: T, s: seq<T>, m: seq<T>, key: T -> int)
    requires Sorted(s, key)
    ensures InsertAll(Insert(x, s, key), m, key) == Insert(x, InsertAll(s, m, key), key)
  {
    if s == [] || key(x) <= key(s[0]) {
      assert ([x] + s)[1..] == s;
    } else {
      InsertIntoInsertAll(x, s[1..], m, key);
      assert ([s[0]] + Insert(x, s[1..], key))[1..] == Insert(x, s[1..], key);
      InsertCommutes(s[0], x, InsertAll(s[1..], m, key), key);
    }
  }

  lemma {:induction false} InsertAllOfSort<T(!new)>(xs: seq<T>, m: seq<T>, key: T -> int)
    ensures InsertAll(Sort(xs, key), m, key) == InsertAll(xs, m, key)
  {
    if xs != [] {
      InsertAllOfSort(xs[1..], m, key);
      InsertAllSorted(xs[1..], [], key);
      InsertIntoInsertAll(xs[0], Sort(xs[1..], key), m, key);
    }
  }

  /** Sorting a list whose front part was already sorted changes nothing. */
  lemma SortOfSorted<T(!new)>(xs: seq<T>, ys: seq<T>, key: T -> int)
    ensures Sort(Sort(xs, key) + ys, key) == Sort(xs + ys, key)
  {
    InsertAllConcat(Sort(xs, key), ys, [], key);
    InsertAllConcat(xs, ys, [], key);
    InsertAllOfSort(xs, Sort(ys, key), key);
  }

  lemma {:induction false} SelectInsert<T(!new)>(x: T, s: seq<T>, key: T -> int, p: T -> bool)
    requires Sorted(s, key)
    ensures Select(Insert(x, s, key), p) == if p(x) then Insert(x, Select(s, p), key) else Select(s, p)
  {
    if s == [] || key(x) <= key(s[0]) {
      SelectFront(x, s, p);
      SelectMembers(s, p);
      var f := Select(s, p);
      assert f != [] ==> f[0] in f;
    } else {
      SelectInsert(x, s[1..], key, p);
      SelectFront(s[0], Insert(x, s[1..], key), p);
      if p(x) && p(s[0]) {
        var f := Select(s, p);
        assert f[0] == s[0] && f[1..] == Select(s[1..], p);
      } else if !p(s[0]) {
        assert Select(s, p) == Select(s[1..], p);
      }
    }
  }

  /** Selecting from a sorted list is sorting what was selected. */
  lemma {:induction false} SelectSort<T(!new)>(xs: seq<T>, key: T -> int, p: T -> bool)
    ensures Select(Sort(xs, key), p) == Sort(Select(xs, p), key)
  {
    if xs != [] {
      SelectSort(xs[1..], key, p);
      InsertAllSorted(xs[1..], [], key);
      SelectInsert(xs[0], Sort(xs[1..], key), key, p);
      if p(xs[0]) {
        var f := Select(xs, p);
        assert f[0] == xs[0] && f[1..] == Select(xs[1..], p);
      } else {
        assert Select(xs, p) == Select(xs[1..], p);
      }
    }
  }

  function WithKey<T(!new)>(key: T -> int, k: int): T -> bool {
    x => key(x) == k
  }

  /** What a stable sort is: ascending, and every group of equal keys in its original order. */
  lemma SortIsStable<T(!new)>(xs: seq<T>, key: T -> int, k: int)
    ensures Sorted(Sort(xs, key), key)
    ensures Select(Sort(xs, key), WithKey(key, k)) == Select(xs, WithKey(key, k))
  {
    InsertAllSorted(xs, [], key);
    SelectSort(xs, key, WithKey(key, k));
    SelectMembers(xs, WithKey(key, k));
    var group := Select(xs, WithKey(key, k));
    assert forall i :: 0 <= i < |group| ==> group[i] in group;
    SortSortedIsSame(group, key);
  }

  /** Sorting keeps every copy of every element. */
  lemma {:induction false} InsertCount<T(!new)>(x: T, s: seq<T>, key: T -> int)
    ensures multiset(Insert(x, s, key)) == multiset{x} + multiset(s)
  {
    if s != [] && key(x) > key(s[0]) {
      InsertCount(x, s[1..], key);
      assert s == [s[0]] + s[1..];
    }
  }

  lemma {:induction false} InsertAllCount<T(!new)>(a: seq<T>, m: seq<T>, key: T -> int)
    ensures multiset(InsertAll(a, m, key)) == multiset(a) + multiset(m)
  {
    if a != [] {
      InsertAllCount(a[1..], m, key);
      InsertCount(a[0], InsertAll(a[1..], m, key), key);
      assert a == [a[0]] + a[1..];
    }
  }

  lemma SortCount<T(!new)>(xs: seq<T>, key: T -> int)
    ensures multiset(Sort(xs, key)) == multiset(xs)
  {
    InsertAllCount(xs, [], key);
  }

  /** Elements with equal keys stand in the sorted list as they stood in the unsorted one. */
  lemma TiesKeepOrder<T(!new)>(xs: seq<T>, key: T -> int, i: nat, j: nat) returns (a: nat, b: nat)
    requires i < j < |xs| && key(Sort(xs, key)[i]) == key(Sort(xs, key)[j])
    ensures a < b < |xs| && xs[a] == Sort(xs, key)[i] && xs[b] == Sort(xs, key)[j]
  {
    var k := key(Sort(xs, key)[i]);
    SortIsStable(xs, key, k);
    var c, d := SelectKeepsOrder(Sort(xs, key), WithKey(key, k), i, j);
    a, b := SelectPlaces(xs, WithKey(key, k), c, d);
  }

  /** At least n elements of the sorted list m have a key of at least k. */
  ghost predicate TopAtLeast<T(!new)>(m: seq<T>, n: nat, k: int, key: T -> int) {
    n <= |m| && (n > 0 ==> key(m[|m| - n]) >= k)
  }

  /** The last n elements, or all of them when there are fewer. */
  function LastN<T(!new)>(s: seq<T>, n: nat): (r: seq<T>)
    ensures |r| == if |s| <= n then |s| else n
  {
    if |s| <= n then s else s[|s| - n..]
  }

  lemma {:induction false} InsertTop<T(!new)>(x: T, m: seq<T>, n: nat, k: int, key: T -> int)
    requires Sorted(m, key) && TopAtLeast(m, n, k, key)
    ensures TopAtLeast(Insert(x, m, key), n, k, key)
    ensures key(x) >= k ==> TopAtLeast(Insert(x, m, key), n + 1, k, key)
  {
    if m != [] && key(x) > key(m[0]) {
      if n < |m| {
        InsertTop(x, m[1..], n, k, key);
      } else if n > 0 {
        InsertTop(x, m[1..], n - 1, k, key);
      }
    }
  }

  lemma {:induction false} InsertAllRaisesTop<T(!new)>(a: seq<T>, m: seq<T>, k: int, key: T -> int)
    requires Sorted(m, key)
    requires forall i :: 0 <= i < |a| ==> key(a[i]) >= k
    ensures TopAtLeast(InsertAll(a, m, key), |a|, k, key)
  {
    if a != [] {
      InsertAllRaisesTop(a[1..], m, k, key);
      InsertAllSorted(a[1..], m, key);
      InsertTop(a[0], InsertAll(a[1..], m, key), |a| - 1, k, key);
    }
  }

  lemma TopFewer<T(!new)>(m: seq<T>, n: nat, n': nat, k: int, key: T -> int)
    requires Sorted(m, key) && TopAtLeast(m, n, k, key) && n' <= n
    ensures TopAtLeast(m, n', k, key)
  {
  }

  /** An element that n others outrank does not show in the last n places. */
  lemma {:induction false} InsertKeepsLast<T(!new)>(x: T, m: seq<T>, n: nat, key: T -> int)
    requires Sorted(m, key) && TopAtLeast(m, n, key(x), key)
    ensures LastN(Insert(x, m, key), n) == LastN(m, n)
  {
    if m != [] && key(x) > key(m[0]) {
      assert n < |m|;
      InsertKeepsLast(x, m[1..], n, key);
      var r := Insert(x, m[1..], key);
      assert ([m[0]] + r)[|m| + 1 - n..] == r[|m| - n..];
    }
  }

  /** The smallest element of a sorted list longer than n does not show in the last n after a merge. */
  lemma FirstIsOutranked<T(!new)>(s: seq<T>, ys: seq<T>, n: nat, key: T -> int)
    requires Sorted(s, key) && |s| > n
    ensures LastN(Sort(s + ys, key), n) == LastN(Sort(s[1..] + ys, key), n)
  {
    var rest := s[1..];
    var m := Sort(rest + ys, key);
    assert (s + ys)[1..] == rest + ys;
    InsertAllConcat(rest, ys, [], key);
    InsertAllSorted(ys, [], key);
    InsertAllSorted(rest + ys, [], key);
    InsertAllRaisesTop(rest, Sort(ys, key), key(s[0]), key);
    TopFewer(m, |rest|, n, key(s[0]), key);
    InsertKeepsLast(s[0], m, n, key);
  }

  /** Dropping all but the last n before merging in more elements loses nothing the last n needed. */
  lemma {:induction false} LastNThenMerge<T(!new)>(s: seq<T>, ys: seq<T>, n: nat, key: T -> int)
    requires Sorted(s, key)
    ensures LastN(Sort(LastN(s, n) + ys, key), n) == LastN(Sort(s + ys, key), n)
    decreases |s|
  {
    if |s| > n {
      LastNThenMerge(s[1..], ys, n, key);
      assert LastN(s[1..], n) == LastN(s, n);
      FirstIsOutranked(s, ys, n, key);
    }
  }

  // ---- What a cut keeps depends only on the elements at or above it ----

  function AtLeast<T(!new)>(key: T -> int, k: int): T -> bool {
    x => key(x) >= k
  }

  function Above<T(!new)>(key: T -> int, k: int): T -> bool {
    x => key(x) > k
  }

  lemma {:induction false} TopSuffices<T(!new)>(s: seq<T>, n: nat, k: int, key: T -> int)
    requires Sorted(s, key) && |Select(s, AtLeast(key, k))| >= n
    ensures LastN(s, n) == LastN(Select(s, AtLeast(key, k)), n)
  {
    if s != [] {
      if key(s[0]) < k {
        TopSuffices(s[1..], n, k, key);
        assert LastN(s, n) == LastN(s[1..], n);
      } else {
        assert forall x :: x in s ==> key(s[0]) <= key(x);
        SelectAll(s, AtLeast(key, k));
      }
    }
  }

  /** Two lists with the same elements at or above k, at least n of them, have the same last n. */
  lemma SameTop<T(!new)>(xs: seq<T>, ys: seq<T>, n: nat, k: int, key: T -> int)
    requires Select(xs, AtLeast(key, k)) == Select(ys, AtLeast(key, k)) && |Select(xs, AtLeast(key, k))| >= n
    ensures LastN(Sort(xs, key), n) == LastN(Sort(ys, key), n)
  {
    InsertAllSorted(xs, [], key);
    InsertAllSorted(ys, [], key);
    SelectSort(xs, key, AtLeast(key, k));
    SelectSort(ys, key, AtLeast(key, k));
    TopSuffices(Sort(xs, key), n, k, key);
    TopSuffices(Sort(ys, key), n, k, key);
  }

  /** At least n elements of a sorted list are at or above its n-th from the end. */
  lemma {:induction false} CutHasTop<T(!new)>(s: seq<T>, n: nat, k: int, key: T -> int)
    requires Sorted(s, key) && 0 < n <= |s| && k == key(s[|s| - n])
    ensures |Select(s, AtLeast(key, k))| >= n
  {
    var rest, top := s[..|s| - n], s[|s| - n..];
    assert s == rest + top;
    SelectConcat(rest, top, AtLeast(key, k));
    assert forall x :: x in top ==> key(x) >= k;
    SelectAll(top, AtLeast(key, k));
  }

  /** Where n elements reach k, so does the n-th from the end. */
  lemma CutReaches<T(!new)>(xs: seq<T>, n: nat, k: int, key: T -> int)
    requires 0 < n <= |Select(xs, AtLeast(key, k))|
    ensures n <= |xs| && key(Sort(xs, key)[|xs| - n]) >= k
  {
    var s := Sort(xs, key);
    SelectSort(xs, key, AtLeast(key, k));
    InsertAllSorted(xs, [], key);
    TopSuffices(s, n, k, key);
    SelectMembers(s, AtLeast(key, k));
    var top := LastN(Select(s, AtLeast(key, k)), n);
    assert s[|s| - n] == top[0] && top[0] in Select(s, AtLeast(key, k));
  }

  lemma {:induction false} InsertBefore<T(!new)>(x: T, a: seq<T>, tail: seq<T>, key: T -> int)
    requires tail != [] && key(x) <= key(tail[0])
    ensures Insert(x, a + tail, key) == Insert(x, a, key) + tail
  {
    if a == [] {
      assert a + tail == tail;
    } else if key(x) <= key(a[0]) {
      ConcatAssociates([x], a, tail);
    } else {
      assert (a + tail)[1..] == a[1..] + tail;
      InsertBefore(x, a[1..], tail, key);
      ConcatAssociates([a[0]], Insert(x, a[1..], key), tail);
    }
  }

  lemma {:induction false} InsertAfter<T(!new)>(x: T, a: seq<T>, b: seq<T>, key: T -> int)
    requires forall i :: 0 <= i < |a| ==> key(x) > key(a[i])
    ensures Insert(x, a + b, key) == a + Insert(x, b, key)
  {
    if a == [] {
      assert a + b == b;
    } else {
      assert (a + b)[1..] == a[1..] + b;
      InsertAfter(x, a[1..], b, key);
    }
  }

  /** The last element of a list ends up with exactly the larger ones behind it. */
  lemma {:induction false} LastPlace<T(!new)>(xs: seq<T>, e: T, key: T -> int) returns (a: seq<T>, b: seq<T>)
    ensures Sort(xs + [e], key) == a + [e] + b && |b| == |Select(xs, Above(key, key(e)))|
    ensures forall i :: 0 <= i < |a| ==> key(a[i]) <= key(e)
  {
    if xs == [] {
      a, b := [], [];
      assert xs + [e] == [e] && [e][1..] == [];
      assert Sort([e], key) == [e] && [] + [e] + [] == [e];
    } else {
      var x := xs[0];
      var a', b' := LastPlace(xs[1..], e, key);
      assert (xs + [e])[1..] == xs[1..] + [e];
      if key(x) <= key(e) {
        assert a' + [e] + b' == a' + ([e] + b');
        InsertBefore(x, a', [e] + b', key);
        InsertMembers(x, a', key);
        a, b := Insert(x, a', key), b';
        forall i | 0 <= i < |a| ensures key(a[i]) <= key(e) {
          assert a[i] in a;
        }
      } else {
        InsertAfter(x, a' + [e], b', key);
        a, b := a', Insert(x, b', key);
      }
    }
  }
}
