/** Sequence facts shared by the models: order-preserving selection and duplicate-free lists. */
module Seqs {

  /** The elements satisfying p, in order (a Python list comprehension with an `if`). */
  function Select<T(!new)>(xs: seq<T>, p: T -> bool): (r: seq<T>)
    ensures |r| <= |xs|
  {
    if xs == [] then []
    else (if p(xs[0]) then [xs[0]] else []) + Select(xs[1..], p)
  }

  lemma {:induction false} SelectMembers<T(!new)>(xs: seq<T>, p: T -> bool)
    ensures forall x :: x in Select(xs, p) <==> x in xs && p(x)
  {
    if xs != [] {
      SelectMembers(xs[1..], p);
      assert xs == [xs[0]] + xs[1..];
    }
  }

  lemma SelectFront<T(!new)>(x: T, s: seq<T>, p: T -> bool)
    ensures Select([x] + s, p) == if p(x) then [x] + Select(s, p) else Select(s, p)
  {
    assert ([x] + s)[1..] == s;
  }

  lemma {:induction false} SelectConcat<T(!new)>(xs: seq<T>, ys: seq<T>, p: T -> bool)
    ensures Select(xs + ys, p) == Select(xs, p) + Select(ys, p)
  {
    if xs == [] {
      assert xs + ys == ys;
    } else {
      var head := if p(xs[0]) then [xs[0]] else [];
      assert xs + ys == [xs[0]] + (xs[1..] + ys);
      SelectFront(xs[0], xs[1..] + ys, p);
      SelectConcat(xs[1..], ys, p);
      assert Select(xs + ys, p) == head + (Select(xs[1..], p) + Select(ys, p));
    }
  }

  lemma SelectAppend<T(!new)>(xs: seq<T>, y: T, p: T -> bool)
    ensures Select(xs + [y], p) == Select(xs, p) + (if p(y) then [y] else [])
  {
    SelectConcat(xs, [y], p);
    assert [y][1..] == [];
  }

  lemma {:induction false} SelectCommutes<T(!new)>(xs: seq<T>, p: T -> bool, q: T -> bool)
    ensures Select(Select(xs, p), q) == Select(Select(xs, q), p)
  {
    if xs != [] {
      SelectCommutes(xs[1..], p, q);
      SelectConcat(if p(xs[0]) then [xs[0]] else [], Select(xs[1..], p), q);
      SelectConcat(if q(xs[0]) then [xs[0]] else [], Select(xs[1..], q), p);
    }
  }

  /** Selecting by q first changes nothing when p implies q. */
  lemma {:induction false} SelectTwice<T(!new)>(xs: seq<T>, q: T -> bool, p: T -> bool)
    requires forall x :: x in xs && p(x) ==> q(x)
    ensures Select(Select(xs, q), p) == Select(xs, p)
  {
    if xs != [] {
      assert xs[0] in xs;
      SelectTwice(xs[1..], q, p);
      var rest := Select(xs[1..], q);
      if q(xs[0]) {
        assert Select(xs, q) == [xs[0]] + rest;
        SelectFront(xs[0], rest, p);
      } else {
        assert Select(xs, q) == rest && !p(xs[0]);
        assert Select(xs, p) == Select(xs[1..], p);
      }
    }
  }

  /** Two selections in a row are one by both conditions. */
  lemma {:induction false} SelectBoth<T(!new)>(xs: seq<T>, p: T -> bool, q: T -> bool, both: T -> bool)
    requires forall x :: both(x) == (p(x) && q(x))
    ensures Select(Select(xs, p), q) == Select(xs, both)
  {
    if xs != [] {
      var rest := Select(xs[1..], p);
      SelectBoth(xs[1..], p, q, both);
      if p(xs[0]) {
        assert Select(xs, p) == [xs[0]] + rest;
        SelectFront(xs[0], rest, q);
      } else {
        assert Select(xs, p) == rest;
      }
    }
  }

  lemma {:induction false} SameSelection<T(!new)>(xs: seq<T>, p: T -> bool, q: T -> bool)
    requires forall x :: x in xs ==> p(x) == q(x)
    ensures Select(xs, p) == Select(xs, q)
  {
    if xs != [] {
      assert xs[0] in xs;
      SameSelection(xs[1..], p, q);
    }
  }

  lemma {:induction false} SelectAll<T(!new)>(xs: seq<T>, p: T -> bool)
    requires forall x :: x in xs ==> p(x)
    ensures Select(xs, p) == xs
  {
    if xs != [] {
      SelectAll(xs[1..], p);
    }
  }

  lemma {:induction false} SelectNone<T(!new)>(xs: seq<T>, p: T -> bool)
    requires forall x :: x in xs ==> !p(x)
    ensures Select(xs, p) == []
  {
    if xs != [] {
      assert xs[0] in xs;
      SelectNone(xs[1..], p);
    }
  }

  /** Selection keeps every copy of what it selects, and makes none. */
  lemma {:induction false} SelectCount<T(!new)>(xs: seq<T>, p: T -> bool, x: T)
    ensures multiset(Select(xs, p))[x] == if p(x) then multiset(xs)[x] else 0
  {
    if xs != [] {
      SelectCount(xs[1..], p, x);
      assert xs == [xs[0]] + xs[1..];
    }
  }

  /** The k-th selected element, at its place in the list. */
  lemma {:induction false} SelectPlace<T(!new)>(xs: seq<T>, p: T -> bool, k: nat) returns (i: nat)
    requires k < |Select(xs, p)|
    ensures i < |xs| && p(xs[i]) && xs[i] == Select(xs, p)[k] && Select(xs[..i], p) == Select(xs, p)[..k]
  {
    var front, last := xs[..|xs| - 1], xs[|xs| - 1];
    assert xs == front + [last];
    SelectAppend(front, last, p);
    if k < |Select(front, p)| {
      i := SelectPlace(front, p, k);
      assert front[..i] == xs[..i];
    } else {
      i := |xs| - 1;
    }
  }

  /** Two selected elements, at their places in the list. */
  lemma {:induction false} SelectPlaces<T(!new)>(xs: seq<T>, p: T -> bool, a: nat, b: nat) returns (i: nat, j: nat)
    requires a < b < |Select(xs, p)|
    ensures i < j < |xs| && xs[i] == Select(xs, p)[a] && xs[j] == Select(xs, p)[b]
  {
    j := SelectPlace(xs, p, b);
    i := SelectPlace(xs[..j], p, a);
  }

  /** Two elements of a list that satisfy p are selected in the same order. */
  lemma {:induction false} SelectKeepsOrder<T(!new)>(xs: seq<T>, p: T -> bool, i: nat, j: nat) returns (a: nat, b: nat)
    requires i < j < |xs| && p(xs[i]) && p(xs[j])
    ensures a < b < |Select(xs, p)| && Select(xs, p)[a] == xs[i] && Select(xs, p)[b] == xs[j]
  {
    a := |Select(xs[..i], p)|;
    b := |Select(xs[..j], p)|;
    SplitAt(xs, p, i);
    SplitAt(xs, p, j);
    SplitAt(xs[..j], p, i);
    assert xs[..j][..i] == xs[..i];
  }

  lemma {:induction false} SplitAt<T(!new)>(xs: seq<T>, p: T -> bool, i: nat)
    requires i < |xs| && p(xs[i])
    ensures |Select(xs[..i], p)| < |Select(xs, p)| && Select(xs, p)[|Select(xs[..i], p)|] == xs[i]
  {
    assert xs == xs[..i] + ([xs[i]] + xs[i + 1..]);
    SelectConcat(xs[..i], [xs[i]] + xs[i + 1..], p);
    SelectFront(xs[i], xs[i + 1..], p);
  }

  lemma ConcatAssociates<T>(a: seq<T>, b: seq<T>, c: seq<T>)
    ensures a + (b + c) == a + b + c
  {
  }

  ghost predicate NoDup<T>(xs: seq<T>) {
    forall i, j :: 0 <= i < j < |xs| ==> xs[i] != xs[j]
  }
}
