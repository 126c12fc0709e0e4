/** Python's sorted(set(...)) on integers: the one strictly ascending list of a set's elements. */
module Sorting {
  import opened Finite

  ghost predicate Ascending(s: seq<int>) {
    forall i, j :: 0 <= i < j < |s| ==> s[i] < s[j]
  }

  ghost function Max(s: set<int>): (m: int)
    requires s != {}
    ensures m in s && forall x :: x in s ==> x <= m
    decreases |s|
  {
    var x := Pick(s);
    var rest := s - {x};
    assert forall y :: y in s ==> y == x || y in rest;
    if rest == {} then x else if Max(rest) < x then x else Max(rest)
  }

  /** The elements of s in ascending order. */
  ghost function Sorted(s: set<int>): (r: seq<int>)
    ensures Ascending(r) && Elements(r) == s && |r| == |s|
    decreases |s|
  {
    if s == {} then []
    else
      var m := Max(s);
      var rest := Sorted(s - {m});
      SortedStep(s, m, rest);
      rest + [m]
  }

  lemma SortedStep(s: set<int>, m: int, rest: seq<int>)
    requires m in s && (forall x :: x in s ==> x <= m) && Ascending(rest) && Elements(rest) == s - {m}
    ensures Ascending(rest + [m]) && Elements(rest + [m]) == s
  {
    AscendingSnoc(rest, m);
  }

  lemma AscendingSnoc(s: seq<int>, m: int)
    requires Ascending(s) && forall x :: x in Elements(s) ==> x < m
    ensures Ascending(s + [m]) && Elements(s + [m]) == Elements(s) + {m}
  {
    forall i | 0 <= i < |s|
      ensures s[i] < m
    {
      assert s[i] in Elements(s);
    }
  }

  lemma AscendingLast(s: seq<int>)
    requires Ascending(s) && s != []
    ensures var m := s[|s| - 1];
            m in Elements(s) && (forall x :: x in Elements(s) ==> x <= m) &&
            Elements(s[..|s| - 1]) == Elements(s) - {m}
  {
    assert s == s[..|s| - 1] + [s[|s| - 1]];
  }

  lemma NoElements(s: seq<int>)
    ensures s == [] <==> Elements(s) == {}
  {
    if s != [] {
      assert s[0] in Elements(s);
    }
  }

  /** A set has only one ascending list. */
  lemma {:induction false} AscendingUnique(a: seq<int>, b: seq<int>)
    requires Ascending(a) && Ascending(b) && Elements(a) == Elements(b)
    ensures a == b
    decreases |a|
  {
    if a == [] || b == [] {
      NoElements(a);
      NoElements(b);
    } else {
      AscendingLast(a);
      AscendingLast(b);
      AscendingUnique(a[..|a| - 1], b[..|b| - 1]);
      assert a == a[..|a| - 1] + [a[|a| - 1]];
      assert b == b[..|b| - 1] + [b[|b| - 1]];
    }
  }

  /** Position of x in an ascending list, or where it would go. */
  method Place(s: seq<int>, x: int) returns (k: nat)
    requires Ascending(s)
    ensures k <= |s|
    ensures forall i :: 0 <= i < k ==> s[i] < x
    ensures forall i :: k <= i < |s| ==> x <= s[i]
  {
    k := 0;
    while k < |s| && s[k] < x
      invariant k <= |s|
      invariant forall i :: 0 <= i < k ==> s[i] < x
    {
      k := k + 1;
    }
  }

  /** The elements of a set in some order. */
  method Listed(s: set<int>) returns (xs: seq<int>)
    ensures Elements(xs) == s
  {
    var rest := s;
    xs := [];
    while rest != {}
      invariant rest <= s && Elements(xs) == s - rest
      decreases |rest|
    {
      var t := Choose(rest);
      assert Elements(xs + [t]) == Elements(xs) + {t};
      xs, rest := xs + [t], rest - {t};
    }
  }

  /** sorted(set(xs)). */
  method SortDistinct(xs: seq<int>) returns (r: seq<int>)
    ensures Ascending(r)
    ensures Elements(r) == Elements(xs)
  {
    r := [];
    for i := 0 to |xs|
      invariant Ascending(r)
      invariant Elements(r) == Elements(xs[..i])
    {
      assert xs[..i + 1] == xs[..i] + [xs[i]];
      assert Elements(xs[..i + 1]) == Elements(xs[..i]) + {xs[i]};
      var k := Place(r, xs[i]);
      if k == |r| || r[k] != xs[i] {
        ghost var before := r;
        r := r[..k] + [xs[i]] + r[k..];
        assert before == before[..k] + before[k..];
        assert Elements(r) == Elements(before) + {xs[i]};
      } else {
        assert xs[i] in Elements(r);
      }
    }
    assert xs[..|xs|] == xs;
  }
}
