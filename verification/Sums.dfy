/** Sums over finite sets. */
module Sums {
  import opened Finite

  ghost function Sum<T>(s: set<T>, f: T -> int): int
    decreases |s|
  {
    if s == {} then 0
    else
      var x := Pick(s);
      f(x) + Sum(s - {x}, f)
  }

  lemma {:induction false} SumRemove<T>(s: set<T>, f: T -> int, x: T)
    requires x in s
    ensures Sum(s, f) == f(x) + Sum(s - {x}, f)
    decreases |s|
  {
    var y := Pick(s);
    if y != x {
      SumRemove(s - {y}, f, x);
      SumRemove(s - {x}, f, y);
      assert s - {y} - {x} == s - {x} - {y};
    }
  }

  /** Pointwise relation of three summands. */
  lemma {:induction false} SumLinear<T>(s: set<T>, f: T -> int, g: T -> int, h: T -> int)
    requires forall x :: x in s ==> f(x) == g(x) + h(x)
    ensures Sum(s, f) == Sum(s, g) + Sum(s, h)
    decreases |s|
  {
    if s != {} {
      var x := Pick(s);
      SumLinear(s - {x}, f, g, h);
    }
  }

  lemma {:induction false} SumSame<T>(s: set<T>, f: T -> int, g: T -> int)
    requires forall x :: x in s ==> f(x) == g(x)
    ensures Sum(s, f) == Sum(s, g)
    decreases |s|
  {
    if s != {} {
      SumSame(s - {Pick(s)}, f, g);
    }
  }

  /** Arguments where the summand is zero do not matter. */
  lemma {:induction false} SumSupport<T>(s: set<T>, t: set<T>, f: T -> int)
    requires s <= t && forall x :: x in t && x !in s ==> f(x) == 0
    ensures Sum(t, f) == Sum(s, f)
    decreases |t - s|
  {
    if t - s == {} {
      assert s == t;
    } else {
      var x := Pick(t - s);
      SumSupport(s, t - {x}, f);
      SumRemove(t, f, x);
    }
  }

  // ---------- sums over sequences ----------

  ghost function Total<T>(s: seq<T>, f: T -> int): int
    decreases |s|
  {
    if s == [] then 0 else Total(s[..|s| - 1], f) + f(s[|s| - 1])
  }

  lemma TotalSnoc<T>(s: seq<T>, x: T, f: T -> int)
    ensures Total(s + [x], f) == Total(s, f) + f(x)
  {
    assert (s + [x])[..|s|] == s;
  }

  lemma {:induction false} TotalUpdate<T>(s: seq<T>, i: nat, x: T, f: T -> int)
    requires i < |s|
    ensures Total(s[i := x], f) == Total(s, f) - f(s[i]) + f(x)
    decreases |s|
  {
    var n := |s| - 1;
    if i < n {
      TotalUpdate(s[..n], i, x, f);
      assert s[i := x][..n] == s[..n][i := x];
    } else {
      assert s[i := x][..n] == s[..n];
    }
  }

  lemma {:induction false} TotalMono<T>(s: seq<T>, f: T -> int, g: T -> int)
    requires forall i :: 0 <= i < |s| ==> f(s[i]) <= g(s[i])
    ensures Total(s, f) <= Total(s, g)
    decreases |s|
  {
    if s != [] {
      TotalMono(s[..|s| - 1], f, g);
    }
  }
}
