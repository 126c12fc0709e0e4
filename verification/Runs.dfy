/** Runs of consecutive free units (pages of an arena, bytes of a chunk) and the lowest such run. */
module Runs {
  import opened Finite

  ghost predicate Within(i: nat, p: nat, n: nat) {
    p <= i < p + n
  }

  ghost function Range(p: nat, n: nat): (r: set<nat>)
    ensures forall i :: i in r <==> p <= i < p + n
  {
    set i: nat | i < p + n && Within(i, p, n)
  }

  lemma {:induction false} RangeCard(p: nat, n: nat)
    ensures |Range(p, n)| == n
  {
    if n > 0 {
      RangeCard(p, n - 1);
      assert Range(p, n) == Range(p, n - 1) + {p + n - 1};
    }
  }

  ghost predicate RunAt(free: set<nat>, n: nat, p: nat) {
    forall i :: p <= i < p + n ==> i in free
  }

  /** p is the lowest page at which n free pages out of total start. */
  ghost predicate LowestRun(free: set<nat>, total: nat, n: nat, p: nat) {
    p < total && p + n <= total && RunAt(free, n, p) && forall q :: 0 <= q < p ==> !RunAt(free, n, q)
  }

  ghost predicate NoRun(free: set<nat>, n: nat) {
    forall q: nat :: !RunAt(free, n, q)
  }

  /** The first run of n free pages among total pages, looked for page by page; total when there is none. */
  ghost function FirstRun(free: set<nat>, total: nat, n: nat, p: nat): (r: nat)
    requires p <= total
    ensures r <= total
    decreases total - p
  {
    if p + n > total || p == total then total else if RunAt(free, n, p) then p else FirstRun(free, total, n, p + 1)
  }

  /** FirstRun finds a run exactly when one exists, and then the lowest. */
  lemma {:induction false} FirstRunIs(free: set<nat>, total: nat, n: nat, p: nat)
    requires p <= total
    ensures var r := FirstRun(free, total, n, p);
      && (r < total ==> p <= r && r + n <= total && RunAt(free, n, r))
      && (forall q :: p <= q < r && q + n <= total ==> !RunAt(free, n, q))
    decreases total - p
  {
    if p + n <= total && p < total && !RunAt(free, n, p) {
      FirstRunIs(free, total, n, p + 1);
    }
  }

  lemma {:induction false} FirstRunUnique(free: set<nat>, total: nat, n: nat, p: nat, r: nat)
    requires p <= r < total && r + n <= total && RunAt(free, n, r)
    requires forall q :: p <= q < r ==> !RunAt(free, n, q)
    ensures FirstRun(free, total, n, p) == r
    decreases r - p
  {
    if p < r {
      FirstRunUnique(free, total, n, p + 1, r);
    }
  }

  /** Pages p..r start no run, so the search may go on after them. */
  lemma {:induction false} FirstRunSkip(free: set<nat>, total: nat, n: nat, p: nat, r: nat)
    requires p <= r <= total && forall q :: p <= q < r ==> !RunAt(free, n, q)
    ensures FirstRun(free, total, n, p) == FirstRun(free, total, n, r)
    decreases r - p
  {
    if p < r && p + n <= total {
      FirstRunSkip(free, total, n, p + 1, r);
    }
  }

  lemma RunNeedsPages(free: set<nat>, n: nat, p: nat)
    requires RunAt(free, n, p)
    ensures n <= |free|
  {
    RangeCard(p, n);
    SubsetCard(Range(p, n), free);
  }
}
