/**
  Trading native misses for candidate hits (scripts/simulate_hbm_candidates.py): the replacement removes as many misses
  as the budget, the ranked candidates and the protected top allow, and no other permitted replacement hits more rows.
 */
module HitExchange {
  import opened Finite

  ghost predicate Before(ranked: seq<int>, a: int, b: int) {
    exists i, j :: 0 <= i < j < |ranked| && ranked[i] == a && ranked[j] == b
  }

  lemma BeforeSnoc(front: seq<int>, t: int)
    ensures forall a, b :: Before(front, a, b) ==> Before(front + [t], a, b)
    ensures forall a :: a in front ==> Before(front + [t], a, t)
  {
    var s := front + [t];
    forall a, b | Before(front, a, b)
      ensures Before(s, a, b)
    {
      var i, j :| 0 <= i < j < |front| && front[i] == a && front[j] == b;
      assert s[i] == a && s[j] == b;
    }
    forall a | a in front
      ensures Before(s, a, t)
    {
      var i :| 0 <= i < |front| && front[i] == a;
      assert s[i] == a && s[|front|] == t;
    }
  }

  /** Available candidates outside the native selection, best rank first. */
  function Additions(ranked: seq<int>, native: set<int>, available: set<int>): (r: seq<int>)
    ensures forall t :: t in r <==> t in ranked && t !in native && t in available
    ensures forall i, j :: 0 <= i < j < |r| ==> Before(ranked, r[i], r[j])
  {
    if ranked == [] then []
    else
      var front, t := ranked[..|ranked| - 1], ranked[|ranked| - 1];
      assert ranked == front + [t];
      BeforeSnoc(front, t);
      Additions(front, native, available) + if t !in native && t in available then [t] else []
  }

  /** Native misses ranked at protectTop or later, worst rank first. */
  function Removals(ranked: seq<int>, native: set<int>, available: set<int>, protectTop: nat): (r: seq<int>)
    ensures forall t :: t in r ==> t in ranked
    ensures forall t :: t in r <==> t in Unprotected(ranked, protectTop) && t in native && t !in available
    ensures forall i, j :: 0 <= i < j < |r| ==> Before(ranked, r[j], r[i])
  {
    if |ranked| <= protectTop then []
    else
      var front, t := ranked[..|ranked| - 1], ranked[|ranked| - 1];
      assert ranked == front + [t];
      BeforeSnoc(front, t);
      assert Unprotected(ranked, protectTop) == Unprotected(front, protectTop) + [t];
      (if t in native && t !in available then [t] else []) + Removals(front, native, available, protectTop)
  }

  function Unprotected(ranked: seq<int>, protectTop: nat): seq<int> {
    if |ranked| <= protectTop then [] else ranked[protectTop..]
  }

  function Least(a: nat, b: nat, c: nat): (m: nat)
    ensures m <= a && m <= b && m <= c && (m == a || m == b || m == c)
  {
    if a <= b && a <= c then a else if b <= c then b else c
  }

  function Members(s: seq<int>): (r: set<int>)
    ensures r == Elements(s)
  {
    set t | t in s
  }

  /** choose. */
  function Chosen(native: set<int>, ranked: seq<int>, available: set<int>, budget: nat, protectTop: nat): (set<int>,
                  nat) {
    var adds, rems := Additions(ranked, native, available), Removals(ranked, native, available, protectTop);
    var n := Least(budget, |adds|, |rems|);
    (native - Members(rems[..n]) + Members(adds[..n]), n)
  }

  datatype Counts = Counts(selected: nat, hits: nat, ready: nat, misses: int)

  /** measure. */
  function Measure(selected: set<int>, rows: set<int>, ready: set<int>): Counts {
    var hits, waiting := |selected * rows|, |(selected - rows) * ready|;
    Counts(|selected|, hits, waiting, |selected| - hits - waiting)
  }

  lemma MissesAreAbsent(selected: set<int>, rows: set<int>, ready: set<int>)
    ensures Measure(selected, rows, ready).misses == |selected - (rows + ready)|
  {
    var a, b, c := selected * rows, (selected - rows) * ready, selected - (rows + ready);
    assert selected == a + b + c;
    assert |a + b| == |a| + |b|;
    assert |a + b + c| == |a + b| + |c|;
  }

  lemma RankedDistinct(ranked: seq<int>, a: int, b: int)
    requires NoDuplicates(ranked) && Before(ranked, a, b)
    ensures a != b
  {
  }

  lemma ListsDistinct(native: set<int>, ranked: seq<int>, available: set<int>, protectTop: nat)
    requires NoDuplicates(ranked)
    ensures NoDuplicates(Additions(ranked, native, available))
    ensures NoDuplicates(Removals(ranked, native, available, protectTop))
  {
    var adds, rems := Additions(ranked, native, available), Removals(ranked, native, available, protectTop);
    forall i, j | 0 <= i < j < |adds|
      ensures adds[i] != adds[j]
    {
      RankedDistinct(ranked, adds[i], adds[j]);
    }
    forall i, j | 0 <= i < j < |rems|
      ensures rems[i] != rems[j]
    {
      RankedDistinct(ranked, rems[j], rems[i]);
    }
  }

  lemma PrefixMembers(s: seq<int>, n: nat)
    requires NoDuplicates(s) && n <= |s|
    ensures |Members(s[..n])| == n && Members(s[..n]) <= Members(s)
  {
    NoDuplicatesCard(s[..n]);
  }

  lemma ExchangeCounts(native: set<int>, rem: set<int>, add: set<int>, available: set<int>)
    requires rem <= native - available && add <= available - native && |rem| == |add|
    ensures var s := native - rem + add; |s| == |native| && |s - available| == |native - available| - |rem|
  {
    var s := native - rem + add;
    assert s - available == (native - available) - rem;
    assert |native - rem| == |native| - |rem|;
    assert |s| == |native - rem| + |add|;
  }

  /**
    The replacement keeps the size, turns exactly count misses into hits, and takes the worst removals and the best
    additions.
   */
  lemma ChoosePays(native: set<int>, ranked: seq<int>, rows: set<int>, ready: set<int>, budget: nat, protectTop: nat)
    requires NoDuplicates(ranked)
    ensures var (s, n) := Chosen(native, ranked, rows + ready, budget, protectTop);
      && |s| == |native| && n <= budget
      && Measure(s, rows, ready).misses == Measure(native, rows, ready).misses - n
      && (forall t :: t in native - s ==> t in Unprotected(ranked, protectTop) && t !in rows + ready)
      && (forall t :: t in s - native ==> t in ranked && t in rows + ready)
  {
    var available := rows + ready;
    var adds, rems := Additions(ranked, native, available), Removals(ranked, native, available, protectTop);
    var n := Least(budget, |adds|, |rems|);
    ListsDistinct(native, ranked, available, protectTop);
    PrefixMembers(adds, n);
    PrefixMembers(rems, n);
    ExchangeCounts(native, Members(rems[..n]), Members(adds[..n]), available);
    MissesAreAbsent(native, rows, ready);
    MissesAreAbsent(Chosen(native, ranked, available, budget, protectTop).0, rows, ready);
  }

  /**
    Every row taken out ranks behind every removable row kept, and every row brought in ranks before every addable row
    left out.
   */
  lemma ChoosePrefers(native: set<int>, ranked: seq<int>, available: set<int>, budget: nat, protectTop: nat, t: int,
                      u: int)
    requires NoDuplicates(ranked)
    ensures var s := Chosen(native, ranked, available, budget, protectTop).0;
      && (t in native - s && u in native * s && u !in available && u in Unprotected(ranked, protectTop) ==>
           Before(ranked, u, t))
      && (t in s - native && u in available - native - s && u in ranked ==> Before(ranked, t, u))
  {
    var adds, rems := Additions(ranked, native, available), Removals(ranked, native, available, protectTop);
    var n := Least(budget, |adds|, |rems|);
    ListsDistinct(native, ranked, available, protectTop);
    var s := Chosen(native, ranked, available, budget, protectTop).0;
    if t in native - s && u in native * s && u !in available && u in Unprotected(ranked, protectTop) {
      TakenFirst(rems, n, t, u);
    }
    if t in s - native && u in available - native - s && u in ranked {
      TakenFirst(adds, n, t, u);
    }
  }

  lemma TakenFirst(s: seq<int>, n: nat, t: int, u: int)
    requires n <= |s| && t in s[..n] && u in s && u !in s[..n]
    ensures exists i, j :: 0 <= i < j < |s| && s[i] == t && s[j] == u
  {
    var i :| 0 <= i < n && s[..n][i] == t;
    var j :| 0 <= j < |s| && s[j] == u;
    assert forall m :: 0 <= m < n ==> s[..n][m] == s[m];
    assert s[i] == t && i < j;
  }

  /**
    A replacement the rules permit: same size, only unprotected misses leave, only ranked candidates enter, within the
    budget.
   */
  ghost predicate Permitted(s: set<int>, native: set<int>, ranked: seq<int>, available: set<int>, budget: nat,
                            protectTop: nat) {
    && |s| == |native| && |native - s| <= budget
    && (forall t :: t in native - s ==> t in Unprotected(ranked, protectTop) && t !in available)
    && (forall t :: t in s - native ==> t in ranked)
  }

  lemma SameSizeSameTrade(s: set<int>, native: set<int>)
    requires |s| == |native|
    ensures |s - native| == |native - s|
  {
    assert s == s * native + (s - native) && native == s * native + (native - s);
    assert |s * native + (s - native)| == |s * native| + |s - native|;
    assert |s * native + (native - s)| == |s * native| + |native - s|;
  }

  /** No permitted replacement has fewer misses than the chosen one. */
  lemma ChooseBest(s: set<int>, native: set<int>, ranked: seq<int>, rows: set<int>, ready: set<int>, budget: nat,
                   protectTop: nat)
    requires NoDuplicates(ranked) && Permitted(s, native, ranked, rows + ready, budget, protectTop)
    ensures Measure(Chosen(native, ranked, rows + ready, budget, protectTop).0, rows, ready).misses <=
      Measure(s, rows, ready).misses
  {
    hide Permitted, Additions, Removals;
    ChoosePays(native, ranked, rows, ready, budget, protectTop);
    MissesAreAbsent(native, rows, ready);
    MissesAreAbsent(s, rows, ready);
    RivalLimits(s, native, ranked, rows + ready, budget, protectTop);
    hide Measure;
  }

  /** A permitted replacement gains no more hits than the chosen one's count. */
  lemma RivalLimits(s: set<int>, native: set<int>, ranked: seq<int>, available: set<int>, budget: nat, protectTop: nat)
    requires NoDuplicates(ranked) && Permitted(s, native, ranked, available, budget, protectTop)
    ensures |native - available| - |s - available| <= Chosen(native, ranked, available, budget, protectTop).1
  {
    var adds, rems := Additions(ranked, native, available), Removals(ranked, native, available, protectTop);
    forall t | t in native && t !in s
      ensures t in Members(rems) && t !in available
    {
      assert t in native - s;
    }
    forall t | t in s && t !in native && t in available
      ensures t in Members(adds)
    {
      assert t in s - native;
    }
    ListsDistinct(native, ranked, available, protectTop);
    hide Additions, Removals, Members;
    NoDuplicatesCard(adds);
    NoDuplicatesCard(rems);
    SubsetCard(native - s, Members(rems));
    SubsetCard((s - native) * available, Members(adds));
    SameSizeSameTrade(s, native);
    RivalMisses(s, native, available);
  }

  lemma RivalMisses(s: set<int>, native: set<int>, available: set<int>)
    requires |s| == |native| && (native - s) * available == {}
    ensures |native - available| - |s - available| <= |(s - native) * available|
    ensures |(s - native) * available| <= |s - native|
  {
    SameSizeSameTrade(s, native);
    var a, b, c := (s - native) * available, (s - native) - available, (s * native) - available;
    assert s - native == a + b && |a + b| == |a| + |b|;
    assert s - available == b + c && |b + c| == |b| + |c|;
    assert native - available == c + (native - s) && |c + (native - s)| == |c| + |native - s|;
  }
}
