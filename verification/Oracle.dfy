/**
  The replay oracle's per-record decision (scripts/mqsim_ppa_oracle.py) and its contract guard: a strategy may only
  trade native misses for other misses, so hits and read volume stay those of the native selection.
 */
module Oracle {
  import opened Finite
  import opened Selection
  import opened Sorting

  datatype Strategy = Baseline | PPAAware | RandomMatched

  datatype Decision = Decision(selected: set<int>, swaps: seq<Exchange>, before: int, after: int)

  datatype Verdict = Accepted(decision: Decision) | ContractBroken

  /** The guard every planned selection has to pass. */
  predicate Guard(native: set<int>, resident: set<int>, selected: set<int>, swaps: seq<Exchange>) {
    && |selected| == |native| && selected * resident == native * resident
    && |selected - resident| == |native - resident|
    && (forall i :: 0 <= i < |swaps| ==>
         swaps[i].drop in native - resident && swaps[i].add !in resident && swaps[i].add !in native)
  }

  ghost function DropList(ex: seq<Exchange>): (s: seq<int>)
    ensures |s| == |ex| && forall i :: 0 <= i < |ex| ==> s[i] == ex[i].drop
  {
    seq(|ex|, i requires 0 <= i < |ex| => ex[i].drop)
  }

  ghost function AddList(ex: seq<Exchange>): (s: seq<int>)
    ensures |s| == |ex| && forall i :: 0 <= i < |ex| ==> s[i] == ex[i].add
  {
    seq(|ex|, i requires 0 <= i < |ex| => ex[i].add)
  }

  /** One-to-one exchanges touch as many rows on each side as there are exchanges. */
  lemma PairCounts(ex: seq<Exchange>)
    requires OneToOne(ex)
    ensures |Drops(ex)| == |ex| && |Adds(ex)| == |ex|
  {
    NoDuplicatesCard(DropList(ex));
    NoDuplicatesCard(AddList(ex));
    assert Elements(DropList(ex)) == Drops(ex);
    assert Elements(AddList(ex)) == Adds(ex);
  }

  /** Paired exchanges pass the guard, and both sides of the pool hold at least as many rows as were exchanged. */
  lemma PairedPasses(p: Problem, ex: seq<Exchange>)
    requires p.Ok() && Paired(p, ex)
    ensures Guard(p.native, p.resident, After(p.native, ex), ex)
    ensures |ex| <= |p.Rem([])| && |ex| <= |p.Ava([])|
  {
    hide *;
    PairedGuard(p, ex);
    PoolsSuffice(p, ex);
    OnceEach(p, ex);
    PairCounts(ex);
  }

  lemma OnceEach(p: Problem, ex: seq<Exchange>)
    requires p.Ok() && Paired(p, ex)
    ensures OneToOne(ex)
  {
  }

  lemma PairedGuard(p: Problem, ex: seq<Exchange>)
    requires p.Ok() && Paired(p, ex)
    ensures Guard(p.native, p.resident, After(p.native, ex), ex)
  {
    PairCounts(ex);
    RemovableNative(p);
    hide Removable, Drops, Adds, OneToOne;
    SwapMisses(p.native, p.resident, Drops(ex), Adds(ex));
    MatchesMisses(p, ex);
  }

  lemma MatchesMisses(p: Problem, ex: seq<Exchange>)
    requires Drops(ex) <= p.native - p.resident && Adds(ex) !! p.native && Adds(ex) !! p.resident
    ensures forall i :: 0 <= i < |ex| ==> ex[i].drop in p.native - p.resident
    ensures forall i :: 0 <= i < |ex| ==> ex[i].add !in p.resident
    ensures forall i :: 0 <= i < |ex| ==> ex[i].add !in p.native
  {
    forall i | 0 <= i < |ex|
      ensures ex[i].drop in p.native - p.resident && ex[i].add !in p.resident && ex[i].add !in p.native
    {
      assert ex[i].drop in Drops(ex) && ex[i].add in Adds(ex);
    }
  }

  lemma PoolsSuffice(p: Problem, ex: seq<Exchange>)
    requires p.Ok() && Paired(p, ex)
    ensures |Drops(ex)| <= |p.Rem([])| && |Adds(ex)| <= |p.Ava([])|
  {
    hide Removable;
    NothingYet();
    assert Drops(ex) <= p.Rem([]) && Adds(ex) <= p.Ava([]);
    hide *;
    SubsetCard(Drops(ex), p.Rem([]));
    SubsetCard(Adds(ex), p.Ava([]));
  }

  lemma SwapMisses(native: set<int>, resident: set<int>, drops: set<int>, adds: set<int>)
    requires drops <= native - resident && adds !! native && adds !! resident && |drops| == |adds|
    ensures var selected := native - drops + adds;
      |selected| == |native| && |selected - resident| == |native - resident| && selected * resident == native * resident
  {
    SwapSets(native, resident, drops, adds);
    SwapCard(native, drops, adds);
    SwapCard(native - resident, drops, adds);
  }

  lemma SwapSets(native: set<int>, resident: set<int>, drops: set<int>, adds: set<int>)
    requires drops <= native - resident && adds !! native && adds !! resident
    ensures native - drops + adds - resident == native - resident - drops + adds
    ensures (native - drops + adds) * resident == native * resident
    ensures drops <= native && adds !! native - resident
  {
  }

  lemma NothingYet()
    ensures Drops([]) == {} && Adds([]) == {}
  {
  }

  lemma SwapCard(s: set<int>, drops: set<int>, adds: set<int>)
    requires drops <= s && adds !! s && |drops| == |adds|
    ensures |s - drops + adds| == |s|
  {
  }

  /** The search as a whole lowers the cost by at least one per exchange. */
  lemma {:induction false} CostFalls(p: Problem, ex: seq<Exchange>, n: nat)
    requires p.Ok() && n <= |ex| && forall i :: 0 <= i < |ex| ==> Step(p, ex, i)
    ensures Cost(p.Misses(ex[..n]), p.info) + n <= Cost(p.native - p.resident, p.info)
  {
    hide Cost;
    if n == 0 {
      NothingYet();
      assert p.Misses(ex[..0]) == p.native - p.resident;
    } else {
      CostFalls(p, ex, n - 1);
      assert Step(p, ex, n - 1);
    }
  }

  // ---------- the random control ----------

  /** What random.sample may return: n different members of the pool. */
  ghost predicate SampleOf(s: seq<int>, pool: seq<int>, n: nat) {
    |s| == n && NoDuplicates(s) && Elements(s) <= Elements(pool)
  }

  /** A sampler that works whenever the pool is large enough. */
  ghost predicate Sampler(draw: (seq<int>, nat) -> seq<int>) {
    forall pool, n: nat :: NoDuplicates(pool) && n <= |pool| ==> SampleOf(draw(pool, n), pool, n)
  }

  /** sorted(set). */
  method SortSet(s: set<int>) returns (r: seq<int>)
    ensures r == Sorted(s) && NoDuplicates(r)
  {
    var xs := Listed(s);
    r := SortDistinct(xs);
    AscendingUnique(r, Sorted(s));
  }

  /** Scored native rows outside the protected top and the resident ones: the same rows the search may remove. */
  method Eligible(p: Problem) returns (r: set<int>)
    requires p.Ok()
    ensures r == Removable(p.native, p.resident, p.score, p.protectTop)
  {
    var key := map t | t in p.score :: Rank(0, -p.score[t], t);
    var ranked := SortBy(p.score.Keys, key);
    var top := if p.protectTop <= |ranked| then ranked[..p.protectTop] else ranked;
    var protect := (set t | t in top) + p.resident;
    r := p.native * p.score.Keys - protect;
    TopRanks(p.score, ranked, key, p.protectTop, top);
    hide Ahead, SortedBy;
    assert r == Removable(p.native, p.resident, p.score, p.protectTop);
  }

  lemma TopRanks(score: Scores, ranked: seq<int>, key: map<int, Rank>, protectTop: nat, top: seq<int>)
    requires SortedBy(ranked, key) && Elements(ranked) == score.Keys
    requires key.Keys == score.Keys && forall t :: t in key ==> key[t] == Rank(0, -score[t], t)
    requires top == if protectTop <= |ranked| then ranked[..protectTop] else ranked
    ensures forall t :: t in score ==> (t in top <==> |Ahead(t, score)| < protectTop)
  {
    hide Ahead, SortedBy;
    forall i | 0 <= i < |ranked|
      ensures ranked[i] in score && |Ahead(ranked[i], score)| == i
    {
      RankIsAhead(ranked, key, score, i);
    }
    TopIsAhead(score, ranked, protectTop, top);
  }

  lemma TopIsAhead(score: Scores, ranked: seq<int>, protectTop: nat, top: seq<int>)
    requires Elements(ranked) == score.Keys
    requires forall i :: 0 <= i < |ranked| ==> ranked[i] in score && |Ahead(ranked[i], score)| == i
    requires top == if protectTop <= |ranked| then ranked[..protectTop] else ranked
    ensures forall t :: t in score ==> (t in top <==> |Ahead(t, score)| < protectTop)
  {
    hide Ahead;
    forall t | t in score
      ensures t in top <==> |Ahead(t, score)| < protectTop
    {
      assert t in Elements(ranked);
      var i :| 0 <= i < |ranked| && ranked[i] == t;
      if i < protectTop {
        assert top[i] == t;
      }
    }
  }

  /** list(zip(drops, adds)). */
  function Zip(drops: seq<int>, adds: seq<int>): (ex: seq<Exchange>)
    requires |drops| == |adds|
    ensures |ex| == |drops| && forall i :: 0 <= i < |ex| ==> ex[i] == Exchange(drops[i], adds[i])
  {
    seq(|drops|, i requires 0 <= i < |drops| => Exchange(drops[i], adds[i]))
  }

  lemma ZipPaired(p: Problem, drops: seq<int>, adds: seq<int>)
    requires p.Ok() && NoDuplicates(drops) && NoDuplicates(adds) && |drops| == |adds|
    requires Elements(drops) <= p.Rem([]) && Elements(adds) <= p.Ava([])
    ensures Paired(p, Zip(drops, adds))
    ensures After(p.native, Zip(drops, adds)) == p.native - Elements(drops) + Elements(adds)
  {
    hide Removable;
    NothingYet();
    var ex := Zip(drops, adds);
    assert Drops(ex) == Elements(drops) by {
      assert forall i :: 0 <= i < |ex| ==> ex[i].drop == drops[i];
    }
    assert Adds(ex) == Elements(adds) by {
      assert forall i :: 0 <= i < |ex| ==> ex[i].add == adds[i];
    }
  }

  /** Drops and adds are drawn from the removable and the available rows, each pool in ascending order. */
  ghost predicate Drawn(p: Problem, draw: (seq<int>, nat) -> seq<int>, swaps: seq<Exchange>) {
    var pool, extra := Sorted(Removable(p.native, p.resident, p.score, p.protectTop)),
                       Sorted(Available(p.native, p.resident, p.score));
    && |draw(pool, |swaps|)| == |draw(extra, |swaps|)| == |swaps|
    && forall i :: 0 <= i < |swaps| ==> swaps[i] == Exchange(draw(pool, |swaps|)[i], draw(extra, |swaps|)[i])
  }

  /** The random control: as many exchanges as the search made, drawn from the same two pools. */
  method RandomSwaps(p: Problem, n: nat, draw: (seq<int>, nat) -> seq<int>)
    returns (selected: set<int>, swaps: seq<Exchange>)
    requires p.Ok() && Sampler(draw) && n <= |p.Rem([])| && n <= |p.Ava([])|
    ensures Paired(p, swaps) && |swaps| == n && selected == After(p.native, swaps) && Drawn(p, draw, swaps)
  {
    NothingYet();
    var eligible := Eligible(p);
    hide Removable;
    var pool := SortSet(eligible);
    var extra := SortSet(p.score.Keys - p.native - p.resident);
    var drops, adds := draw(pool, n), draw(extra, n);
    assert SampleOf(drops, pool, n) && SampleOf(adds, extra, n);
    ZipPaired(p, drops, adds);
    swaps := Zip(drops, adds);
    selected := p.native - (set t | t in drops) + (set t | t in adds);
  }

  /**
    One record of the replay. Whatever is resident and whichever strategy runs, the guard passes; the swaps are a
    one-to-one matching within the budget. The search's swaps are those its preferences ask for, up to the budget or
    until none is left; the random control makes exactly as many.
   */
  method Decide(p: Problem, budget: nat, strategy: Strategy, draw: (seq<int>, nat) -> seq<int>) returns (v: Verdict)
    requires p.Ok() && Sampler(draw)
    ensures v.Accepted? && |v.decision.selected| == |p.native|
    ensures |v.decision.selected - p.resident| == |p.native - p.resident|
    ensures v.decision.selected * p.resident == p.native * p.resident
    ensures Paired(p, v.decision.swaps) && |v.decision.swaps| <= budget
    ensures v.decision.selected == After(p.native, v.decision.swaps)
    ensures v.decision.before == Cost(p.native - p.resident, p.info)
    ensures v.decision.after == Cost(v.decision.selected - p.resident, p.info)
    ensures strategy.Baseline? ==> v.decision.selected == p.native && v.decision.swaps == []
    ensures strategy.PPAAware? ==> SearchResult(p, budget, v.decision.swaps)
    ensures strategy.PPAAware? ==> v.decision.after + |v.decision.swaps| <= v.decision.before
    ensures strategy.RandomMatched? ==> exists ex :: SearchResult(p, budget, ex) && |v.decision.swaps| == |ex|
    ensures strategy.RandomMatched? ==> Drawn(p, draw, v.decision.swaps)
  {
    hide Cost, Paired, Guard, After, Sampler, SearchResult, Problem.Rem, Problem.Ava, Drops, Adds, Drawn, Step;
    var selected, swaps, before, final := Select(p, budget);
    Searched(p, budget, swaps);
    PairedPasses(p, swaps);
    CostFalls(p, swaps, |swaps|);
    assert swaps[..|swaps|] == swaps;
    if strategy.Baseline? {
      selected, swaps := p.native, [];
      BaselinePaired(p);
    } else if strategy.RandomMatched? {
      selected, swaps := RandomSwaps(p, |swaps|, draw);
    }
    Accepts(p, swaps);
    v := Finish(p, selected, swaps, before);
  }

  /** Paired exchanges meet every condition of the guard, and what they select has a place. */
  lemma Accepts(p: Problem, ex: seq<Exchange>)
    requires p.Ok() && Paired(p, ex)
    ensures var selected := After(p.native, ex);
      && selected <= p.info.Keys
      && |selected| == |p.native| && selected * p.resident == p.native * p.resident
      && |selected - p.resident| == |p.native - p.resident|
    ensures forall i :: 0 <= i < |ex| ==>
      ex[i].drop in p.native && ex[i].drop !in p.resident && ex[i].add !in p.resident && ex[i].add !in p.native
  {
    hide Paired, After;
    PairedPasses(p, ex);
    KnownMisses(p, ex);
  }

  lemma Searched(p: Problem, budget: nat, ex: seq<Exchange>)
    requires p.Ok() && SearchResult(p, budget, ex)
    ensures Paired(p, ex) && |ex| <= budget && forall i :: 0 <= i < |ex| ==> Step(p, ex, i)
  {
    hide Paired, Step, Stopped, Steepest, FewPlaces, Cost;
  }

  lemma BaselinePaired(p: Problem)
    requires p.Ok()
    ensures Paired(p, []) && After(p.native, []) == p.native
  {
    NothingYet();
  }

  /** The guard decides; then the cost of what will be read is reported. */
  method Finish(p: Problem, selected: set<int>, swaps: seq<Exchange>, before: int) returns (v: Verdict)
    requires selected - p.resident <= p.info.Keys
    ensures v.Accepted? <==>
      && |selected| == |p.native| && selected * p.resident == p.native * p.resident
      && |selected - p.resident| == |p.native - p.resident|
      && (forall i :: 0 <= i < |swaps| ==>
            && swaps[i].drop in p.native && swaps[i].drop !in p.resident
            && swaps[i].add !in p.resident && swaps[i].add !in p.native)
    ensures v.Accepted? ==> v.decision == Decision(selected, swaps, before, Cost(selected - p.resident, p.info))
  {
    hide Cost, Tracks;
    if !Guard(p.native, p.resident, selected, swaps) {
      return ContractBroken;
    }
    var loads := Pressure(selected - p.resident, p.info);
    ObjectiveIsCost(loads, selected - p.resident, p.info);
    var after := Objective(loads);
    v := Accepted(Decision(selected, swaps, before, after));
  }

  lemma KnownMisses(p: Problem, ex: seq<Exchange>)
    requires p.Ok() && Paired(p, ex)
    ensures After(p.native, ex) <= p.info.Keys
  {
    hide Removable;
  }

  /**
    Any two selections of the same record that the guard accepts read the same number of rows and hit the same ones.
   */
  lemma SameVolume(native: set<int>, resident: set<int>, a: set<int>, x: seq<Exchange>, b: set<int>, y: seq<Exchange>)
    requires Guard(native, resident, a, x) && Guard(native, resident, b, y)
    ensures |a| == |b| && |a - resident| == |b - resident| && a * resident == b * resident
  {
  }
}
