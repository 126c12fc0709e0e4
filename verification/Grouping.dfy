/** How the I/O engine cuts a batch into groups, one per execution queue (bmpclient/concurrent_io.py). */
module Grouping {
  import opened Finite

  datatype Config = Config(queues: nat, workers: nat, limited: bool, limit: nat) {
    /** The constructor's checks. */
    predicate Ok() {
      queues >= 1 && workers >= 1 && (limited ==> limit >= 1)
    }
    /** Worker threads per queue. */
    function Slots(): nat {
      if queues > 1 then 1 else workers
    }
    /** Sharding key of the request at a position. */
    function Key(items: seq<nat>, idx: nat): nat
      requires Ok() && idx < |items|
    {
      if queues > 1 then items[idx] % queues else idx % workers
    }
    /** The executor a group with this key goes to. */
    function Queue(key: nat): nat {
      if queues > 1 then key else 0
    }
  }

  /** Ascending positions below n, all with one key. */
  ghost predicate GoodGroup(g: seq<nat>, cfg: Config, items: seq<nat>, n: nat)
    requires cfg.Ok() && n <= |items|
  {
    && g != [] && (forall a :: 0 <= a < |g| ==> g[a] < n)
    && (forall a :: 0 <= a < |g| ==> cfg.Key(items, g[a]) == cfg.Key(items, g[0]))
    && (forall a, b :: 0 <= a < b < |g| ==> g[a] < g[b])
  }

  /** Different groups have different keys, and every position is in a group. */
  ghost predicate GoodGroups(gs: seq<seq<nat>>, cfg: Config, items: seq<nat>, n: nat)
    requires cfg.Ok() && n <= |items|
  {
    && (forall p :: 0 <= p < |gs| ==> GoodGroup(gs[p], cfg, items, n))
    && (forall p, q :: 0 <= p < q < |gs| ==> cfg.Key(items, gs[p][0]) != cfg.Key(items, gs[q][0]))
    && (forall i :: 0 <= i < n ==> InSome(gs, i))
  }

  ghost predicate InSome(gs: seq<seq<nat>>, i: nat) {
    exists p :: 0 <= p < |gs| && i in gs[p]
  }

  /** The group with a key, or the number of groups. */
  function Find(gs: seq<seq<nat>>, cfg: Config, items: seq<nat>, key: nat): (p: nat)
    requires cfg.Ok() && forall q :: 0 <= q < |gs| ==> gs[q] != [] && gs[q][0] < |items|
    ensures p <= |gs| && (p < |gs| ==> cfg.Key(items, gs[p][0]) == key)
    ensures forall q :: 0 <= q < p ==> cfg.Key(items, gs[q][0]) != key
    decreases |gs|
  {
    if gs == [] then 0
    else
      var front := gs[..|gs| - 1];
      var p := Find(front, cfg, items, key);
      if p < |front| || cfg.Key(items, gs[|gs| - 1][0]) == key then p else |gs|
  }

  /** The groups of the first n positions, in order of first use. */
  function Groups(cfg: Config, items: seq<nat>, n: nat): (gs: seq<seq<nat>>)
    requires cfg.Ok() && n <= |items|
    ensures GoodGroups(gs, cfg, items, n)
  {
    if n == 0 then []
    else
      var gs := Groups(cfg, items, n - 1);
      var p := Find(gs, cfg, items, cfg.Key(items, n - 1));
      AddKeeps(gs, cfg, items, n, p);
      Added(gs, n - 1, p)
  }

  /** groups[pos].append, opening a new group when the key is new. */
  function Added(gs: seq<seq<nat>>, i: nat, p: nat): seq<seq<nat>>
    requires p <= |gs|
  {
    if p < |gs| then gs[p := gs[p] + [i]] else gs + [[i]]
  }

  /** The dictionary from key to group position that the submit loop keeps. */
  ghost predicate Indexes(groupOf: map<nat, nat>, gs: seq<seq<nat>>, cfg: Config, items: seq<nat>, n: nat)
    requires cfg.Ok() && n <= |items| && GoodGroups(gs, cfg, items, n)
  {
    && (forall p :: 0 <= p < |gs| ==>
         GoodGroup(gs[p], cfg, items, n) && cfg.Key(items, gs[p][0]) in groupOf &&
         groupOf[cfg.Key(items, gs[p][0])] == p)
    && (forall k :: k in groupOf ==>
         groupOf[k] < |gs| && GoodGroup(gs[groupOf[k]], cfg, items, n) && cfg.Key(items, gs[groupOf[k]][0]) == k)
  }

  lemma IndexFinds(groupOf: map<nat, nat>, gs: seq<seq<nat>>, cfg: Config, items: seq<nat>, n: nat, key: nat)
    requires cfg.Ok() && n <= |items| && GoodGroups(gs, cfg, items, n) && Indexes(groupOf, gs, cfg, items, n)
    ensures Find(gs, cfg, items, key) == if key in groupOf then groupOf[key] else |gs|
    ensures key in groupOf ==> groupOf[key] < |gs|
  {
    hide Config.Key;
    var p := Find(gs, cfg, items, key);
    if key in groupOf {
      assert cfg.Key(items, gs[groupOf[key]][0]) == key && p < |gs|;
      assert groupOf[cfg.Key(items, gs[p][0])] == p;
    } else if p < |gs| {
      assert false;
    }
  }

  lemma IndexEmpty(cfg: Config, items: seq<nat>)
    requires cfg.Ok()
    ensures Groups(cfg, items, 0) == [] && GoodGroups([], cfg, items, 0) && Indexes(map[], [], cfg, items, 0)
  {
  }

  /** The submit loop's grouping. */
  method MakeGroups(cfg: Config, items: seq<nat>) returns (gs: seq<seq<nat>>)
    requires cfg.Ok()
    ensures gs == Groups(cfg, items, |items|)
  {
    IndexEmpty(cfg, items);
    hide Config.Key, GoodGroups, Indexes, Find, Groups, Added;
    gs := [];
    var groupOf: map<nat, nat> := map[];
    for idx := 0 to |items|
      invariant gs == Groups(cfg, items, idx) && GoodGroups(gs, cfg, items, idx)
      invariant Indexes(groupOf, gs, cfg, items, idx)
    {
      var key := cfg.Key(items, idx);
      IndexFinds(groupOf, gs, cfg, items, idx, key);
      IndexAdded(groupOf, gs, cfg, items, idx);
      gs, groupOf := AddOne(gs, groupOf, key, idx);
    }
  }

  method AddOne(gs: seq<seq<nat>>, groupOf: map<nat, nat>, key: nat, idx: nat)
    returns (more: seq<seq<nat>>, of: map<nat, nat>)
    requires key in groupOf ==> groupOf[key] < |gs|
    ensures more == Added(gs, idx, if key in groupOf then groupOf[key] else |gs|)
    ensures of == if key in groupOf then groupOf else groupOf[key := |gs|]
  {
    if key !in groupOf {
      of := groupOf[key := |gs|];
      more := gs + [[idx]];
    } else {
      var pos := groupOf[key];
      of := groupOf;
      more := gs[pos := gs[pos] + [idx]];
    }
  }

  lemma IndexAdded(groupOf: map<nat, nat>, gs: seq<seq<nat>>, cfg: Config, items: seq<nat>, idx: nat)
    requires cfg.Ok() && idx < |items| && gs == Groups(cfg, items, idx) && Indexes(groupOf, gs, cfg, items, idx)
    ensures var key := cfg.Key(items, idx);
      && GoodGroups(Groups(cfg, items, idx + 1), cfg, items, idx + 1)
      && Groups(cfg, items, idx + 1) == Added(gs, idx, if key in groupOf then groupOf[key] else |gs|)
      && Indexes(if key in groupOf then groupOf else groupOf[key := |gs|],
                 Groups(cfg, items, idx + 1), cfg, items, idx + 1)
  {
    var key := cfg.Key(items, idx);
    IndexFinds(groupOf, gs, cfg, items, idx, key);
    NextGroups(cfg, items, idx);
    hide Config.Key, Groups, Added, Find;
    NextIndexes(groupOf, gs, cfg, items, idx);
  }

  lemma NextGroups(cfg: Config, items: seq<nat>, idx: nat)
    requires cfg.Ok() && idx < |items|
    ensures var gs := Groups(cfg, items, idx);
      && GoodGroups(gs, cfg, items, idx) && GoodGroups(Groups(cfg, items, idx + 1), cfg, items, idx + 1)
      && Groups(cfg, items, idx + 1) == Added(gs, idx, Find(gs, cfg, items, cfg.Key(items, idx)))
  {
    hide Config.Key, Added;
  }

  lemma NextIndexes(groupOf: map<nat, nat>, gs: seq<seq<nat>>, cfg: Config, items: seq<nat>, idx: nat)
    requires cfg.Ok() && idx < |items| && GoodGroups(gs, cfg, items, idx) && Indexes(groupOf, gs, cfg, items, idx)
    requires var key := cfg.Key(items, idx); key in groupOf ==> groupOf[key] < |gs|
    requires var key := cfg.Key(items, idx);
      GoodGroups(Added(gs, idx, if key in groupOf then groupOf[key] else |gs|), cfg, items, idx + 1)
    ensures var key := cfg.Key(items, idx);
      Indexes(if key in groupOf then groupOf else groupOf[key := |gs|],
              Added(gs, idx, if key in groupOf then groupOf[key] else |gs|), cfg, items, idx + 1)
  {
    hide Config.Key, GoodGroup;
    var key := cfg.Key(items, idx);
    var p := if key in groupOf then groupOf[key] else |gs|;
    var next := Added(gs, idx, p);
    forall q | 0 <= q < |next|
      ensures GoodGroup(next[q], cfg, items, idx + 1) && next[q] != []
      ensures q < |gs| ==> gs[q] != [] && next[q][0] == gs[q][0]
      ensures q >= |gs| ==> next[q][0] == idx
    {
      FirstOf(gs, cfg, items, idx, p, q);
    }
  }

  lemma FirstOf(gs: seq<seq<nat>>, cfg: Config, items: seq<nat>, idx: nat, p: nat, q: nat)
    requires cfg.Ok() && idx < |items| && GoodGroups(gs, cfg, items, idx) && p <= |gs| && q < |Added(gs, idx, p)|
    requires GoodGroups(Added(gs, idx, p), cfg, items, idx + 1)
    ensures var next := Added(gs, idx, p);
      && GoodGroup(next[q], cfg, items, idx + 1) && next[q] != []
      && (q < |gs| ==> gs[q] != [] && next[q][0] == gs[q][0]) && (q >= |gs| ==> next[q][0] == idx)
  {
    hide Config.Key;
    assert GoodGroup(Added(gs, idx, p)[q], cfg, items, idx + 1);
    assert q < |gs| ==> GoodGroup(gs[q], cfg, items, idx);
  }

  lemma AddKeeps(gs: seq<seq<nat>>, cfg: Config, items: seq<nat>, n: nat, p: nat)
    requires cfg.Ok() && 0 < n <= |items| && GoodGroups(gs, cfg, items, n - 1)
    requires p == Find(gs, cfg, items, cfg.Key(items, n - 1))
    ensures GoodGroups(Added(gs, n - 1, p), cfg, items, n)
  {
    hide Config.Key, GoodGroup;
    var r := Added(gs, n - 1, p);
    forall q | 0 <= q < |r|
      ensures GoodGroup(r[q], cfg, items, n)
    {
      AddedGood(gs, cfg, items, n, p, q);
    }
    forall q, t | 0 <= q < t < |r|
      ensures r[q] != [] && r[t] != [] && r[q][0] < n && r[t][0] < n
      ensures cfg.Key(items, r[q][0]) != cfg.Key(items, r[t][0])
    {
      AddedGood(gs, cfg, items, n, p, q);
      AddedGood(gs, cfg, items, n, p, t);
    }
    AddedCovers(gs, n - 1, p);
  }

  lemma AddedGood(gs: seq<seq<nat>>, cfg: Config, items: seq<nat>, n: nat, p: nat, q: nat)
    requires cfg.Ok() && 0 < n <= |items| && GoodGroups(gs, cfg, items, n - 1)
    requires p == Find(gs, cfg, items, cfg.Key(items, n - 1)) && q < |Added(gs, n - 1, p)|
    ensures var r := Added(gs, n - 1, p);
      GoodGroup(r[q], cfg, items, n) && r[q] != [] && r[q][0] < n && r[q][0] == (if q < |gs| then gs[q][0] else n - 1)
  {
    hide Config.Key;
    assert q < |gs| ==> GoodGroup(gs[q], cfg, items, n - 1);
  }

  lemma AddedCovers(gs: seq<seq<nat>>, m: nat, p: nat)
    requires p <= |gs| && forall i :: 0 <= i < m ==> InSome(gs, i)
    ensures forall i :: 0 <= i <= m ==> InSome(Added(gs, m, p), i)
  {
    var r := Added(gs, m, p);
    forall i | 0 <= i <= m
      ensures InSome(r, i)
    {
      if i == m {
        assert i in r[p];
      } else {
        assert InSome(gs, i);
        var q :| 0 <= q < |gs| && i in gs[q];
        assert i in r[q];
      }
    }
  }

  /**
    Two requests share a group exactly when, with several queues, their chunks agree modulo the number of queues; with
    one queue, when their positions agree modulo the number of workers.
   */
  lemma SharesGroupIff(cfg: Config, items: seq<nat>, n: nat, p: nat, q: nat, i: nat, j: nat)
    requires cfg.Ok() && n <= |items| && p < |Groups(cfg, items, n)| && q < |Groups(cfg, items, n)|
    requires i in Groups(cfg, items, n)[p] && j in Groups(cfg, items, n)[q]
    ensures i < n && j < n
    ensures p == q <==>
      if cfg.queues > 1 then items[i] % cfg.queues == items[j] % cfg.queues else i % cfg.workers == j % cfg.workers
  {
    var gs := Groups(cfg, items, n);
    assert GoodGroup(gs[p], cfg, items, n) && GoodGroup(gs[q], cfg, items, n);
    assert cfg.Key(items, i) == cfg.Key(items, gs[p][0]) && cfg.Key(items, j) == cfg.Key(items, gs[q][0]);
  }

  /** Groups stand in the order of their first requests. */
  lemma {:induction false} FirstUseOrder(cfg: Config, items: seq<nat>, n: nat, p: nat, q: nat)
    requires cfg.Ok() && n <= |items| && p < q < |Groups(cfg, items, n)|
    ensures var gs := Groups(cfg, items, n); gs[p] != [] && gs[q] != [] && gs[p][0] < gs[q][0]
  {
    hide Config.Key;
    var gs := Groups(cfg, items, n - 1);
    var k := Find(gs, cfg, items, cfg.Key(items, n - 1));
    AddedGood(gs, cfg, items, n, k, p);
    AddedGood(gs, cfg, items, n, k, q);
    assert GoodGroup(gs[p], cfg, items, n - 1);
    if q < |gs| {
      FirstUseOrder(cfg, items, n - 1, p, q);
    }
  }

  /** Requests in the groups from p on. */
  function SizeFrom(gs: seq<seq<nat>>, p: nat): nat
    requires p <= |gs|
    decreases |gs| - p
  {
    if p == |gs| then 0 else |gs[p]| + SizeFrom(gs, p + 1)
  }

  lemma {:induction false} SizeAdded(gs: seq<seq<nat>>, i: nat, p: nat, q: nat)
    requires p <= |gs| && q <= |gs|
    ensures SizeFrom(Added(gs, i, p), q) == SizeFrom(gs, q) + if q <= p then 1 else 0
    decreases |gs| - q
  {
    if q < |gs| {
      SizeAdded(gs, i, p, q + 1);
    }
  }

  /** Every request is in exactly one group. */
  lemma {:induction false} SizeAll(cfg: Config, items: seq<nat>, n: nat)
    requires cfg.Ok() && n <= |items|
    ensures SizeFrom(Groups(cfg, items, n), 0) == n
  {
    if n > 0 {
      SizeAll(cfg, items, n - 1);
      var gs := Groups(cfg, items, n - 1);
      SizeAdded(gs, n - 1, Find(gs, cfg, items, cfg.Key(items, n - 1)), 0);
    }
  }

  /** Positions in the groups from p on. */
  ghost function OwedFrom(gs: seq<seq<nat>>, p: nat): set<nat>
    requires p <= |gs|
    decreases |gs| - p
  {
    if p == |gs| then {} else Elements(gs[p]) + OwedFrom(gs, p + 1)
  }

  lemma {:induction false} OwedIs(gs: seq<seq<nat>>, p: nat, i: nat)
    requires p <= |gs|
    ensures i in OwedFrom(gs, p) <==> exists q :: p <= q < |gs| && i in gs[q]
    decreases |gs| - p
  {
    if p < |gs| {
      OwedIs(gs, p + 1, i);
    }
  }

  /** A group shares no position with the later ones. */
  lemma GroupApart(gs: seq<seq<nat>>, cfg: Config, items: seq<nat>, n: nat, p: nat)
    requires cfg.Ok() && n <= |items| && GoodGroups(gs, cfg, items, n) && p < |gs|
    ensures Elements(gs[p]) !! OwedFrom(gs, p + 1) && NoDuplicates(gs[p]) && gs[p] != []
  {
    hide Config.Key;
    assert GoodGroup(gs[p], cfg, items, n);
    forall i | i in Elements(gs[p])
      ensures i !in OwedFrom(gs, p + 1)
    {
      OwedIs(gs, p + 1, i);
      forall q | p + 1 <= q < |gs|
        ensures i !in gs[q]
      {
        assert GoodGroup(gs[q], cfg, items, n);
        assert cfg.Key(items, gs[p][0]) != cfg.Key(items, gs[q][0]);
      }
    }
  }

  lemma OwedAll(cfg: Config, items: seq<nat>)
    requires cfg.Ok()
    ensures OwedFrom(Groups(cfg, items, |items|), 0) == Below(|items|)
  {
    hide Config.Key;
    var gs := Groups(cfg, items, |items|);
    forall i: nat
      ensures i in OwedFrom(gs, 0) <==> i < |items|
    {
      OwedIs(gs, 0, i);
      if i < |items| {
        assert InSome(gs, i);
      }
      assert forall q :: 0 <= q < |gs| ==> GoodGroup(gs[q], cfg, items, |items|);
    }
  }
}
