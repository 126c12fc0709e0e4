/** The batch LRU of scripts/ppa_selection.py and the baseline replay built on it (scripts/mqsim_ppa_oracle.py). */
module BatchLRU {
  import opened Finite
  import opened Sorting

  /** Token rows, least recently used first. */
  type Rows = seq<int>

  /** rows without the members of s, in order. */
  function Drop(rows: Rows, s: set<int>): (r: Rows)
    ensures forall x :: x in r <==> x in rows && x !in s
    ensures |r| <= |rows|
  {
    if rows == [] then []
    else
      var last := rows[|rows| - 1];
      Drop(rows[..|rows| - 1], s) + (if last in s then [] else [last])
  }

  /** The last n rows, or all of them. */
  function Latest(rows: Rows, n: nat): (r: Rows)
    ensures |r| == if n <= |rows| then n else |rows|
  {
    if n <= |rows| then rows[|rows| - n..] else rows
  }

  /** commit: the batch becomes the most recent rows; the oldest others are evicted until it fits. */
  ghost function Committed(rows: Rows, capacity: nat, batch: set<int>): Rows
    requires |batch| <= capacity
  {
    Latest(Drop(rows, batch), capacity - |batch|) + Sorted(batch)
  }

  /** Recency with nothing ever evicted. */
  ghost function Recency(rows: Rows, batch: set<int>): Rows {
    Drop(rows, batch) + Sorted(batch)
  }

  class Cache {
    const capacity: nat
    var rows: Rows

    constructor (capacity: nat)
      ensures this.capacity == capacity && rows == []
    {
      this.capacity := capacity;
      rows := [];
    }

    /** Fails, changing nothing, when the batch is larger than the cache. */
    method Commit(selected: seq<int>) returns (ok: bool)
      modifies this
      ensures ok <==> |Elements(selected)| <= capacity
      ensures rows == if ok then Committed(old(rows), capacity, Elements(selected)) else old(rows)
    {
      var sorted := SortDistinct(selected);
      AscendingUnique(sorted, Sorted(Elements(selected)));
      if |sorted| > capacity {
        return false;
      }
      var kept := PopAll(rows, selected);
      kept := Evict(kept, capacity - |sorted|);
      rows := kept + sorted;
      return true;
    }
  }

  /** Takes the batch's rows out, keeping the order of the rest. */
  method PopAll(rows: Rows, selected: seq<int>) returns (kept: Rows)
    ensures kept == Drop(rows, Elements(selected))
  {
    kept := [];
    for i := 0 to |rows|
      invariant kept == Drop(rows[..i], Elements(selected))
    {
      assert rows[..i + 1][..i] == rows[..i];
      if rows[i] !in selected {
        kept := kept + [rows[i]];
      }
    }
    assert rows[..|rows|] == rows;
  }

  /** Evicts the oldest rows until at most n are left. */
  method Evict(rows: Rows, n: nat) returns (kept: Rows)
    ensures kept == Latest(rows, n)
  {
    kept := rows;
    while |kept| > n
      invariant |kept| <= |rows| && kept == rows[|rows| - |kept|..]
      invariant n <= |rows| ==> n <= |kept|
      invariant |rows| <= n ==> |kept| == |rows|
    {
      kept := kept[1..];
    }
  }

  // ---------- the cache is the tail of the recency order ----------

  lemma DropSnoc(a: Rows, x: int, s: set<int>)
    ensures Drop(a + [x], s) == if x in s then Drop(a, s) else Drop(a, s) + [x]
  {
    assert (a + [x])[..|a|] == a;
  }

  lemma {:induction false} DropConcat(a: Rows, b: Rows, s: set<int>)
    ensures Drop(a + b, s) == Drop(a, s) + Drop(b, s)
    decreases |b|
  {
    if b == [] {
      DropConcatNone(a, s);
    } else {
      hide Drop;
      var front, x := SplitLast(b);
      DropConcat(a, front, s);
      DropConcatSnoc(a, front, x, s);
    }
  }

  lemma SplitLast(b: Rows) returns (front: Rows, x: int)
    requires b != []
    ensures b == front + [x] && |front| < |b|
  {
    front, x := b[..|b| - 1], b[|b| - 1];
  }

  lemma DropConcatNone(a: Rows, s: set<int>)
    ensures Drop(a + [], s) == Drop(a, s) + Drop([], s)
  {
    DropNone(s);
    hide Drop;
    assert a + [] == a && Drop(a, s) + [] == Drop(a, s);
  }

  lemma DropConcatSnoc(a: Rows, front: Rows, x: int, s: set<int>)
    requires Drop(a + front, s) == Drop(a, s) + Drop(front, s)
    ensures Drop(a + (front + [x]), s) == Drop(a, s) + Drop(front + [x], s)
  {
    DropSnoc(a + front, x, s);
    DropSnoc(front, x, s);
    hide Drop;
    Assoc(a, front, [x]);
    Assoc(Drop(a, s), Drop(front, s), [x]);
  }

  lemma Assoc(a: Rows, b: Rows, c: Rows)
    ensures (a + b) + c == a + (b + c)
  {
  }

  lemma DropNone(s: set<int>)
    ensures Drop([], s) == []
  {
  }

  /** Dropping a batch from distinct rows removes at most as many rows as the batch has members. */
  lemma {:induction false} DropCount(rows: Rows, s: set<int>)
    requires NoDuplicates(rows)
    ensures |rows| - |Elements(rows) * s| <= |Drop(rows, s)|
  {
    if rows != [] {
      var rest, last := rows[..|rows| - 1], rows[|rows| - 1];
      DropCount(rest, s);
      assert rows == rest + [last];
      if last in s {
        assert Elements(rows) * s == Elements(rest) * s + {last};
      } else {
        assert Elements(rows) * s == Elements(rest) * s;
      }
    }
  }

  lemma DropAtMost(rows: Rows, s: set<int>)
    requires NoDuplicates(rows)
    ensures |rows| - |s| <= |Drop(rows, s)|
  {
    DropCount(rows, s);
    SubsetCard(Elements(rows) * s, s);
  }

  lemma {:induction false} DropDistinct(rows: Rows, s: set<int>)
    requires NoDuplicates(rows)
    ensures NoDuplicates(Drop(rows, s))
  {
    if rows != [] {
      DropDistinct(rows[..|rows| - 1], s);
    }
  }

  lemma RecencyDistinct(rows: Rows, batch: set<int>)
    requires NoDuplicates(rows)
    ensures NoDuplicates(Recency(rows, batch))
  {
    DropDistinct(rows, batch);
    var d, s := Drop(rows, batch), Sorted(batch);
    forall i, j | 0 <= i < |d| && 0 <= j < |s|
      ensures d[i] != s[j]
    {
      assert d[i] in d;
      assert s[j] in Elements(s);
    }
  }

  /** Evicting before or after more history is kept makes no difference: only the latest rows matter. */
  lemma CommitLatest(all: Rows, c: nat, batch: set<int>)
    requires NoDuplicates(all) && |batch| <= c
    ensures Committed(Latest(all, c), c, batch) == Latest(Recency(all, batch), c)
  {
    hide Drop, Latest, NoDuplicates;
    DropLatest(all, c, batch);
    SortedSize(batch);
    LatestConcat(Drop(all, batch), Sorted(batch), c);
  }

  /** The rows kept when a batch is dropped from the cache are the latest kept when it is dropped from everything. */
  lemma DropLatest(all: Rows, c: nat, batch: set<int>)
    requires NoDuplicates(all) && |batch| <= c
    ensures Latest(Drop(Latest(all, c), batch), c - |batch|) == Latest(Drop(all, batch), c - |batch|)
  {
    hide Drop, Latest, NoDuplicates;
    var older := SplitLatest(all, c);
    var rows := Latest(all, c);
    SuffixDistinct(older, rows);
    DropAtMost(rows, batch);
    DropNone(batch);
    DropConcat(older, rows, batch);
    LatestOfTail(Drop(older, batch), Drop(rows, batch), c - |batch|);
  }

  /** What comes before the latest rows; nothing while they do not fill the cache. */
  lemma SplitLatest(all: Rows, c: nat) returns (older: Rows)
    ensures all == older + Latest(all, c) && (older == [] || |Latest(all, c)| == c)
  {
    older := all[..|all| - |Latest(all, c)|];
  }

  lemma SuffixDistinct(a: Rows, b: Rows)
    requires NoDuplicates(a + b)
    ensures NoDuplicates(b)
  {
    assert forall i :: 0 <= i < |b| ==> b[i] == (a + b)[|a| + i];
  }

  lemma SortedSize(batch: set<int>)
    ensures |Sorted(batch)| == |batch|
  {
  }

  /** The latest rows do not depend on older ones when there are enough, or none, of those. */
  lemma LatestOfTail(older: Rows, kept: Rows, n: nat)
    requires n <= |kept| || older == []
    ensures Latest(older + kept, n) == Latest(kept, n)
  {
    assert older == [] ==> older + kept == kept;
  }

  lemma LatestConcat(d: Rows, s: Rows, c: nat)
    requires |s| <= c
    ensures Latest(d, c - |s|) + s == Latest(d + s, c)
  {
  }

  // ---------- whole traces ----------

  /** The cache after a sequence of batches. */
  ghost function CacheRun(capacity: nat, batches: seq<set<int>>): Rows
    requires forall i :: 0 <= i < |batches| ==> |batches[i]| <= capacity
  {
    if batches == [] then []
    else Committed(CacheRun(capacity, batches[..|batches| - 1]), capacity, batches[|batches| - 1])
  }

  ghost function RecencyRun(batches: seq<set<int>>): Rows {
    if batches == [] then [] else Recency(RecencyRun(batches[..|batches| - 1]), batches[|batches| - 1])
  }

  lemma {:induction false} RecencyRunDistinct(batches: seq<set<int>>)
    ensures NoDuplicates(RecencyRun(batches))
  {
    if batches != [] {
      RecencyRunDistinct(batches[..|batches| - 1]);
      RecencyDistinct(RecencyRun(batches[..|batches| - 1]), batches[|batches| - 1]);
    }
  }

  /** After any batches, the cache holds exactly the capacity most recent rows of the unbounded recency order. */
  lemma {:induction false} CacheIsLatest(capacity: nat, batches: seq<set<int>>)
    requires forall i :: 0 <= i < |batches| ==> |batches[i]| <= capacity
    ensures CacheRun(capacity, batches) == Latest(RecencyRun(batches), capacity)
  {
    if batches != [] {
      var before := batches[..|batches| - 1];
      CacheIsLatest(capacity, before);
      RecencyRunDistinct(before);
      CommitLatest(RecencyRun(before), capacity, batches[|batches| - 1]);
    }
  }

  /** A smaller cache is always the tail of a larger one. */
  lemma SmallerIsSuffix(small: nat, large: nat, batches: seq<set<int>>)
    requires small <= large && forall i :: 0 <= i < |batches| ==> |batches[i]| <= small
    ensures CacheRun(small, batches) == Latest(CacheRun(large, batches), small)
  {
    hide CacheRun, RecencyRun, Latest;
    CacheIsLatest(small, batches);
    CacheIsLatest(large, batches);
    LatestTwice(RecencyRun(batches), small, large);
  }

  lemma LatestTwice(rows: Rows, small: nat, large: nat)
    requires small <= large
    ensures Latest(Latest(rows, large), small) == Latest(rows, small)
  {
  }

  // ---------- recency is last use ----------

  /** The last batch that uses a row; 0 if none does, counting batches from 1. */
  ghost function LastUse(batches: seq<set<int>>, x: int): (n: nat)
    ensures n <= |batches|
    ensures n > 0 ==> x in batches[n - 1]
    ensures forall i :: n <= i < |batches| ==> x !in batches[i]
  {
    if batches == [] then 0
    else if x in batches[|batches| - 1] then |batches|
    else LastUse(batches[..|batches| - 1], x)
  }

  /** Used longer ago, or in the same batch with a smaller number. */
  ghost predicate Older(batches: seq<set<int>>, x: int, y: int) {
    LastUse(batches, x) < LastUse(batches, y) || (LastUse(batches, x) == LastUse(batches, y) && x < y)
  }

  lemma {:induction false} DropKeepsOrder(rows: Rows, s: set<int>, batches: seq<set<int>>)
    requires forall i, j :: 0 <= i < j < |rows| ==> Older(batches, rows[i], rows[j])
    ensures forall i, j :: 0 <= i < j < |Drop(rows, s)| ==> Older(batches, Drop(rows, s)[i], Drop(rows, s)[j])
  {
    hide Older;
    if rows != [] {
      var front, last := rows[..|rows| - 1], rows[|rows| - 1];
      DropKeepsOrder(front, s, batches);
      var kept := Drop(front, s);
      forall i | 0 <= i < |kept|
        ensures Older(batches, kept[i], last)
      {
        assert kept[i] in front;
        var j :| 0 <= j < |front| && front[j] == kept[i];
        assert rows[j] == kept[i];
      }
    }
  }

  /** The recency order lists exactly the rows ever used, by their last use; within a batch, by number. */
  lemma {:induction false} RecencyIsLastUse(batches: seq<set<int>>)
    ensures forall x :: x in RecencyRun(batches) <==> LastUse(batches, x) > 0
    ensures forall i, j :: 0 <= i < j < |RecencyRun(batches)| ==>
      Older(batches, RecencyRun(batches)[i], RecencyRun(batches)[j])
  {
    if batches != [] {
      var n := |batches| - 1;
      var before, batch := batches[..n], batches[n];
      RecencyIsLastUse(before);
      var rows := RecencyRun(before);
      DropKeepsOrder(rows, batch, before);
      assert before + [batch] == batches;
      UsedSnoc(before, batch, Drop(rows, batch), rows);
      hide Older, LastUse, Drop;
      forall i, j | 0 <= i < j < |RecencyRun(batches)|
        ensures Older(batches, RecencyRun(batches)[i], RecencyRun(batches)[j])
      {
        OrderAfter(before, batch, Drop(rows, batch), i, j);
      }
    }
  }

  lemma UseSnoc(before: seq<set<int>>, batch: set<int>, x: int)
    ensures LastUse(before + [batch], x) == if x in batch then |before| + 1 else LastUse(before, x)
  {
    assert (before + [batch])[..|before|] == before;
  }

  lemma UsedSnoc(before: seq<set<int>>, batch: set<int>, kept: Rows, rows: Rows)
    requires forall x :: x in rows <==> LastUse(before, x) > 0
    requires forall x :: x in kept <==> x in rows && x !in batch
    ensures forall x :: x in kept + Sorted(batch) <==> LastUse(before + [batch], x) > 0
  {
    hide LastUse;
    var sorted := Sorted(batch);
    forall x
      ensures x in kept + sorted <==> LastUse(before + [batch], x) > 0
    {
      UseSnoc(before, batch, x);
      assert x in sorted <==> x in Elements(sorted);
    }
  }

  lemma OrderAfter(before: seq<set<int>>, batch: set<int>, kept: Rows, i: nat, j: nat)
    requires forall a, b :: 0 <= a < b < |kept| ==> Older(before, kept[a], kept[b])
    requires (forall x :: x in kept ==> x !in batch) && i < j < |kept + Sorted(batch)|
    ensures Older(before + [batch], (kept + Sorted(batch))[i], (kept + Sorted(batch))[j])
  {
    hide LastUse;
    var sorted := Sorted(batch);
    var r := kept + sorted;
    assert forall a :: 0 <= a < |sorted| ==> sorted[a] in Elements(sorted);
    UseSnoc(before, batch, r[i]);
    UseSnoc(before, batch, r[j]);
    if i < |kept| && j >= |kept| {
      assert kept[i] in kept && sorted[j - |kept|] in batch;
    } else if j < |kept| {
      assert kept[i] in kept && kept[j] in kept && Older(before, kept[i], kept[j]);
    }
  }

  // ---------- baseline misses ----------

  /** One record of the trace: layer, natively selected rows and the row just produced. */
  datatype Record = Record(layer: nat, native: set<int>, current: int)

  /** The batches committed to one layer's cache so far. */
  ghost function BatchesOf(records: seq<Record>, layer: nat): seq<set<int>> {
    if records == [] then []
    else
      var r := records[|records| - 1];
      BatchesOf(records[..|records| - 1], layer) + (if r.layer == layer then [r.native] else [])
  }

  /** The batches of a layer are the native sets of exactly its records, in trace order. */
  lemma {:induction false} BatchesInOrder(records: seq<Record>, layer: nat) returns (at: seq<nat>)
    ensures |at| == |BatchesOf(records, layer)|
    ensures forall j :: 0 <= j < |at| ==>
      at[j] < |records| && records[at[j]].layer == layer && BatchesOf(records, layer)[j] == records[at[j]].native
    ensures forall i, j :: 0 <= i < j < |at| ==> at[i] < at[j]
    ensures forall i :: 0 <= i < |records| && records[i].layer == layer ==> i in at
  {
    at := [];
    if records != [] {
      var n := |records| - 1;
      at := BatchesInOrder(records[..n], layer);
      if records[n].layer == layer {
        at := at + [n];
        assert at[|at| - 1] == n;
      }
    }
  }

  lemma {:induction false} BatchesFit(records: seq<Record>, layer: nat, capacity: nat)
    requires forall i :: 0 <= i < |records| ==> |records[i].native| <= capacity
    ensures forall i :: 0 <= i < |BatchesOf(records, layer)| ==> |BatchesOf(records, layer)[i]| <= capacity
  {
    if records != [] {
      BatchesFit(records[..|records| - 1], layer, capacity);
    }
  }

  /** Capacity 0 is the control without a cache; any other capacity must hold every batch. */
  ghost predicate Usable(capacity: nat, records: seq<Record>) {
    capacity == 0 || forall i :: 0 <= i < |records| ==> |records[i].native| <= capacity
  }

  /** The rows of a layer's cache, oldest first, before the next record. */
  ghost function StateOf(capacity: nat, records: seq<Record>, layer: nat): Rows
    requires Usable(capacity, records)
  {
    if capacity == 0 then []
    else
      BatchesFit(records, layer, capacity);
      CacheRun(capacity, BatchesOf(records, layer))
  }

  /** The rows a layer's cache holds before the next record. */
  ghost function Cached(capacity: nat, records: seq<Record>, layer: nat): set<int>
    requires Usable(capacity, records)
  {
    Elements(StateOf(capacity, records, layer))
  }

  lemma {:induction false} StateNext(capacity: nat, records: seq<Record>, i: nat, layer: nat)
    requires i < |records| && Usable(capacity, records[..i]) && (capacity > 0 ==> |records[i].native| <= capacity)
    ensures Usable(capacity, records[..i + 1])
    ensures StateOf(capacity, records[..i + 1], layer) ==
            (if capacity == 0 || records[i].layer != layer then StateOf(capacity, records[..i], layer)
             else Committed(StateOf(capacity, records[..i], layer), capacity, records[i].native))
  {
    BatchesNext(records, i, layer);
    hide BatchesOf, CacheRun, Committed;
    if capacity > 0 {
      BatchesFit(records[..i], layer, capacity);
      BatchesFit(records[..i + 1], layer, capacity);
      if records[i].layer == layer {
        CacheNext(capacity, BatchesOf(records[..i], layer), records[i].native);
      }
    }
  }

  lemma BatchesNext(records: seq<Record>, i: nat, layer: nat)
    requires i < |records|
    ensures records[i].layer == layer ==>
      BatchesOf(records[..i + 1], layer) == BatchesOf(records[..i], layer) + [records[i].native]
    ensures records[i].layer != layer ==> BatchesOf(records[..i + 1], layer) == BatchesOf(records[..i], layer)
  {
    assert records[..i + 1][..i] == records[..i];
  }

  lemma CacheNext(capacity: nat, before: seq<set<int>>, batch: set<int>)
    requires |batch| <= capacity && forall i :: 0 <= i < |before| ==> |before[i]| <= capacity
    ensures forall i :: 0 <= i < |before + [batch]| ==> |(before + [batch])[i]| <= capacity
    ensures CacheRun(capacity, before + [batch]) == Committed(CacheRun(capacity, before), capacity, batch)
  {
    assert (before + [batch])[..|before|] == before;
  }

  /**
    baseline_states: one cache per layer, created when first needed; the state before each record, then the record's
    native rows are committed. It ends early when a batch does not fit.
   */
  method BaselineStates(records: seq<Record>, capacity: nat) returns (ok: bool, states: seq<Rows>)
    ensures ok <==> Usable(capacity, records)
    ensures ok ==> |states| == |records|
    ensures ok ==> forall i :: 0 <= i < |records| ==>
      Usable(capacity, records[..i]) && states[i] == StateOf(capacity, records[..i], records[i].layer)
  {
    hide Committed, StateOf;
    var caches: map<nat, Cache> := map[];
    states := [];
    NoStates(capacity);
    for i := 0 to |records|
      invariant |states| == i && Usable(capacity, records[..i])
      invariant forall j :: 0 <= j < i ==>
        Usable(capacity, records[..j]) && states[j] == StateOf(capacity, records[..j], records[j].layer)
      invariant forall l :: l in caches ==> fresh(caches[l]) && caches[l].capacity == capacity
      invariant forall l, m :: l in caches && m in caches && l != m ==> caches[l] != caches[m]
      invariant forall l :: l in caches ==> caches[l].rows == StateOf(capacity, records[..i], l)
      invariant forall l :: l !in caches ==> StateOf(capacity, records[..i], l) == []
    {
      var r := records[i];
      if r.layer !in caches {
        var created := new Cache(capacity);
        caches := caches[r.layer := created];
      }
      var cache := caches[r.layer];
      states := states + [cache.rows];
      if capacity > 0 {
        var rows := Listed(r.native);
        var fits := cache.Commit(rows);
        if !fits {
          return false, states;
        }
      }
      forall l
        ensures Usable(capacity, records[..i + 1])
        ensures StateOf(capacity, records[..i + 1], l) ==
          (if capacity == 0 || r.layer != l then StateOf(capacity, records[..i], l)
           else Committed(StateOf(capacity, records[..i], l), capacity, r.native))
      {
        StateNext(capacity, records, i, l);
      }
    }
    assert records[..|records|] == records;
    return true, states;
  }

  lemma NoStates(capacity: nat)
    ensures Usable(capacity, []) && forall l :: StateOf(capacity, [], l) == []
  {
  }

  /** Rows the baseline must read over the whole trace. */
  ghost function Misses(capacity: nat, records: seq<Record>): nat
    requires Usable(capacity, records)
  {
    if records == [] then 0
    else
      var before, r := records[..|records| - 1], records[|records| - 1];
      Misses(capacity, before) + |r.native - Cached(capacity, before, r.layer) - {r.current}|
  }

  lemma CachedGrows(small: nat, large: nat, records: seq<Record>, layer: nat)
    requires small <= large && Usable(small, records) && Usable(large, records)
    ensures Cached(small, records, layer) <= Cached(large, records, layer)
  {
    if small != 0 {
      BatchesFit(records, layer, small);
      BatchesFit(records, layer, large);
      SmallerIsSuffix(small, large, BatchesOf(records, layer));
    }
  }

  /** Baseline misses never rise with capacity. */
  lemma {:induction false} MissesFall(small: nat, large: nat, records: seq<Record>)
    requires small <= large && Usable(small, records) && Usable(large, records)
    ensures Misses(large, records) <= Misses(small, records)
  {
    if records != [] {
      var before, r := records[..|records| - 1], records[|records| - 1];
      MissesFall(small, large, before);
      CachedGrows(small, large, before, r.layer);
      var few, many := Cached(small, before, r.layer), Cached(large, before, r.layer);
      SubsetCard(r.native - many - {r.current}, r.native - few - {r.current});
    }
  }
}
