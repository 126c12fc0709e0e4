/**
  Capacity planning (bmpclient/bench/multi_device.py and layout_replay.py). A trace gives each device batches of rows;
  the planner predicts the segments they fill.
 */
module Planner {
  import opened Arith
  import opened Finite
  import opened Placement

  datatype Mode = Snapshot | Online

  /** One append step of a trace for one request: the tokens of a layer, in the order they are inserted. */
  datatype Event = Event(layer: nat, tokens: seq<nat>)

  // ---------- which rows land where ----------

  /** How many of the tokens a strategy sends to device d. */
  function Landing(home: Key -> nat, layer: nat, tokens: seq<nat>, d: nat): nat {
    if tokens == [] then 0
    else
      var n := |tokens| - 1;
      Landing(home, layer, tokens[..n], d) + (if home(Key(layer, tokens[n])) == d then 1 else 0)
  }

  lemma {:induction false} LandingConcat(home: Key -> nat, layer: nat, a: seq<nat>, b: seq<nat>, d: nat)
    ensures Landing(home, layer, a + b, d) == Landing(home, layer, a, d) + Landing(home, layer, b, d)
  {
    if b == [] {
      assert a + b == a;
    } else {
      LandingConcat(home, layer, a, b[..|b| - 1], d);
      assert (a + b)[..|a + b| - 1] == a + b[..|b| - 1];
    }
  }

  lemma TakeOut(s: seq<nat>, i: nat)
    requires i < |s|
    ensures multiset(s[..i] + s[i + 1..]) == multiset(s) - multiset{s[i]}
  {
    assert s == s[..i] + [s[i]] + s[i + 1..];
  }

  lemma LandingTakeOut(home: Key -> nat, layer: nat, s: seq<nat>, i: nat, d: nat)
    requires i < |s|
    ensures Landing(home, layer, s, d) ==
      Landing(home, layer, s[..i] + s[i + 1..], d) + (if home(Key(layer, s[i])) == d then 1 else 0)
  {
    assert s == (s[..i] + [s[i]]) + s[i + 1..];
    LandingConcat(home, layer, s[..i] + [s[i]], s[i + 1..], d);
    LandingConcat(home, layer, s[..i], s[i + 1..], d);
    assert (s[..i] + [s[i]])[..i] == s[..i];
  }

  /** Shuffling the insertion order changes no device's share. */
  lemma {:induction false} LandingShuffled(home: Key -> nat, layer: nat, a: seq<nat>, b: seq<nat>, d: nat)
    requires multiset(a) == multiset(b)
    ensures Landing(home, layer, a, d) == Landing(home, layer, b, d)
    decreases |a|
  {
    if a == [] {
      assert |multiset(b)| == 0;
    } else {
      var i := Occurs(a[0], b, multiset(a));
      var c := b[..i] + b[i + 1..];
      TakeOut(b, i);
      assert a == [a[0]] + a[1..];
      LandingShuffled(home, layer, a[1..], c, d);
      LandingFirst(home, layer, a, d);
      LandingTakeOut(home, layer, b, i, d);
    }
  }

  lemma Occurs(x: nat, b: seq<nat>, m: multiset<nat>) returns (i: nat)
    requires m == multiset(b) && x in m
    ensures i < |b| && b[i] == x
  {
    i :| 0 <= i < |b| && b[i] == x;
  }

  /** The first token's share and the rest's. */
  lemma LandingFirst(home: Key -> nat, layer: nat, s: seq<nat>, d: nat)
    requires s != []
    ensures Landing(home, layer, s, d) ==
      (if home(Key(layer, s[0])) == d then 1 else 0) + Landing(home, layer, s[1..], d)
  {
    assert s == [s[0]] + s[1..];
    LandingConcat(home, layer, [s[0]], s[1..], d);
    assert [s[0]][..0] == [];
  }

  /** Tokens start, start + 1, ..., len of them. */
  function Span(start: nat, len: nat): (r: seq<nat>)
    ensures |r| == len
  {
    if len == 0 then [] else Span(start, len - 1) + [start + (len - 1)]
  }

  lemma {:induction false} LandingSpan(cfg: Config, layer: nat, start: nat, len: nat, d: nat)
    requires 0 < cfg.devices && 0 < cfg.prime
    ensures Landing(PositionHash(cfg), layer, Span(start, len), d) == Count(cfg, layer, start, len, d)
  {
    if len > 0 {
      LandingSpan(cfg, layer, start, len - 1, d);
      assert Span(start, len)[..len - 1] == Span(start, len - 1);
    }
  }

  // ---------- the plan ----------

  /** Rows of each event on device d. */
  function Shares(home: Key -> nat, events: seq<Event>, d: nat): (r: seq<nat>)
    ensures |r| == |events|
  {
    if events == [] then []
    else
      var e := events[|events| - 1];
      Shares(home, events[..|events| - 1], d) + [Landing(home, e.layer, e.tokens, d)]
  }

  function Sum(ns: seq<nat>): nat {
    if ns == [] then 0 else Sum(ns[..|ns| - 1]) + ns[|ns| - 1]
  }

  /** Segments of s rows that the batches fill when each is flushed on its own. */
  function Padded(ns: seq<nat>, s: nat): nat
    requires 0 < s
  {
    if ns == [] then 0 else Padded(ns[..|ns| - 1], s) + CeilDiv(ns[|ns| - 1], s)
  }

  /** Segments of s rows that a replay of the batches fills. */
  function Used(mode: Mode, ns: seq<nat>, s: nat): nat
    requires 0 < s
  {
    if mode == Online then Padded(ns, s) else CeilDiv(Sum(ns), s)
  }

  /** Segments of s rows the planner reserves; an extent is never empty. */
  function Reserved(mode: Mode, ns: seq<nat>, s: nat): nat
    requires 0 < s
  {
    if Used(mode, ns, s) == 0 then 1 else Used(mode, ns, s)
  }

  // ---------- rounding ----------

  lemma CeilDivIs(n: nat, s: nat, c: int)
    requires 0 < s && (c - 1) * s < n <= c * s
    ensures CeilDiv(n, s) == c
  {
    if c < 0 {
      MulMono(c, 0, s);
      assert false;
    }
    CeilDivLeast(n, s, c);
    if CeilDiv(n, s) < c {
      MulMono(CeilDiv(n, s), c - 1, s);
    }
  }

  lemma SharesSplit(home: Key -> nat, events: seq<Event>, d: nat)
    requires events != []
    ensures var e, ns := events[|events| - 1], Shares(home, events, d);
      ns[..|ns| - 1] == Shares(home, events[..|events| - 1], d) && ns[|ns| - 1] == Landing(home, e.layer, e.tokens, d)
  {
  }

  /** Replaying with segments k times smaller than planned never needs more than k times as many. */
  lemma {:induction false} UsedFine(mode: Mode, ns: seq<nat>, s: nat, k: nat)
    requires 0 < s && 0 < k && 0 < k * s
    ensures Used(mode, ns, s) <= k * Used(mode, ns, k * s)
  {
    if mode == Snapshot {
      CeilFine(Sum(ns), s, k);
    } else if ns != [] {
      UsedFine(mode, ns[..|ns| - 1], s, k);
      CeilFine(ns[|ns| - 1], s, k);
      assert k * (Padded(ns[..|ns| - 1], k * s) + CeilDiv(ns[|ns| - 1], k * s))
          == k * Padded(ns[..|ns| - 1], k * s) + k * CeilDiv(ns[|ns| - 1], k * s);
    }
  }

  lemma CeilFine(n: nat, s: nat, k: nat)
    requires 0 < s && 0 < k && 0 < k * s
    ensures CeilDiv(n, s) <= k * CeilDiv(n, k * s)
  {
    assert CeilDiv(n, k * s) * (k * s) == (k * CeilDiv(n, k * s)) * s;
    CeilDivLeast(n, s, k * CeilDiv(n, k * s));
  }

  // ---------- batches that need more ----------

  /** n batches of m rows each. */
  function Repeat(m: nat, n: nat): (r: seq<nat>)
    ensures |r| == n
  {
    if n == 0 then [] else Repeat(m, n - 1) + [m]
  }

  lemma {:induction false} PaddedRepeat(m: nat, n: nat, s: nat)
    requires 0 < s
    ensures Padded(Repeat(m, n), s) == n * CeilDiv(m, s)
  {
    if n > 0 {
      PaddedRepeat(m, n - 1, s);
      assert Repeat(m, n)[..n - 1] == Repeat(m, n - 1);
      NextMultiple(n, CeilDiv(m, s));
    }
  }

  lemma NextMultiple(n: nat, c: nat)
    requires n > 0
    ensures n * c == (n - 1) * c + c
  {
  }

  lemma CeilAbove(p: nat, s: nat)
    requires 0 < s && p % s != 0
    ensures s * CeilDiv(p, s) > p
  {
    var c := CeilDiv(p, s);
    assert s * c == c * s;
    if c * s == p {
      DivUnique(c, 0, s);
    }
  }

  // ---------- from a trace to its batches ----------

  /** One record of a request's trace: the context length a layer has reached. */
  datatype Record = Record(layer: nat, length: nat)

  /** Tokens of a layer loaded so far: what its last record says. */
  function Loaded(recs: seq<Record>, layer: nat): nat {
    if recs == [] then 0
    else if recs[|recs| - 1].layer == layer then recs[|recs| - 1].length
    else Loaded(recs[..|recs| - 1], layer)
  }

  /** range(start, end). */
  function Range(start: nat, end: nat): seq<nat> {
    if start <= end then Span(start, end - start) else []
  }

  /** The batches of a trace: each record adds the tokens its layer has not loaded yet. */
  function Batches(recs: seq<Record>): (r: seq<Event>)
    ensures |r| == |recs|
  {
    if recs == [] then []
    else
      var before, last := recs[..|recs| - 1], recs[|recs| - 1];
      Batches(before) + [Event(last.layer, Range(Loaded(before, last.layer), last.length))]
  }

  /** Contexts never shrink: what online mode demands of a trace. */
  ghost predicate Grows(recs: seq<Record>) {
    forall i :: 0 <= i < |recs| ==> Loaded(recs[..i], recs[i].layer) <= recs[i].length
  }

  lemma GrowsPrefix(recs: seq<Record>, n: nat)
    requires Grows(recs) && n <= |recs|
    ensures Grows(recs[..n])
  {
    forall i | 0 <= i < n
      ensures Loaded(recs[..n][..i], recs[..n][i].layer) <= recs[..n][i].length
    {
      assert recs[..n][..i] == recs[..i];
    }
  }

  function Max(a: nat, b: nat): nat {
    if a < b then b else a
  }

  /** The longest context of a layer. */
  function Longest(recs: seq<Record>, layer: nat): nat {
    if recs == [] then 0
    else
      var rest, last := Longest(recs[..|recs| - 1], layer), recs[|recs| - 1];
      if last.layer == layer then Max(rest, last.length) else rest
  }

  /** It is the greatest context length among the layer's records, and 0 without any. */
  lemma {:induction false} LongestIs(recs: seq<Record>, layer: nat)
    ensures forall i :: 0 <= i < |recs| && recs[i].layer == layer ==> recs[i].length <= Longest(recs, layer)
    ensures Longest(recs, layer) == 0 || exists i ::
      0 <= i < |recs| && recs[i].layer == layer && recs[i].length == Longest(recs, layer)
  {
    if recs != [] {
      var n := |recs| - 1;
      LongestIs(recs[..n], layer);
      if Longest(recs, layer) == Longest(recs[..n], layer) && Longest(recs, layer) != 0 {
        var i :| 0 <= i < n && recs[..n][i].layer == layer && recs[..n][i].length == Longest(recs[..n], layer);
        assert recs[i] == recs[..n][i];
      }
    }
  }

  /** While contexts grow the longest is the last. */
  lemma {:induction false} LongestLoaded(recs: seq<Record>, layer: nat)
    requires Grows(recs)
    ensures Longest(recs, layer) == Loaded(recs, layer)
  {
    if recs != [] {
      var n := |recs| - 1;
      GrowsPrefix(recs, n);
      LongestLoaded(recs[..n], layer);
      assert Loaded(recs[..n], recs[n].layer) <= recs[n].length;
    }
  }

  ghost function Layers(recs: seq<Record>): set<nat> {
    set i | 0 <= i < |recs| :: recs[i].layer
  }

  lemma LayersSnoc(recs: seq<Record>, r: Record)
    ensures Layers(recs + [r]) == Layers(recs) + {r.layer}
  {
    var all := recs + [r];
    forall i | 0 <= i < |all|
      ensures all[i].layer in Layers(recs) + {r.layer}
    {
      assert all[i] == if i < |recs| then recs[i] else r;
    }
    forall i | 0 <= i < |recs|
      ensures recs[i].layer in Layers(all)
    {
      assert all[i] == recs[i];
    }
    assert all[|recs|] == r;
  }

  /** Each layer once, in ascending order, with its longest context. */
  ghost predicate SummaryOf(recs: seq<Record>, work: seq<Record>) {
    && (forall i, j :: 0 <= i < j < |work| ==> work[i].layer < work[j].layer)
    && Layers(work) == Layers(recs)
    && (forall i :: 0 <= i < |work| ==> work[i].length == Longest(recs, work[i].layer))
  }

  /** The append steps of a replay: the trace itself online, one step per layer for a snapshot. */
  ghost predicate WorkOf(mode: Mode, recs: seq<Record>, work: seq<Record>) {
    if mode == Online then work == recs && Grows(recs) else SummaryOf(recs, work)
  }

  lemma {:induction false} NotLoaded(recs: seq<Record>, layer: nat)
    requires forall i :: 0 <= i < |recs| ==> recs[i].layer != layer
    ensures Loaded(recs, layer) == 0
  {
    if recs != [] {
      NotLoaded(recs[..|recs| - 1], layer);
    }
  }

  lemma WorkGrows(mode: Mode, recs: seq<Record>, work: seq<Record>)
    requires WorkOf(mode, recs, work)
    ensures Grows(work)
  {
    if mode == Snapshot {
      forall i | 0 <= i < |work|
        ensures Loaded(work[..i], work[i].layer) <= work[i].length
      {
        NotLoaded(work[..i], work[i].layer);
      }
    }
  }

  /** geometry: longest contexts per layer; a shrinking context is refused online. */
  method Lengths(mode: Mode, recs: seq<Record>) returns (ok: bool, lengths: map<nat, nat>)
    ensures ok <==> (mode == Online ==> Grows(recs))
    ensures ok ==> lengths.Keys == Layers(recs) && forall l :: l in lengths ==> lengths[l] == Longest(recs, l)
  {
    hide Grows, Longest, Loaded;
    NoLengths();
    lengths := map[];
    for i := 0 to |recs|
      invariant lengths.Keys == Layers(recs[..i]) && forall l :: l in lengths ==> lengths[l] == Longest(recs[..i], l)
      invariant mode == Online ==> Grows(recs[..i])
    {
      var layer, longer := recs[i].layer, recs[i].length;
      var was := if layer in lengths then lengths[layer] else 0;
      LengthsStep(recs, i);
      LengthsAfter(recs, i, lengths);
      if mode == Online && longer < was {
        return false, lengths;
      }
      lengths := lengths[layer := Max(was, longer)];
    }
    assert recs[..|recs|] == recs;
    return true, lengths;
  }

  lemma NoLengths()
    ensures Grows([]) && Layers([]) == {}
  {
  }

  /** The dictionary after one more record. */
  lemma LengthsAfter(recs: seq<Record>, i: nat, lengths: map<nat, nat>)
    requires i < |recs| && lengths.Keys == Layers(recs[..i])
    requires forall l :: l in lengths ==> lengths[l] == Longest(recs[..i], l)
    ensures var layer := recs[i].layer; var was := if layer in lengths then lengths[layer] else 0;
      && was == Longest(recs[..i], layer) && (Grows(recs[..i]) ==> was == Loaded(recs[..i], layer))
      && Longest(recs[..i + 1], layer) == Max(was, recs[i].length)
      && (forall l :: l in lengths && l != layer ==> Longest(recs[..i + 1], l) == lengths[l])
  {
    assert recs[..i + 1][..i] == recs[..i];
    Unlisted(recs[..i], recs[i].layer);
    if Grows(recs[..i]) {
      LongestLoaded(recs[..i], recs[i].layer);
    }
  }

  lemma LengthsStep(recs: seq<Record>, i: nat)
    requires i < |recs|
    ensures recs[..i + 1][..i] == recs[..i] && recs[..i + 1] == recs[..i] + [recs[i]]
    ensures Layers(recs[..i + 1]) == Layers(recs[..i]) + {recs[i].layer}
    ensures Grows(recs[..i + 1]) <==> Grows(recs[..i]) && Loaded(recs[..i], recs[i].layer) <= recs[i].length
    ensures !Grows(recs[..i + 1]) ==> !Grows(recs)
  {
    assert recs[..i + 1] == recs[..i] + [recs[i]];
    LayersSnoc(recs[..i], recs[i]);
    if Grows(recs) {
      GrowsPrefix(recs, i + 1);
    }
    if Grows(recs[..i + 1]) {
      GrowsPrefix(recs[..i + 1], i);
      assert recs[..i + 1][i] == recs[i];
    }
    if Grows(recs[..i]) && Loaded(recs[..i], recs[i].layer) <= recs[i].length {
      GrowsSnoc(recs[..i], recs[i]);
    }
  }

  lemma GrowsSnoc(recs: seq<Record>, r: Record)
    requires Grows(recs) && Loaded(recs, r.layer) <= r.length
    ensures Grows(recs + [r])
  {
    var more := recs + [r];
    forall j | 0 <= j < |more|
      ensures Loaded(more[..j], more[j].layer) <= more[j].length
    {
      if j < |recs| {
        assert more[..j] == recs[..j] && more[j] == recs[j];
      } else {
        assert more[..j] == recs;
      }
    }
  }

  lemma {:induction false} Unlisted(recs: seq<Record>, layer: nat)
    ensures layer !in Layers(recs) ==> Longest(recs, layer) == 0
  {
    if recs != [] {
      var n := |recs| - 1;
      Unlisted(recs[..n], layer);
      LayersSnoc(recs[..n], recs[n]);
      assert recs == recs[..n] + [recs[n]];
    }
  }

  /** sorted(lengths.items()). */
  method Summary(ghost recs: seq<Record>, lengths: map<nat, nat>) returns (work: seq<Record>)
    requires lengths.Keys == Layers(recs) && forall l :: l in lengths ==> lengths[l] == Longest(recs, l)
    ensures SummaryOf(recs, work)
  {
    work := [];
    var rest := lengths.Keys;
    while rest != {}
      invariant rest <= lengths.Keys && Layers(work) == lengths.Keys - rest
      invariant forall i, j :: 0 <= i < j < |work| ==> work[i].layer < work[j].layer
      invariant forall i :: 0 <= i < |work| ==> work[i].length == Longest(recs, work[i].layer)
      decreases |rest|
    {
      var l := Choose(rest);
      work := PlaceRecord(work, Record(l, lengths[l]));
      rest := rest - {l};
    }
  }

  method PlaceRecord(work: seq<Record>, r: Record) returns (more: seq<Record>)
    requires (forall i, j :: 0 <= i < j < |work| ==> work[i].layer < work[j].layer) && r.layer !in Layers(work)
    ensures forall i, j :: 0 <= i < j < |more| ==> more[i].layer < more[j].layer
    ensures Layers(more) == Layers(work) + {r.layer}
    ensures forall i :: 0 <= i < |more| ==> more[i] == r || more[i] in work
  {
    var k := 0;
    while k < |work| && work[k].layer < r.layer
      invariant 0 <= k <= |work| && forall i :: 0 <= i < k ==> work[i].layer < r.layer
    {
      k := k + 1;
    }
    more := Placed(work, r, k);
    PlacedAt(work, r, k);
  }

  function Placed(work: seq<Record>, r: Record, k: nat): seq<Record>
    requires k <= |work|
  {
    work[..k] + [r] + work[k..]
  }

  lemma PlacedAt(work: seq<Record>, r: Record, k: nat)
    requires (forall i, j :: 0 <= i < j < |work| ==> work[i].layer < work[j].layer) && r.layer !in Layers(work)
    requires k <= |work|
    requires (forall i :: 0 <= i < k ==> work[i].layer < r.layer) && (k < |work| ==> r.layer <= work[k].layer)
    ensures var more := Placed(work, r, k);
      && (forall i, j :: 0 <= i < j < |more| ==> more[i].layer < more[j].layer)
      && Layers(more) == Layers(work) + {r.layer}
      && (forall i :: 0 <= i < |more| ==> more[i] == r || more[i] in work)
  {
    var more := Placed(work, r, k);
    forall i | k <= i < |work|
      ensures r.layer < work[i].layer
    {
      assert work[i].layer in Layers(work);
    }
    assert forall i :: 0 <= i < k ==> more[i] == work[i];
    assert more[k] == r;
    assert forall i :: k < i < |more| ==> more[i] == work[i - 1];
    PlacedLayers(work, r, k);
  }

  lemma PlacedLayers(work: seq<Record>, r: Record, k: nat)
    requires k <= |work|
    ensures Layers(Placed(work, r, k)) == Layers(work) + {r.layer}
  {
    var more := Placed(work, r, k);
    forall i | 0 <= i < |work|
      ensures work[i].layer in Layers(more)
    {
      assert work[i] == more[if i < k then i else i + 1];
    }
    forall i | 0 <= i < |more|
      ensures more[i].layer in Layers(work) + {r.layer}
    {
      assert more[i] == if i < k then work[i] else if i == k then r else work[i - 1];
    }
    assert more[k].layer in Layers(more);
  }

  // ---------- the planner itself ----------

  /** The sizing loop of hash_capacities, for one request: extent bytes and rows per device. */
  method Capacities(home: Key -> nat, devices: nat, mode: Mode, work: seq<Record>, slots: nat, page: nat)
    returns (sizes: seq<nat>, rows: seq<nat>)
    requires 0 < slots && 0 < page && 0 < slots * page && forall k :: home(k) < devices
    ensures |sizes| == |rows| == devices
    ensures forall d :: 0 <= d < devices ==> rows[d] == Sum(Shares(home, Batches(work), d))
    ensures forall d :: 0 <= d < devices ==>
      sizes[d] == Reserved(mode, Shares(home, Batches(work), d), slots) * (slots * page)
  {
    hide Landing, RawBytes, RawBatch, Shares, Sum, Loaded;
    sizes := seq(devices, _ => 0);
    rows := seq(devices, _ => 0);
    var loaded: map<nat, nat> := map[];
    NothingLoaded();
    forall d: nat
      ensures Sum(Shares(home, [], d)) == 0 && RawBytes(mode, Shares(home, [], d), slots, page) == 0
    {
      NoShares(home, mode, d, slots, page);
    }
    for i := 0 to |work|
      invariant |sizes| == |rows| == devices
      invariant forall l :: Loaded(work[..i], l) == if l in loaded then loaded[l] else 0
      invariant forall d :: 0 <= d < devices ==> rows[d] == Sum(Shares(home, Batches(work[..i]), d))
      invariant forall d :: 0 <= d < devices ==>
        sizes[d] == RawBytes(mode, Shares(home, Batches(work[..i]), d), slots, page)
    {
      var r := work[i];
      var start := if r.layer in loaded then loaded[r.layer] else 0;
      BatchStep(work, i);
      var counts := CountEvent(home, devices, Event(r.layer, Range(start, r.length)));
      forall d | 0 <= d < devices
        ensures Sum(Shares(home, Batches(work[..i + 1]), d)) == Sum(Shares(home, Batches(work[..i]), d)) + counts[d]
        ensures RawBytes(mode, Shares(home, Batches(work[..i + 1]), d), slots, page) ==
          RawBytes(mode, Shares(home, Batches(work[..i]), d), slots, page) + RawBatch(mode, counts[d], slots, page)
      {
        SharesStep(home, mode, Batches(work[..i + 1]), i, d, slots, page);
      }
      rows, sizes := AddCounts(mode, rows, sizes, counts, slots, page);
      loaded := loaded[r.layer := r.length];
    }
    assert work[..|work|] == work;
    sizes := RoundUp(mode, home, Batches(work), sizes, slots, page);
  }

  lemma NothingLoaded()
    ensures (forall l :: Loaded([], l) == 0) && Batches([]) == []
  {
  }

  lemma BatchStep(work: seq<Record>, i: nat)
    requires i < |work|
    ensures var r := work[i];
      && Batches(work[..i + 1])[i] == Event(r.layer, Range(Loaded(work[..i], r.layer), r.length))
      && Batches(work[..i + 1])[..i] == Batches(work[..i]) && Batches(work[..i + 1])[..i + 1] == Batches(work[..i + 1])
      && (forall l :: Loaded(work[..i + 1], l) == if l == r.layer then r.length else Loaded(work[..i], l))
  {
    assert work[..i + 1][..i] == work[..i];
  }

  /**
    hash_capacities for one request. Snapshot rows are balanced: while no layer wraps past the prime, two devices differ
    by at most the number of layers.
   */
  method HashCapacities(cfg: Config, mode: Mode, recs: seq<Record>, slots: nat, page: nat)
    returns (ok: bool, ghost work: seq<Record>, sizes: seq<nat>, rows: seq<nat>)
    requires cfg.Ok() && 0 < slots && 0 < page && 0 < slots * page
    ensures ok <==> (mode == Online ==> Grows(recs))
    ensures ok ==> WorkOf(mode, recs, work) && |sizes| == |rows| == cfg.devices
    ensures ok ==> forall d :: 0 <= d < cfg.devices ==> rows[d] == Sum(Shares(PositionHash(cfg), Batches(work), d))
    ensures ok ==> forall d :: 0 <= d < cfg.devices ==>
      sizes[d] == Reserved(mode, Shares(PositionHash(cfg), Batches(work), d), slots) * (slots * page)
    ensures ok && mode == Snapshot && (forall i :: 0 <= i < |work| ==> NoWrap(cfg, work[i].layer, work[i].length)) ==>
      forall d, e :: 0 <= d < cfg.devices && 0 <= e < cfg.devices ==> rows[d] - rows[e] <= |work|
  {
    hide Prime, Shares, Sum, Used, Reserved, NoWrap, Config.Locate;
    work, sizes, rows := [], [], [];
    var lengths;
    ok, lengths := Lengths(mode, recs);
    if ok {
      var steps := recs;
      if mode == Snapshot {
        steps := Summary(recs, lengths);
      }
      sizes, rows := Capacities(PositionHash(cfg), cfg.devices, mode, steps, slots, page);
      work := steps;
      if mode == Snapshot && forall i :: 0 <= i < |work| ==> NoWrap(cfg, work[i].layer, work[i].length) {
        forall d, e | 0 <= d < cfg.devices && 0 <= e < cfg.devices
          ensures rows[d] - rows[e] <= |work|
        {
          RowsBalanced(cfg, work, d, e);
        }
      }
    }
  }

  lemma NoShares(home: Key -> nat, mode: Mode, d: nat, slots: nat, page: nat)
    requires 0 < slots
    ensures Sum(Shares(home, [], d)) == 0 && RawBytes(mode, Shares(home, [], d), slots, page) == 0
  {
  }

  lemma SharesStep(home: Key -> nat, mode: Mode, events: seq<Event>, i: nat, d: nat, slots: nat, page: nat)
    requires 0 < slots && i < |events|
    ensures var n := Landing(home, events[i].layer, events[i].tokens, d);
      && Sum(Shares(home, events[..i + 1], d)) == Sum(Shares(home, events[..i], d)) + n
      && RawBytes(mode, Shares(home, events[..i + 1], d), slots, page) ==
         RawBytes(mode, Shares(home, events[..i], d), slots, page) + RawBatch(mode, n, slots, page)
  {
    assert events[..i + 1][..i] == events[..i];
    SharesSplit(home, events[..i + 1], d);
    RawStep(mode, Shares(home, events[..i + 1], d), slots, page);
  }

  /** Bytes one batch adds to a device's size: whole segments online, exact bytes for a snapshot. */
  function RawBatch(mode: Mode, n: nat, slots: nat, page: nat): nat
    requires 0 < slots
  {
    if mode == Online then CeilDiv(n, slots) * (slots * page) else n * page
  }

  function RawBytes(mode: Mode, ns: seq<nat>, slots: nat, page: nat): nat
    requires 0 < slots
  {
    if mode == Online then Padded(ns, slots) * (slots * page) else Sum(ns) * page
  }

  lemma RawStep(mode: Mode, ns: seq<nat>, slots: nat, page: nat)
    requires 0 < slots && ns != []
    ensures RawBytes(mode, ns, slots, page) ==
      RawBytes(mode, ns[..|ns| - 1], slots, page) + RawBatch(mode, ns[|ns| - 1], slots, page)
  {
  }

  /** Rows of one event per device. */
  method CountEvent(home: Key -> nat, devices: nat, e: Event) returns (counts: seq<nat>)
    requires forall k :: home(k) < devices
    ensures |counts| == devices && forall d :: 0 <= d < devices ==> counts[d] == Landing(home, e.layer, e.tokens, d)
  {
    counts := seq(devices, _ => 0);
    for i := 0 to |e.tokens|
      invariant |counts| == devices
      invariant forall d :: 0 <= d < devices ==> counts[d] == Landing(home, e.layer, e.tokens[..i], d)
    {
      assert e.tokens[..i + 1][..i] == e.tokens[..i];
      var d := home(Key(e.layer, e.tokens[i]));
      counts := counts[d := counts[d] + 1];
    }
    assert e.tokens[..|e.tokens|] == e.tokens;
  }

  method AddCounts(mode: Mode, rows: seq<nat>, sizes: seq<nat>, counts: seq<nat>, slots: nat, page: nat)
    returns (rows': seq<nat>, sizes': seq<nat>)
    requires |rows| == |sizes| == |counts| && 0 < slots && 0 < page && 0 < slots * page
    ensures |rows'| == |sizes'| == |counts|
    ensures forall d :: 0 <= d < |counts| ==> rows'[d] == rows[d] + counts[d]
    ensures forall d :: 0 <= d < |counts| ==> sizes'[d] == sizes[d] + RawBatch(mode, counts[d], slots, page)
  {
    rows', sizes' := rows, sizes;
    for d := 0 to |counts|
      invariant |rows'| == |sizes'| == |counts|
      invariant forall c :: 0 <= c < d ==> rows'[c] == rows[c] + counts[c]
      invariant forall c :: 0 <= c < d ==> sizes'[c] == sizes[c] + RawBatch(mode, counts[c], slots, page)
      invariant forall c :: d <= c < |counts| ==> rows'[c] == rows[c] && sizes'[c] == sizes[c]
    {
      var n := counts[d];
      RowsToBytes(n, slots, page);
      rows' := rows'[d := rows'[d] + n];
      sizes' := sizes'[d := sizes'[d] +
        if mode == Online then ((n * page + slots * page - 1) / (slots * page)) * (slots * page) else n * page];
    }
  }

  /** Rounding bytes up to whole segments is rounding rows up to whole segments. */
  lemma RowsToBytes(n: nat, slots: nat, page: nat)
    requires 0 < slots && 0 < page && 0 < slots * page
    ensures (n * page + slots * page - 1) / (slots * page) == CeilDiv(n, slots)
    ensures CeilDiv(n * page, slots * page) == CeilDiv(n, slots)
  {
    var c := CeilDiv(n, slots);
    MulMono(n, c * slots, page);
    assert (c * slots) * page == c * (slots * page);
    if n > 0 {
      assert (c - 1) * slots + 1 <= n;
      MulMono((c - 1) * slots + 1, n, page);
      assert ((c - 1) * slots + 1) * page == (c - 1) * (slots * page) + page;
    }
    CeilDivIs(n * page, slots * page, c);
  }

  /** The final rounding, and the one-segment minimum. */
  method RoundUp(mode: Mode, home: Key -> nat, events: seq<Event>, raw: seq<nat>, slots: nat, page: nat)
    returns (sizes: seq<nat>)
    requires 0 < slots && 0 < page && 0 < slots * page
    requires forall d :: 0 <= d < |raw| ==> raw[d] == RawBytes(mode, Shares(home, events, d), slots, page)
    ensures |sizes| == |raw|
    ensures forall d :: 0 <= d < |raw| ==> sizes[d] == Reserved(mode, Shares(home, events, d), slots) * (slots * page)
  {
    var segment := slots * page;
    sizes := [];
    for d := 0 to |raw|
      invariant |sizes| == d
      invariant forall c :: 0 <= c < d ==> sizes[c] == Reserved(mode, Shares(home, events, c), slots) * segment
    {
      Rounded(mode, Shares(home, events, d), raw[d], slots, page);
      var up := ((raw[d] + segment - 1) / segment) * segment;
      sizes := sizes + [if up < segment then segment else up];
    }
  }

  lemma Rounded(mode: Mode, ns: seq<nat>, raw: nat, slots: nat, page: nat)
    requires 0 < slots && 0 < page && 0 < slots * page && raw == RawBytes(mode, ns, slots, page)
    ensures var up := ((raw + slots * page - 1) / (slots * page)) * (slots * page);
      (if up < slots * page then slots * page else up) == Reserved(mode, ns, slots) * (slots * page)
  {
    if mode == Online {
      WholeSegments(Padded(ns, slots), slots * page);
    } else {
      RowsToBytes(Sum(ns), slots, page);
    }
    AtLeastOne(Used(mode, ns, slots), slots * page);
  }

  lemma WholeSegments(u: nat, segment: nat)
    requires 0 < segment
    ensures (u * segment + segment - 1) / segment == u
  {
    CeilDivIs(u * segment, segment, u);
  }

  lemma AtLeastOne(u: nat, segment: nat)
    requires 0 < segment
    ensures (if u * segment < segment then segment else u * segment) == (if u == 0 then 1 else u) * segment
  {
    if u > 0 {
      MulMono(1, u, segment);
    }
  }

  // ---------- balance ----------

  /**
    Without wrapping, two devices' planned rows differ by at most the number of layers, when each layer has one step.
   */
  lemma {:induction false} RowsBalanced(cfg: Config, work: seq<Record>, d: nat, e: nat)
    requires cfg.Ok() && d < cfg.devices && e < cfg.devices
    requires forall i, j :: 0 <= i < j < |work| ==> work[i].layer < work[j].layer
    requires forall i :: 0 <= i < |work| ==> NoWrap(cfg, work[i].layer, work[i].length)
    ensures Sum(Shares(PositionHash(cfg), Batches(work), d)) - Sum(Shares(PositionHash(cfg), Batches(work), e)) <=
      |work|
    decreases |work|
  {
    hide Count, Prime, NoWrap, Landing, Config.Locate;
    if work != [] {
      var n := |work| - 1;
      RowsBalanced(cfg, work[..n], d, e);
      NotLoaded(work[..n], work[n].layer);
      LastRows(cfg, work, d);
      LastRows(cfg, work, e);
      CountsClose(cfg, work[n].layer, work[n].length, d, e);
    }
  }

  /** The rows a layer's only step adds to a device. */
  lemma LastRows(cfg: Config, work: seq<Record>, d: nat)
    requires 0 < cfg.devices && 0 < cfg.prime && work != []
    requires Loaded(work[..|work| - 1], work[|work| - 1].layer) == 0
    ensures var n := |work| - 1;
      Sum(Shares(PositionHash(cfg), Batches(work), d)) ==
      Sum(Shares(PositionHash(cfg), Batches(work[..n]), d)) + Count(cfg, work[n].layer, 0, work[n].length, d)
  {
    hide Count, Config.Locate;
    var n := |work| - 1;
    SharesSplit(PositionHash(cfg), Batches(work), d);
    assert Batches(work)[..n] == Batches(work[..n]);
    LandingSpan(cfg, work[n].layer, 0, work[n].length, d);
  }

  lemma CountsClose(cfg: Config, layer: nat, len: nat, d: nat, e: nat)
    requires cfg.Ok() && d < cfg.devices && e < cfg.devices && NoWrap(cfg, layer, len)
    ensures Count(cfg, layer, 0, len, d) - Count(cfg, layer, 0, len, e) <= 1
  {
    hide Count, Prime;
    assert 0 + len == len;
    CountBalanced(cfg, layer, 0, len, d);
    CountBalanced(cfg, layer, 0, len, e);
    CeilNearFloor(len, cfg.devices);
  }

  lemma CeilNearFloor(n: nat, d: nat)
    requires 0 < d
    ensures CeilDiv(n, d) <= n / d + 1
  {
    assert n == (n / d) * d + n % d;
    CeilDivLeast(n, d, n / d + 1);
  }

  // ---------- other placements ----------

  /** LayerPlacement: a layer's rows all go to one device. */
  function LayerHome(devices: nat): Key -> nat
    requires 0 < devices
  {
    (k: Key) => if 0 < devices then k.layer % devices else 0
  }

  /** layer_capacities counts a layer's whole length on its device. */
  lemma {:induction false} LayerLanding(devices: nat, layer: nat, start: nat, len: nat, d: nat)
    requires 0 < devices
    ensures Landing(LayerHome(devices), layer, Span(start, len), d) == if layer % devices == d then len else 0
  {
    if len > 0 {
      LayerLanding(devices, layer, start, len - 1, d);
      assert Span(start, len)[..len - 1] == Span(start, len - 1);
    }
  }

  /** OriginalLayerHash: stores number layers densely, placement keeps the original numbers. */
  function Original(home: Key -> nat, layers: seq<nat>): Key -> nat {
    (k: Key) => OriginalAt(home, layers, k)
  }

  function OriginalAt(home: Key -> nat, layers: seq<nat>, k: Key): nat {
    if k.layer < |layers| then home(Key(layers[k.layer], k.token)) else home(k)
  }

  lemma {:induction false} OriginalLanding(home: Key -> nat, layers: seq<nat>, dense: nat, tokens: seq<nat>, d: nat)
    requires dense < |layers|
    ensures Landing(Original(home, layers), dense, tokens, d) == Landing(home, layers[dense], tokens, d)
  {
    if tokens != [] {
      OriginalLanding(home, layers, dense, tokens[..|tokens| - 1], d);
    }
  }
}
