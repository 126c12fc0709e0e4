/**
  Plan, replay and release joined: a store whose extents are the planned sizes, loaded with the trace the plan was made
  for (bmpclient/bench/layout_replay.py, run and trial).
 */
module PlannedReplay {
  import opened Arith
  import opened Bytes
  import opened Finite
  import opened Placement
  import opened Segment
  import SlotTable
  import opened Media
  import opened KVStore
  import opened StoreRuns
  import opened SingleAssignment
  import opened Planner
  import opened Replay
  import D = Descriptor

  const PAGE: nat := 4096

  // ---------- dense layer numbers ----------

  /**
    The store numbers the trace's layers 0, 1, ...: dense is work with each layer replaced by its position in layers.
   */
  ghost predicate DenseOf(layers: seq<nat>, work: seq<Record>, dense: seq<Record>) {
    && NoDuplicates(layers) && |dense| == |work|
    && forall i :: 0 <= i < |work| ==> DenseRecord(layers, work[i], dense[i])
  }

  ghost predicate DenseRecord(layers: seq<nat>, r: Record, q: Record) {
    q.layer < |layers| && layers[q.layer] == r.layer && q.length == r.length
  }

  lemma DensePrefix(layers: seq<nat>, work: seq<Record>, dense: seq<Record>, n: nat)
    requires DenseOf(layers, work, dense) && n <= |work|
    ensures DenseOf(layers, work[..n], dense[..n])
  {
  }

  lemma {:induction false} DenseLoaded(layers: seq<nat>, work: seq<Record>, dense: seq<Record>, l: nat)
    requires DenseOf(layers, work, dense) && l < |layers|
    ensures Loaded(dense, l) == Loaded(work, layers[l])
    decreases |work|
  {
    if work != [] {
      var n := |work| - 1;
      assert DenseRecord(layers, work[n], dense[n]);
      DensePrefix(layers, work, dense, n);
      DenseLoaded(layers, work[..n], dense[..n], l);
    }
  }

  lemma DenseGrows(layers: seq<nat>, work: seq<Record>, dense: seq<Record>)
    requires DenseOf(layers, work, dense) && Grows(work)
    ensures Grows(dense)
  {
    forall i | 0 <= i < |dense|
      ensures Loaded(dense[..i], dense[i].layer) <= dense[i].length
    {
      assert DenseRecord(layers, work[i], dense[i]);
      DensePrefix(layers, work, dense, i);
      DenseLoaded(layers, work[..i], dense[..i], dense[i].layer);
    }
  }

  /** The replay sends each device the rows the planner counted for it. */
  lemma {:induction false} DenseShares(home: Key -> nat, layers: seq<nat>, work: seq<Record>, dense: seq<Record>,
                                       d: nat)
    requires DenseOf(layers, work, dense)
    ensures Shares(Original(home, layers), Batches(dense), d) == Shares(home, Batches(work), d)
    decreases |work|
  {
    hide Landing;
    if work != [] {
      var n := |work| - 1;
      assert DenseRecord(layers, work[n], dense[n]);
      DensePrefix(layers, work, dense, n);
      DenseShares(home, layers, work[..n], dense[..n], d);
      DenseLoaded(layers, work[..n], dense[..n], dense[n].layer);
      OriginalLanding(home, layers, dense[n].layer, Batches(dense)[n].tokens, d);
      assert Batches(dense)[..n] == Batches(dense[..n]) && Batches(work)[..n] == Batches(work[..n]);
    }
  }

  // ---------- a planned store ----------

  /** A trace, the placement it was planned with, and the store it is loaded into. */
  datatype Setup = Setup(home: Key -> nat, layers: seq<nat>, recs: seq<Record>, work: seq<Record>, dense: seq<Record>,
                         evs: seq<Event>, content: Key -> Data, st: Store)

  /** Bytes the planner reserves on a device, with segments of p pages. */
  ghost function PlannedSize(x: Setup, mode: Mode, p: nat, d: nat): nat
    requires 0 < p
  {
    Reserved(mode, Shares(x.home, Batches(x.work), d), p) * (p * PAGE)
  }

  /** The device manager accepts the planned extent with segments of s pages, and starts with it empty. */
  ghost predicate PlannedDevice(dev: Device, size: nat, s: nat) {
    CheckGeometry(s * PAGE, PAGE, size) == Checked.Accepted(dev.geo) && dev == Fresh(dev.geo, dev.disk) &&
    |dev.disk| == dev.geo.segments * dev.geo.sp
  }

  ghost predicate EmptyStore(st: Store) {
    && PlacesKeys(st.p) && |st.devs| == |st.p.base| == st.p.devices && st.p.unit == PAGE
    && st.slots == map[] && st.cache == map[]
    && D.Holds(st.desc, st.p.maxTopk) && |st.staging| == st.p.maxTopk * st.p.unit
  }

  /** Planned with segments of p pages, replayed with segments of s pages. */
  ghost predicate SetUp(x: Setup, mode: Mode, p: nat, s: nat) {
    && 0 < p && 0 < s && EmptyStore(x.st) && Addressed(x.st) && x.st.p.home == Original(x.home, x.layers)
    && (forall d :: 0 <= d < |x.st.devs| ==> PlannedDevice(x.st.devs[d], PlannedSize(x, mode, p, d), s))
    && WorkOf(mode, x.recs, x.work) && DenseOf(x.layers, x.work, x.dense)
    && Shuffles(x.evs, Batches(x.dense)) && AllLoadable(x.st.p, x.content, x.evs)
  }

  lemma FreshDevice(dev: Device, size: nat, s: nat)
    requires 0 < s && PlannedDevice(dev, size, s)
    ensures Segment.Inv(dev, map[]) && dev.geo.slots == s && dev.geo.unit == PAGE && Packed(dev) && dev.buf.NoBuffer?
    ensures |dev.free| == dev.geo.segments && dev.geo.segments * (s * PAGE) == size
  {
    FreshInv(dev.geo, dev.disk);
    MulCancel(dev.geo.slots, s, PAGE);
  }

  lemma SetUpReady(x: Setup, mode: Mode, p: nat, s: nat) returns (live: Live)
    requires SetUp(x, mode, p, s)
    ensures Replayable(x.st, live, x.content, x.dense, x.evs, s)
  {
    hide Segment.Inv, WellFormed, Packed, CheckGeometry, Fresh;
    forall d | 0 <= d < |x.st.devs|
      ensures Packed(x.st.devs[d]) && x.st.devs[d].geo.slots == s && x.st.devs[d].buf.NoBuffer?
      ensures Segment.Inv(x.st.devs[d], map[]) && x.st.devs[d].geo.unit == PAGE
    {
      FreshDevice(x.st.devs[d], PlannedSize(x, mode, p, d), s);
    }
    AllFreshThen(x, mode, p, s);
    live := NewStore(x.st);
    WorkGrows(mode, x.recs, x.work);
    DenseGrows(x.layers, x.work, x.dense);
  }

  lemma AllFreshThen(x: Setup, mode: Mode, p: nat, s: nat)
    requires SetUp(x, mode, p, s)
    ensures AllFresh(x.st.devs, x.st.p.unit)
  {
    forall d | 0 <= d < |x.st.devs|
      ensures x.st.devs[d] == Fresh(x.st.devs[d].geo, x.st.devs[d].disk) && x.st.devs[d].geo.Ok()
      ensures x.st.devs[d].geo.unit == PAGE && |x.st.devs[d].disk| == x.st.devs[d].geo.segments * x.st.devs[d].geo.sp
    {
      FreshDevice(x.st.devs[d], PlannedSize(x, mode, p, d), s);
    }
  }

  /**
    A trial of a planned store succeeds exactly when each device's share fits into the segments its extent is cut
    into.
   */
  lemma SetUpFitsIff(x: Setup, mode: Mode, p: nat, s: nat) returns (after: Live)
    requires SetUp(x, mode, p, s)
    ensures Shape(x.st)
    ensures var (r, ok) := Trial(x.st, x.content, mode, x.evs);
      && (ok <==> forall d :: 0 <= d < |x.st.devs| ==>
            Used(mode, Shares(x.home, Batches(x.work), d), s) <= x.st.devs[d].geo.segments)
      && (ok ==> Holding(x.st, r, after, x.dense, s) && Closed(r))
      && (ok ==> forall d :: 0 <= d < |x.st.devs| ==>
            |r.devs[d].free| == x.st.devs[d].geo.segments - Used(mode, Shares(x.home, Batches(x.work), d), s))
  {
    hide Holding, Closed, Replayable, Shares, Used, Trial, CheckGeometry, Fresh;
    var live := SetUpReady(x, mode, p, s);
    after := TrialFitsIff(x.st, live, x.content, mode, x.dense, x.evs, s);
    forall d | 0 <= d < |x.st.devs|
      ensures Shares(x.st.p.home, Batches(x.dense), d) == Shares(x.home, Batches(x.work), d)
      ensures |x.st.devs[d].free| == x.st.devs[d].geo.segments
    {
      DenseShares(x.home, x.layers, x.work, x.dense, d);
      FreshDevice(x.st.devs[d], PlannedSize(x, mode, p, d), s);
    }
  }

  /** The extent in replay segments: as many rows as were reserved. */
  lemma ExtentRows(x: Setup, mode: Mode, p: nat, s: nat, d: nat)
    requires SetUp(x, mode, p, s) && d < |x.st.devs|
    ensures x.st.devs[d].geo.segments * s == Reserved(mode, Shares(x.home, Batches(x.work), d), p) * p
  {
    hide Segment.Inv, Packed, Reserved, Shares, CheckGeometry, Fresh;
    var r, n := Reserved(mode, Shares(x.home, Batches(x.work), d), p), x.st.devs[d].geo.segments;
    FreshDevice(x.st.devs[d], PlannedSize(x, mode, p, d), s);
    assert n * (s * PAGE) == (n * s) * PAGE && r * (p * PAGE) == (r * p) * PAGE;
    MulCancel(n * s, r * p, PAGE);
  }

  // ---------- when planned extents suffice ----------

  /** Batches fit into an extent planned with p rows to a segment, cut into segments of s rows. */
  lemma DividingFits(mode: Mode, ns: seq<nat>, p: nat, s: nat, segments: nat)
    requires 0 < p && 0 < s && segments * s == Reserved(mode, ns, p) * p && (mode == Snapshot || p % s == 0)
    ensures Used(mode, ns, s) <= segments
  {
    hide Padded, Sum, CeilDiv;
    if mode == Snapshot {
      MulMono(CeilDiv(Sum(ns), p), Reserved(mode, ns, p), p);
      CeilFits(Sum(ns), p, CeilDiv(Sum(ns), p));
      CeilFits(Sum(ns), s, segments);
    } else {
      hide Used, Reserved;
      FewerLarger(ns, p / s, s);
      assert p == (p / s) * s;
      SameRows(segments, s, Reserved(Online, ns, p), p / s);
    }
  }

  lemma FewerLarger(ns: seq<nat>, k: nat, s: nat)
    requires 0 < s && 0 < k * s
    ensures Used(Online, ns, s) <= k * Reserved(Online, ns, k * s)
  {
    hide Padded;
    UsedFine(Online, ns, s, k);
    MulMono(Used(Online, ns, k * s), Reserved(Online, ns, k * s), k);
  }

  lemma SameRows(segments: nat, s: nat, r: nat, k: nat)
    requires 0 < s && segments * s == r * (k * s)
    ensures segments == k * r
  {
    assert r * (k * s) == (k * r) * s;
    MulCancel(segments, k * r, s);
  }

  /**
    Planned extents suffice: as a snapshot for every segment size the devices accept, online for every size that divides
    the planned one. With the planned size itself every segment is used, except the one an empty device gets.
   */
  lemma PlannedSuffices(x: Setup, mode: Mode, p: nat, s: nat) returns (after: Live)
    requires SetUp(x, mode, p, s) && (mode == Snapshot || p % s == 0)
    ensures Shape(x.st)
    ensures var (r, ok) := Trial(x.st, x.content, mode, x.evs);
      && ok && Holding(x.st, r, after, x.dense, s) && Closed(r)
      && (p == s ==> forall d :: 0 <= d < |x.st.devs| ==>
            |r.devs[d].free| == if Used(mode, Shares(x.home, Batches(x.work), d), s) == 0 then 1 else 0)
  {
    hide Trial, Holding, Closed, Shares, SetUp, Used;
    after := SetUpFitsIff(x, mode, p, s);
    Positive(x, mode, p, s);
    forall d | 0 <= d < |x.st.devs|
      ensures Used(mode, Shares(x.home, Batches(x.work), d), s) <= x.st.devs[d].geo.segments
      ensures p == s ==> x.st.devs[d].geo.segments == Reserved(mode, Shares(x.home, Batches(x.work), d), p)
    {
      ExtentRows(x, mode, p, s, d);
      DividingFits(mode, Shares(x.home, Batches(x.work), d), p, s, x.st.devs[d].geo.segments);
      if p == s {
        MulCancel(x.st.devs[d].geo.segments, Reserved(mode, Shares(x.home, Batches(x.work), d), p), s);
      }
    }
  }

  lemma Positive(x: Setup, mode: Mode, p: nat, s: nat)
    requires SetUp(x, mode, p, s)
    ensures 0 < p && 0 < s
  {
  }

  // ---------- releasing what was loaded ----------

  /** The release loop at the end of a request: every loaded layer, in some order. */
  ghost function ReleaseLoaded(st: Store, recs: seq<Record>, order: seq<nat>): (r: Store)
    requires Shape(st)
    ensures Shape(r)
    decreases |order|
  {
    if order == [] then st
    else
      ReleaseAllShape(st, order[0], Span(0, Loaded(recs, order[0])));
      ReleaseLoaded(ReleaseAll(st, order[0], Span(0, Loaded(recs, order[0]))).0, recs, order[1..])
  }

  lemma {:induction false} ReleaseAllShape(st: Store, layer: nat, ts: seq<nat>)
    requires Shape(st)
    ensures var r := ReleaseAll(st, layer, ts).0;
      && Shape(r) && r.p == st.p && |r.devs| == |st.devs|
      && forall d :: 0 <= d < |st.devs| ==> r.devs[d].buf == st.devs[d].buf && r.devs[d].geo == st.devs[d].geo
    decreases |ts|
  {
    if ts != [] {
      var k := Key(layer, ts[0]);
      ReleaseTokenShape(st, k);
      ReleaseBuffers(st, k);
      if ReleaseToken(st, k).1 == NoFault {
        hide ReleaseToken;
        ReleaseAllShape(ReleaseToken(st, k).0, layer, ts[1..]);
      }
    }
  }

  lemma ReleaseBuffers(st: Store, k: Key)
    requires Shape(st)
    ensures var r := ReleaseToken(st, k).0;
      && |r.devs| == |st.devs|
      && forall d :: 0 <= d < |st.devs| ==> r.devs[d].buf == st.devs[d].buf && r.devs[d].geo == st.devs[d].geo
  {
  }

  /** One layer: exactly its loaded tokens stop being valid. */
  lemma ReleaseLayer(st: Store, live: Live, layer: nat, n: nat) returns (after: Live)
    requires Exact(st, live) && n <= st.p.tokens && (n > 0 ==> layer < st.p.layers)
    ensures Shape(st)
    ensures var r := ReleaseAll(st, layer, Span(0, n)).0;
      Exact(r, after) && forall k :: k in r.slots <==> k in st.slots && !(k.layer == layer && k.token < n)
  {
    hide Owns, Meaning, Tight, Undisturbed, Segment.Inv, ReleaseAll;
    after := ReleaseAllKeeps(st, live, layer, Span(0, n));
    var r := ReleaseAll(st, layer, Span(0, n)).0;
    AddressedStays(st, r, TokenKeys(layer, Span(0, n)));
    forall i | 0 <= i < n
      ensures Span(0, n)[i] == i
    {
      SpanIs(0, n, i);
    }
    var ts := Span(0, n);
    assert ts[..|ts|] == ts;
    forall k
      ensures k in TokenKeys(layer, ts) <==> k.layer == layer && k.token < n
    {
      if k.layer == layer && k.token < n {
        assert Key(layer, ts[k.token]) == k;
      }
    }
    assert Contents(r).Keys == r.slots.Keys && Contents(st).Keys == st.slots.Keys;
  }

  ghost predicate InTable(p: Params, recs: seq<Record>) {
    forall l: nat :: Loaded(recs, l) <= p.tokens && (Loaded(recs, l) > 0 ==> l < p.layers)
  }

  lemma {:induction false} ReleasesAll(st: Store, live: Live, recs: seq<Record>, order: seq<nat>) returns (after: Live)
    requires Exact(st, live) && InTable(st.p, recs)
    ensures Shape(st)
    ensures var r := ReleaseLoaded(st, recs, order);
      && Exact(r, after) && SameBuffers(st, r)
      && forall k :: k in r.slots <==> k in st.slots && !(k.layer in order && k.token < Loaded(recs, k.layer))
    decreases |order|
  {
    hide Exact, Shape, Loaded, ReleaseAll;
    after := live;
    ExactShape(st, live);
    if order != [] {
      var l := order[0];
      after := ReleaseLayer(st, live, l, Loaded(recs, l));
      ReleaseAllShape(st, l, Span(0, Loaded(recs, l)));
      after := ReleasesAll(ReleaseAll(st, l, Span(0, Loaded(recs, l))).0, after, recs, order[1..]);
      assert forall x :: x in order <==> x == l || x in order[1..];
    }
  }

  lemma ExactShape(st: Store, live: Live)
    requires Exact(st, live)
    ensures Shape(st)
  {
  }

  ghost predicate SameBuffers(st: Store, r: Store) {
    && r.p == st.p && |r.devs| == |st.devs|
    && forall d :: 0 <= d < |st.devs| ==> r.devs[d].buf == st.devs[d].buf && r.devs[d].geo == st.devs[d].geo
  }

  /** What the trace loads fits the slot table. */
  lemma {:induction false} LoadedInTable(p: Params, content: Key -> Data, recs: seq<Record>, evs: seq<Event>, l: nat)
    requires Grows(recs) && Shuffles(evs, Batches(recs)) && AllLoadable(p, content, evs)
    ensures Loaded(recs, l) <= p.tokens && (Loaded(recs, l) > 0 ==> l < p.layers)
    decreases |recs|
  {
    if recs != [] {
      var n := |recs| - 1;
      GrowsPrefix(recs, n);
      assert Batches(recs)[..n] == Batches(recs[..n]);
      assert forall i :: 0 <= i < n ==> Batches(recs)[i] == Batches(recs[..n])[i];
      LoadedInTable(p, content, recs[..n], evs[..n], l);
      assert Shuffle(evs[n], Batches(recs)[n]) && Loadable(p, content, evs[n]);
      assert Loaded(recs[..n], recs[n].layer) <= recs[n].length;
      TopInRange(p, content, recs[n].layer, Loaded(recs[..n], recs[n].layer), recs[n].length, evs[n]);
    }
  }

  /** The last token of a step's range is in the table. */
  lemma TopInRange(p: Params, content: Key -> Data, layer: nat, start: nat, end: nat, e: Event)
    requires start <= end && Shuffle(e, Event(layer, Range(start, end))) && Loadable(p, content, e)
    ensures start < end ==> layer < p.layers && end <= p.tokens
  {
    if start < end {
      SpanIs(start, end - start, end - 1 - start);
      assert end - 1 in Range(start, end);
      var i := Occurs(end - 1, e.tokens, multiset(Range(start, end)));
    }
  }

  /**
    Plan, replay and reclaim: the planned extents take the whole trace, and releasing the loaded tokens of every layer,
    in any order, leaves every segment of every device free, as the trial checks at the end of a request.
   */
  lemma PlanReplayReclaim(x: Setup, mode: Mode, p: nat, s: nat, order: seq<nat>)
    requires SetUp(x, mode, p, s) && (mode == Snapshot || p % s == 0)
    requires forall l: nat :: Loaded(x.dense, l) > 0 ==> l in order
    ensures Shape(x.st)
    ensures var (r, ok) := Trial(x.st, x.content, mode, x.evs);
      && ok && r.slots.Keys == LoadedKeys(x.dense)
      && var e := ReleaseLoaded(r, x.dense, order);
         && e.slots == map[] && |e.devs| == |x.st.devs|
         && forall d :: 0 <= d < |e.devs| ==>
              e.devs[d].buf.NoBuffer? && |e.devs[d].free| == PlannedSize(x, mode, p, d) / (s * PAGE)
  {
    hide Trial, Exact, Packed, Loaded, ReleaseLoaded, PlannedSize, CheckGeometry, Fresh, Shares, Used;
    var after := PlannedSuffices(x, mode, p, s);
    var r := Trial(x.st, x.content, mode, x.evs).0;
    WorkGrows(mode, x.recs, x.work);
    DenseGrows(x.layers, x.work, x.dense);
    forall l: nat
      ensures Loaded(x.dense, l) <= r.p.tokens && (Loaded(x.dense, l) > 0 ==> l < r.p.layers)
    {
      LoadedInTable(x.st.p, x.content, x.dense, x.evs, l);
    }
    var last := ReleasesAll(r, after, x.dense, order);
    var e := ReleaseLoaded(r, x.dense, order);
    forall k
      ensures k !in e.slots
    {
      LoadedKeysIs(x.dense, k);
    }
    assert e.slots.Keys == {};
    forall d | 0 <= d < |e.devs|
      ensures |e.devs[d].free| == PlannedSize(x, mode, p, d) / (s * PAGE)
    {
      Reclaimed(e, last, d);
      FreshDevice(x.st.devs[d], PlannedSize(x, mode, p, d), s);
      DivUnique(x.st.devs[d].geo.segments, 0, s * PAGE);
    }
  }

  lemma Reclaimed(st: Store, live: Live, d: nat)
    requires Exact(st, live) && st.slots == map[] && d < |st.devs| && st.devs[d].buf.NoBuffer?
    ensures |st.devs[d].free| == st.devs[d].geo.segments
  {
    EverythingReclaimed(st, live, d);
  }
}
