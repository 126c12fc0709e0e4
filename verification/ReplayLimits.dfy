/**
  Which segment sizes an online replay may use on extents planned for another size (bmpclient/bench/layout_replay.py).
 */
module ReplayLimits {
  import opened Arith
  import opened Bytes
  import opened Finite
  import opened Placement
  import opened Segment
  import SlotTable
  import opened Media
  import opened KVStore
  import opened SingleAssignment
  import opened Planner
  import opened Replay
  import opened PlannedReplay
  import D = Descriptor

  // ---------- a store of one device ----------

  function ZeroHome(): Key -> nat {
    (k: Key) => 0
  }

  function ZeroContent(): Key -> Data {
    (k: Key) => Zeros(PAGE)
  }

  ghost function OneDevice(s: nat, segments: nat, tokens: nat): Store {
    Store(Params(Original(ZeroHome(), [0]), 1, 1, tokens, PAGE, 1, [0]),
          [Fresh(Geometry(s * PAGE, PAGE, s, segments), Zeros(segments * (s * PAGE)))],
          map[], map[], Zeros(D.HEADER_SIZE + D.ENTRY_SIZE), Zeros(PAGE))
  }

  /** The trace recs of layer 0, loaded in order into one device. */
  ghost function OneSetup(recs: seq<Record>, s: nat, segments: nat, tokens: nat): Setup {
    Setup(ZeroHome(), [0], recs, recs, recs, Batches(recs), ZeroContent(), OneDevice(s, segments, tokens))
  }

  ghost predicate OneLayer(recs: seq<Record>, tokens: nat) {
    forall i :: 0 <= i < |recs| ==> recs[i].layer == 0 && recs[i].length <= tokens
  }

  lemma GeometryAccepted(s: nat, segments: nat)
    requires 0 < s
    ensures CheckGeometry(s * PAGE, PAGE, segments * (s * PAGE)) ==
      Checked.Accepted(Geometry(s * PAGE, PAGE, s, segments))
  {
    DivUnique(s, 0, PAGE);
    DivUnique(segments, 0, s * PAGE);
  }

  lemma {:induction false} BatchesLoadable(p: Params, recs: seq<Record>)
    requires OneLayer(recs, p.tokens) && 0 < p.layers && p.unit == PAGE
    ensures AllLoadable(p, ZeroContent(), Batches(recs))
    decreases |recs|
  {
    if recs != [] {
      var n := |recs| - 1;
      BatchesLoadable(p, recs[..n]);
      var start, end := Loaded(recs[..n], recs[n].layer), recs[n].length;
      forall i | 0 <= i < |Range(start, end)|
        ensures Range(start, end)[i] < p.tokens
      {
        SpanIs(start, end - start, i);
      }
      assert Loadable(p, ZeroContent(), Batches(recs)[n]);
    }
  }

  lemma OneSetUp(recs: seq<Record>, p: nat, s: nat, segments: nat, tokens: nat)
    requires 0 < p && 0 < s && Grows(recs) && OneLayer(recs, tokens) && segments * (s * PAGE) <= SlotTable.MAX_OFFSET
    requires segments * s == Reserved(Online, Shares(ZeroHome(), Batches(recs), 0), p) * p
    ensures SetUp(OneSetup(recs, s, segments, tokens), Online, p, s)
  {
    hide Shares, Reserved, Fresh, CheckGeometry, Loadable;
    var x := OneSetup(recs, s, segments, tokens);
    GeometryAccepted(s, segments);
    BatchesLoadable(x.st.p, recs);
    var r := Reserved(Online, Shares(ZeroHome(), Batches(recs), 0), p);
    assert r * (p * PAGE) == (r * p) * PAGE && segments * (s * PAGE) == (segments * s) * PAGE;
    OneEmpty(s, segments, tokens);
    assert forall i :: 0 <= i < |recs| ==> DenseRecord([0], recs[i], recs[i]);
    assert Shuffles(Batches(recs), Batches(recs));
  }

  lemma OneEmpty(s: nat, segments: nat, tokens: nat)
    requires segments * (s * PAGE) <= SlotTable.MAX_OFFSET
    ensures var st := OneDevice(s, segments, tokens);
      && EmptyStore(st) && Addressed(st) && |st.devs| == 1
      && st.devs[0] == Fresh(Geometry(s * PAGE, PAGE, s, segments), Zeros(segments * (s * PAGE)))
      && st.devs[0].geo == Geometry(s * PAGE, PAGE, s, segments) && st.devs[0].disk == Zeros(segments * (s * PAGE))
  {
  }

  // ---------- a trace that needs more ----------

  /** n contexts of layer 0, each p tokens longer than the last. */
  function Stairs(p: nat, n: nat): (r: seq<Record>)
    ensures |r| == n
  {
    if n == 0 then [] else Stairs(p, n - 1) + [Record(0, n * p)]
  }

  lemma {:induction false} StairsLoaded(p: nat, n: nat)
    ensures Loaded(Stairs(p, n), 0) == n * p && Grows(Stairs(p, n)) && OneLayer(Stairs(p, n), n * p)
  {
    if n > 0 {
      StairsLoaded(p, n - 1);
      NextMultiple(n, p);
      StairsGrow(Stairs(p, n - 1), (n - 1) * p, n * p);
    }
  }

  lemma StairsGrow(recs: seq<Record>, was: nat, top: nat)
    requires Loaded(recs, 0) == was <= top && Grows(recs) && OneLayer(recs, was)
    ensures var more := recs + [Record(0, top)]; Loaded(more, 0) == top && Grows(more) && OneLayer(more, top)
  {
    GrowsSnoc(recs, Record(0, top));
  }

  lemma {:induction false} AllLand(layer: nat, tokens: seq<nat>)
    ensures Landing(ZeroHome(), layer, tokens, 0) == |tokens|
  {
    if tokens != [] {
      AllLand(layer, tokens[..|tokens| - 1]);
    }
  }

  /** Each step of the stairs is a batch of p rows. */
  lemma {:induction false} StairsShares(p: nat, n: nat)
    ensures Shares(ZeroHome(), Batches(Stairs(p, n)), 0) == Repeat(p, n)
  {
    if n > 0 {
      StairsShares(p, n - 1);
      StairsLoaded(p, n - 1);
      NextMultiple(n, p);
      var recs := Stairs(p, n);
      assert recs[..n - 1] == Stairs(p, n - 1);
      assert Batches(recs)[..n - 1] == Batches(Stairs(p, n - 1));
      AllLand(0, Batches(recs)[n - 1].tokens);
    }
  }

  /** n batches of p rows are planned as n segments of p rows, which segments of s rows cannot hold. */
  lemma StairsOverflow(p: nat, s: nat, n: nat, segments: nat)
    requires 0 < p && 0 < s && 0 < n && p % s != 0 && segments * s == n * p
    ensures Reserved(Online, Repeat(p, n), p) == n && Used(Online, Repeat(p, n), s) > segments
  {
    hide CeilDiv, Padded, Repeat;
    PaddedRepeat(p, n, p);
    PaddedRepeat(p, n, s);
    CeilDivIs(p, p, 1);
    CeilAbove(p, s);
    var c := CeilDiv(p, s);
    MulMono(p + 1, s * c, n);
    assert (s * c) * n == (n * c) * s && (p + 1) * n == n * p + n;
    if n * c <= segments {
      MulMono(n * c, segments, s);
      assert false;
    }
  }

  // ---------- the exact condition ----------

  ghost predicate TrialOk(x: Setup, mode: Mode) {
    Shape(x.st) && AllLoadable(x.st.p, x.content, x.evs) && Trial(x.st, x.content, mode, x.evs).1
  }

  /** Every online replay with segments of s pages of extents planned with p pages succeeds. */
  ghost predicate OnlineSafe(p: nat, s: nat) {
    forall x :: SetUp(x, Online, p, s) && x.st.devs != [] ==> TrialOk(x, Online)
  }

  /** Some extent that slots can address is a whole number of segments of either size. */
  ghost predicate CommonExtent(p: nat, s: nat)
    requires 0 < p && 0 < s
  {
    exists m: nat :: IsCommon(m, p, s)
  }

  ghost predicate IsCommon(m: nat, p: nat, s: nat)
    requires 0 < p && 0 < s
  {
    0 < m && m % p == 0 && m % s == 0 && m * PAGE <= SlotTable.MAX_OFFSET
  }

  /** A failing replay: n batches of p rows. */
  lemma OverflowingTrial(p: nat, s: nat, n: nat, segments: nat) returns (x: Setup)
    requires 0 < p && 0 < s && 0 < n && p % s != 0 && segments * s == n * p && (n * p) * PAGE <= SlotTable.MAX_OFFSET
    ensures SetUp(x, Online, p, s) && x.st.devs != [] && !TrialOk(x, Online)
  {
    hide Shares, Reserved, Used, Fresh, CheckGeometry, SetUp, Trial, Stairs, Repeat, Holding, Closed;
    StairsLoaded(p, n);
    StairsShares(p, n);
    StairsOverflow(p, s, n, segments);
    Pages(segments, s);
    x := OneSetup(Stairs(p, n), s, segments, n * p);
    OneSetUp(Stairs(p, n), p, s, segments, n * p);
    OneEmpty(s, segments, n * p);
    var after := SetUpFitsIff(x, Online, p, s);
  }

  lemma Pages(segments: nat, s: nat)
    ensures segments * (s * PAGE) == (segments * s) * PAGE
  {
  }

  lemma CommonParts(m: nat, p: nat, s: nat) returns (n: nat, segments: nat)
    requires 0 < p && 0 < s && IsCommon(m, p, s)
    ensures 0 < n && n * p == m && segments * s == m && m * PAGE <= SlotTable.MAX_OFFSET
  {
    n, segments := m / p, m / s;
    assert m == n * p + m % p && m == segments * s + m % s;
    if n == 0 {
      assert false;
    }
  }

  /** A planned device's extent is common to both sizes. */
  lemma PlannedIsCommon(x: Setup, p: nat, s: nat)
    requires SetUp(x, Online, p, s) && x.st.devs != []
    ensures CommonExtent(p, s)
  {
    hide Shares, Fresh, CheckGeometry;
    ExtentRows(x, Online, p, s, 0);
    var r, n := Reserved(Online, Shares(x.home, Batches(x.work), 0), p), x.st.devs[0].geo.segments;
    var m := n * s;
    DivUnique(r, 0, p);
    DivUnique(n, 0, s);
    FreshDevice(x.st.devs[0], PlannedSize(x, Online, p, 0), s);
    SpOf(x.st.devs[0], PlannedSize(x, Online, p, 0), s);
    assert n * (s * PAGE) == m * PAGE;
    MulMono(1, r, p);
    assert IsCommon(m, p, s);
  }

  lemma SpOf(dev: Device, size: nat, s: nat)
    requires PlannedDevice(dev, size, s)
    ensures dev.geo.sp == s * PAGE
  {
  }

  /**
    Online, a segment size is safe for every trace and placement if and only if it divides the planned one. (Or no
    extent at all can be cut into both sizes, and there is nothing to replay.)
   */
  lemma OnlineFitsIff(p: nat, s: nat)
    requires 0 < p && 0 < s
    ensures OnlineSafe(p, s) <==> p % s == 0 || !CommonExtent(p, s)
  {
    if p % s == 0 {
      forall x | SetUp(x, Online, p, s) && x.st.devs != []
        ensures TrialOk(x, Online)
      {
        DividingOk(x, p, s);
      }
    } else if CommonExtent(p, s) {
      var m: nat :| IsCommon(m, p, s);
      var n, segments := CommonParts(m, p, s);
      var x := OverflowingTrial(p, s, n, segments);
    } else {
      forall x: Setup
        ensures !(SetUp(x, Online, p, s) && x.st.devs != [])
      {
        if SetUp(x, Online, p, s) && x.st.devs != [] {
          PlannedIsCommon(x, p, s);
          assert false;
        }
      }
    }
  }

  lemma DividingOk(x: Setup, p: nat, s: nat)
    requires SetUp(x, Online, p, s) && p % s == 0
    ensures TrialOk(x, Online)
  {
    hide Trial;
    var after := PlannedSuffices(x, Online, p, s);
  }

  /**
    24 KiB segments planned, 16 KiB replayed, contexts of 5 and then 10 tokens: both sizes pass the geometry check on
    the planned 48 KiB, and the replay runs out of segments.
   */
  lemma SixFourOverflow() returns (x: Setup)
    ensures SetUp(x, Online, 6, 4) && x.recs == [Record(0, 5), Record(0, 10)]
    ensures PlannedSize(x, Online, 6, 0) == 48 * 1024
    ensures CheckGeometry(6 * PAGE, PAGE, 48 * 1024).Accepted? && CheckGeometry(4 * PAGE, PAGE, 48 * 1024).Accepted?
    ensures !TrialOk(x, Online)
  {
    var recs := Stairs(5, 2);
    assert recs == [Record(0, 5), Record(0, 10)];
    StairsLoaded(5, 2);
    StairsShares(5, 2);
    FiveFive();
    hide Shares, Reserved, Used, Fresh, CheckGeometry, SetUp, Repeat, Stairs;
    x := OneSetup(recs, 4, 3, 10);
    OneSetUp(recs, 6, 4, 3, 10);
    OneEmpty(4, 3, 10);
    var after := SetUpFitsIff(x, Online, 6, 4);
    GeometryAccepted(6, 2);
    GeometryAccepted(4, 3);
  }

  lemma FiveFive()
    ensures Reserved(Online, Repeat(5, 2), 6) == 2 && Used(Online, Repeat(5, 2), 4) == 4
  {
    hide CeilDiv, Padded, Repeat;
    PaddedRepeat(5, 2, 6);
    PaddedRepeat(5, 2, 4);
    CeilDivIs(5, 6, 1);
    CeilDivIs(5, 4, 2);
  }
}
