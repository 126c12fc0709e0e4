/**
  Replaying a trace into a store whose extents were planned (bmpclient/bench/layout_replay.py): when an append runs out
  of segments, how many segments a replay uses, and what is left after every loaded token is released.
 */
module Replay {
  import opened Arith
  import opened Finite
  import opened Placement
  import opened Segment
  import opened Media
  import opened KVStore
  import opened StoreRuns
  import opened SingleAssignment
  import opened Planner

  // ---------- one device ----------

  /** Everything in the segment being filled is live. */
  ghost predicate Packed(d: Device) {
    d.buf.Filling? ==> 0 < d.buf.fill && d.buf.seg < |d.refs| && d.refs[d.buf.seg] == d.buf.fill
  }

  /** Units that can still be appended. */
  function Room(d: Device): int {
    |d.free| * d.geo.slots + (if d.buf.Filling? then d.geo.slots - d.buf.fill else 0)
  }

  lemma RoomPositive(d: Device)
    requires WellFormed(d)
    ensures 0 <= Room(d)
    ensures 0 < Room(d) <==> d.free != [] || (d.buf.Filling? && d.buf.fill < d.geo.slots)
  {
    if d.free != [] {
      MulMono(1, |d.free|, d.geo.slots);
    }
  }

  /** An append succeeds exactly while there is room, and takes one slot of it. */
  lemma AppendIff(d: Device, live: map<nat, Data>, data: Data)
    requires Segment.Inv(d, live) && Packed(d) && |data| == d.geo.unit
    ensures var (e, r) := Append(d, data);
      && (r.Ok? <==> 0 < Room(d)) && e.geo == d.geo
      && (r.Ok? ==> Packed(e) && Room(e) == Room(d) - 1)
  {
    RoomPositive(d);
    if NoRoom(d) {
      if d.buf.Filling? {
        FlushBufferKeeps(d, live);
        OpenNext(FlushBuffer(d));
      } else {
        OpenNext(d);
      }
    }
  }

  /** Opening a segment turns one free segment into room in the buffer. */
  lemma OpenNext(d: Device)
    requires WellFormed(d) && FreeStackExact(d) && d.buf.NoBuffer?
    ensures d.free != [] ==> Room(StartSegment(d)) == Room(d) && d.refs[StartSegment(d).buf.seg] == 0
  {
    if d.free != [] {
      PopExact(d, StartSegment(d));
      assert |d.free| * d.geo.slots == (|d.free| - 1) * d.geo.slots + d.geo.slots;
    }
  }

  /** Flushing gives up the rest of the open segment. */
  lemma FlushPads(d: Device, live: map<nat, Data>, free: nat, n: nat)
    requires Segment.Inv(d, live) && Packed(d) && Room(d) == free * d.geo.slots - n
    ensures var e := Flush(d);
      Packed(e) && e.buf.NoBuffer? && e.geo == d.geo && |e.free| == free - CeilDiv(n, d.geo.slots)
  {
    FlushKeeps(d, live);
    PadsTo(free, |d.free|, d.geo.slots, if d.buf.Filling? then d.buf.fill else d.geo.slots, n);
  }

  lemma PadsTo(free: nat, left: nat, s: nat, fill: nat, n: nat)
    requires 0 < fill <= s && left * s + s - fill == free * s - n
    ensures left == free - CeilDiv(n, s)
  {
    assert (free - left) * s == free * s - left * s;
    assert (free - left - 1) * s == (free - left) * s - s;
    CeilDivIs(n, s, free - left);
  }

  // ---------- a store being loaded ----------

  /** No unit leaked, no copies, every device packed, s units to a segment. */
  ghost predicate Ready(st: Store, live: Live, s: nat) {
    && Exact(st, live) && st.cache == map[]
    && forall d :: 0 <= d < |st.devs| ==> Packed(st.devs[d]) && st.devs[d].geo.slots == s
  }

  ghost predicate Closed(st: Store) {
    forall d :: 0 <= d < |st.devs| ==> st.devs[d].buf.NoBuffer?
  }

  ghost predicate SameGeometry(st: Store, e: Store) {
    && e.p == st.p && |e.devs| == |st.devs|
    && forall d :: 0 <= d < |st.devs| ==> e.devs[d].geo == st.devs[d].geo
  }

  /** One token: refused exactly when its device has no room. */
  lemma WriteFits(st: Store, live: Live, k: Key, data: Data, s: nat) returns (after: Live)
    requires Ready(st, live, s) && InRange(st.p, k) && |data| == st.p.unit && k !in st.slots
    ensures var (e, f) := WriteToken(st, k, data);
      && (f == NoFault <==> 0 < Room(st.devs[st.p.home(k)]))
      && (f == NoFault ==> Ready(e, after, s) && SameGeometry(st, e) && e.slots.Keys == st.slots.Keys + {k})
      && (f == NoFault ==> forall d :: 0 <= d < |st.devs| ==>
            Room(e.devs[d]) == Room(st.devs[d]) - if d == st.p.home(k) then 1 else 0)
  {
    hide Segment.Inv, Append, Owns, Meaning, Tight, Room, Packed;
    var h := st.p.home(k);
    AppendIff(st.devs[h], live[h], data);
    OffsetFits(st.devs[h], live[h], data);
    after := WriteExact(st, live, k, data);
  }

  /** The writes of one append step. */
  function Loads(content: Key -> Data, e: Event): (ws: seq<KVStore.Write>)
    ensures |ws| == |e.tokens|
    ensures forall i :: 0 <= i < |ws| ==> ws[i] == Write(Key(e.layer, e.tokens[i]), content(Key(e.layer, e.tokens[i])))
  {
    seq(|e.tokens|, i requires 0 <= i < |e.tokens| =>
      var k := Key(e.layer, e.tokens[i]);
      Write(k, content(k)))
  }

  /** The step's tokens are in range, with units of content. */
  ghost predicate Loadable(p: Params, content: Key -> Data, e: Event) {
    e.layer < p.layers && (forall i :: 0 <= i < |e.tokens| ==> e.tokens[i] < p.tokens) &&
    forall k :: |content(k)| == p.unit
  }

  ghost function EventKeys(e: Event): set<Key> {
    set i | 0 <= i < |e.tokens| :: Key(e.layer, e.tokens[i])
  }

  lemma EventKeysFirst(e: Event)
    requires e.tokens != []
    ensures EventKeys(e) == {Key(e.layer, e.tokens[0])} + EventKeys(Event(e.layer, e.tokens[1..]))
  {
    var rest := Event(e.layer, e.tokens[1..]);
    forall i | 0 <= i < |e.tokens|
      ensures Key(e.layer, e.tokens[i]) in {Key(e.layer, e.tokens[0])} + EventKeys(rest)
    {
      assert i > 0 ==> rest.tokens[i - 1] == e.tokens[i];
    }
    forall i | 0 <= i < |rest.tokens|
      ensures Key(e.layer, rest.tokens[i]) in EventKeys(e)
    {
      assert rest.tokens[i] == e.tokens[i + 1];
    }
  }

  /** The whole step fits exactly when every device has room for its share; then exactly that much room is taken. */
  lemma {:induction false} StepFits(st: Store, live: Live, content: Key -> Data, e: Event, s: nat) returns (after: Live)
    requires Ready(st, live, s) && Loadable(st.p, content, e) && NoDuplicates(e.tokens) && EventKeys(e) !! st.slots.Keys
    ensures WritesOk(st.p, Loads(content, e))
    ensures var (r, n) := WriteAll(st, Loads(content, e));
      && (n == |e.tokens| <==> forall d :: 0 <= d < |st.devs| ==>
           Landing(st.p.home, e.layer, e.tokens, d) <= Room(st.devs[d]))
      && (n == |e.tokens| ==> Ready(r, after, s) && SameGeometry(st, r) && r.slots.Keys == st.slots.Keys + EventKeys(e))
      && (n == |e.tokens| ==> forall d :: 0 <= d < |st.devs| ==>
            Room(r.devs[d]) == Room(st.devs[d]) - Landing(st.p.home, e.layer, e.tokens, d))
    decreases |e.tokens|
  {
    hide WriteToken, Ready, Room;
    after := live;
    ReadyShape(st, live, s);
    if e.tokens != [] {
      var rest, ws := Event(e.layer, e.tokens[1..]), Loads(content, e);
      var k := Key(e.layer, e.tokens[0]);
      assert ws[1..] == Loads(content, rest);
      EventKeysFirst(e);
      FirstIsNew(e);
      after := WriteFits(st, live, k, content(k), s);
      var (mid, f) := WriteToken(st, k, content(k));
      forall d | 0 <= d < |st.devs|
        ensures Landing(st.p.home, e.layer, e.tokens, d) ==
          (if st.p.home(k) == d then 1 else 0) + Landing(st.p.home, e.layer, rest.tokens, d)
      {
        LandingFirst(st.p.home, e.layer, e.tokens, d);
      }
      hide Landing;
      if f == NoFault {
        after := StepFits(mid, after, content, rest, s);
      }
    }
  }

  lemma ReadyShape(st: Store, live: Live, s: nat)
    requires Ready(st, live, s)
    ensures Shape(st) && Readable(st) && forall d :: 0 <= d < |st.devs| ==> 0 <= Room(st.devs[d])
  {
    hide Segment.Inv, Owns, Meaning, Room;
    InvReads(st, live);
    forall d | 0 <= d < |st.devs|
      ensures 0 <= Room(st.devs[d])
    {
      RoomPositive(st.devs[d]);
    }
  }

  lemma FirstIsNew(e: Event)
    requires e.tokens != [] && NoDuplicates(e.tokens)
    ensures Key(e.layer, e.tokens[0]) !in EventKeys(Event(e.layer, e.tokens[1..])) && NoDuplicates(e.tokens[1..])
  {
    var rest := e.tokens[1..];
    assert forall i :: 0 <= i < |rest| ==> rest[i] == e.tokens[i + 1];
  }

  /** Flushing a store pads every device's share to whole segments. */
  lemma FlushFits(st: Store, live: Live, s: nat, free: seq<int>, ns: seq<int>)
    requires Ready(st, live, s) && 0 < s && |free| == |ns| == |st.devs|
    requires forall d :: 0 <= d < |st.devs| ==> 0 <= free[d] && 0 <= ns[d]
    requires forall d :: 0 <= d < |st.devs| ==> Room(st.devs[d]) == free[d] * s - ns[d]
    ensures Shape(st) && Ready(FlushStore(st), live, s) && Closed(FlushStore(st)) && SameGeometry(st, FlushStore(st))
    ensures FlushStore(st).slots == st.slots
    ensures forall d :: 0 <= d < |st.devs| ==> |FlushStore(st).devs[d].free| == free[d] - CeilDiv(ns[d], s)
  {
    hide Segment.Inv, Flush, Owns, Meaning, Tight, Room, Packed, Undisturbed;
    FlushStoreKeeps(st, live);
    AddressedStays(st, FlushStore(st), {});
    forall d | 0 <= d < |st.devs|
      ensures Packed(Flush(st.devs[d])) && Flush(st.devs[d]).buf.NoBuffer? && Flush(st.devs[d]).geo == st.devs[d].geo
      ensures |Flush(st.devs[d]).free| == free[d] - CeilDiv(ns[d], s)
    {
      FlushPads(st.devs[d], live[d], free[d], ns[d]);
    }
  }

  // ---------- the schedule of a trial ----------

  ghost predicate AllLoadable(p: Params, content: Key -> Data, evs: seq<Event>) {
    forall i :: 0 <= i < |evs| ==> Loadable(p, content, evs[i])
  }

  lemma LoadsOk(p: Params, content: Key -> Data, e: Event)
    requires Loadable(p, content, e)
    ensures WritesOk(p, Loads(content, e))
  {
  }

  lemma {:induction false} WriteAllShape(st: Store, ws: seq<KVStore.Write>)
    requires Shape(st) && WritesOk(st.p, ws)
    ensures Shape(WriteAll(st, ws).0) && WriteAll(st, ws).0.p == st.p
    decreases |ws|
  {
    hide WriteToken;
    if ws != [] {
      WriteTokenShape(st, ws[0].key, ws[0].data);
      if WriteToken(st, ws[0].key, ws[0].data).1 == NoFault {
        WriteAllShape(WriteToken(st, ws[0].key, ws[0].data).0, ws[1..]);
      }
    }
  }

  lemma FlushShape(st: Store)
    requires Shape(st)
    ensures Shape(FlushStore(st)) && FlushStore(st).p == st.p
  {
  }

  /** Append step after append step, a flush after each one online; a step that cannot be stored ends the replay. */
  ghost function Steps(st: Store, content: Key -> Data, mode: Mode, evs: seq<Event>): (r: (Store, bool))
    requires Shape(st) && AllLoadable(st.p, content, evs)
    ensures Shape(r.0) && r.0.p == st.p
    decreases |evs|
  {
    if evs == [] then (st, true)
    else
      var (mid, ok) := Steps(st, content, mode, evs[..|evs| - 1]);
      if !ok then (mid, false) else OneStep(mid, content, mode, evs[|evs| - 1])
  }

  ghost function OneStep(st: Store, content: Key -> Data, mode: Mode, e: Event): (r: (Store, bool))
    requires Shape(st) && Loadable(st.p, content, e)
    ensures Shape(r.0) && r.0.p == st.p
  {
    LoadsOk(st.p, content, e);
    WriteAllShape(st, Loads(content, e));
    var (more, n) := WriteAll(st, Loads(content, e));
    FlushShape(more);
    if n < |e.tokens| then (more, false) else (if mode == Online then FlushStore(more) else more, true)
  }

  /** The loading part of a trial: the steps, then the one flush a snapshot makes. */
  ghost function Trial(st: Store, content: Key -> Data, mode: Mode, evs: seq<Event>): (r: (Store, bool))
    requires Shape(st) && AllLoadable(st.p, content, evs)
    ensures Shape(r.0) && r.0.p == st.p
  {
    var (e, ok) := Steps(st, content, mode, evs);
    FlushShape(e);
    (if ok && mode == Snapshot then FlushStore(e) else e, ok)
  }

  // ---------- tokens of a trace ----------

  /** Each step inserts its batch's tokens in some order. */
  ghost predicate Shuffles(evs: seq<Event>, bs: seq<Event>) {
    |evs| == |bs| && forall i :: 0 <= i < |bs| ==> Shuffle(evs[i], bs[i])
  }

  ghost predicate Shuffle(e: Event, b: Event) {
    e.layer == b.layer && multiset(e.tokens) == multiset(b.tokens)
  }

  lemma {:induction false} SharesShuffled(home: Key -> nat, evs: seq<Event>, bs: seq<Event>, d: nat)
    requires Shuffles(evs, bs)
    ensures Shares(home, evs, d) == Shares(home, bs, d)
    decreases |evs|
  {
    if evs != [] {
      var n := |evs| - 1;
      SharesShuffled(home, evs[..n], bs[..n], d);
      assert Shuffle(evs[n], bs[n]);
      LandingShuffled(home, evs[n].layer, evs[n].tokens, bs[n].tokens, d);
    }
  }

  lemma {:induction false} SpanIs(start: nat, len: nat, i: nat)
    requires i < len
    ensures Span(start, len)[i] == start + i
  {
    if i < len - 1 {
      SpanIs(start, len - 1, i);
    }
  }

  lemma SpanDistinct(start: nat, len: nat)
    ensures NoDuplicates(Span(start, len))
  {
    forall i, j | 0 <= i < j < len
      ensures Span(start, len)[i] != Span(start, len)[j]
    {
      SpanIs(start, len, i);
      SpanIs(start, len, j);
    }
  }

  lemma {:induction false} MultiplicityOne(s: seq<nat>)
    requires NoDuplicates(s)
    ensures forall x :: multiset(s)[x] <= 1
    decreases |s|
  {
    if s != [] {
      var n := |s| - 1;
      MultiplicityOne(s[..n]);
      assert s == s[..n] + [s[n]];
      assert s[n] !in s[..n];
    }
  }

  lemma ShuffledDistinct(a: seq<nat>, b: seq<nat>)
    requires NoDuplicates(a) && multiset(a) == multiset(b)
    ensures NoDuplicates(b)
  {
    MultiplicityOne(a);
    forall i, j | 0 <= i < j < |b|
      ensures b[i] != b[j]
    {
      var x, front, rest := b[i], b[..i] + [b[i]], b[i + 1..];
      assert b == front + rest;
      assert multiset(b)[x] == multiset(front)[x] + multiset(rest)[x];
      assert front[i] == x && multiset(front)[x] >= 1;
      assert rest[j - i - 1] == b[j];
    }
  }

  lemma ShuffledKeys(e: Event, b: Event)
    requires Shuffle(e, b)
    ensures EventKeys(e) == EventKeys(b)
  {
    forall t
      ensures t in e.tokens <==> t in b.tokens
    {
      assert t in e.tokens <==> t in multiset(e.tokens);
    }
    forall k | k in EventKeys(e)
      ensures k in EventKeys(b)
    {
      assert k.token in e.tokens;
      var i :| 0 <= i < |b.tokens| && b.tokens[i] == k.token;
    }
    forall k | k in EventKeys(b)
      ensures k in EventKeys(e)
    {
      assert k.token in b.tokens;
      var i :| 0 <= i < |e.tokens| && e.tokens[i] == k.token;
    }
  }

  /** Keys the steps of a trace have loaded. */
  ghost function LoadedKeys(recs: seq<Record>): set<Key> {
    if recs == [] then {} else LoadedKeys(recs[..|recs| - 1]) + EventKeys(Batches(recs)[|recs| - 1])
  }

  lemma BatchKeys(layer: nat, start: nat, end: nat, k: Key)
    requires start <= end
    ensures k in EventKeys(Event(layer, Range(start, end))) <==> k.layer == layer && start <= k.token < end
  {
    var e := Event(layer, Range(start, end));
    if k.layer == layer && start <= k.token < end {
      SpanIs(start, end - start, k.token - start);
      assert e.tokens[k.token - start] == k.token;
    }
    if k in EventKeys(e) {
      var i :| 0 <= i < |e.tokens| && Key(layer, e.tokens[i]) == k;
      SpanIs(start, end - start, i);
    }
  }

  /** In a growing trace a layer has loaded exactly its tokens below its last context length. */
  lemma {:induction false} LoadedKeysIs(recs: seq<Record>, k: Key)
    requires Grows(recs)
    ensures k in LoadedKeys(recs) <==> k.token < Loaded(recs, k.layer)
  {
    if recs != [] {
      var n := |recs| - 1;
      GrowsPrefix(recs, n);
      LoadedKeysIs(recs[..n], k);
      assert Loaded(recs[..n], recs[n].layer) <= recs[n].length;
      BatchKeys(recs[n].layer, Loaded(recs[..n], recs[n].layer), recs[n].length, k);
    }
  }

  /** The next step of a growing trace brings different tokens, none of them loaded. */
  lemma {:induction false} NextIsNew(recs: seq<Record>, e: Event)
    requires Grows(recs) && recs != [] && Shuffle(e, Batches(recs)[|recs| - 1])
    ensures NoDuplicates(e.tokens) && EventKeys(e) == EventKeys(Batches(recs)[|recs| - 1])
    ensures EventKeys(e) !! LoadedKeys(recs[..|recs| - 1])
  {
    var n := |recs| - 1;
    var start := Loaded(recs[..n], recs[n].layer);
    assert start <= recs[n].length;
    SpanDistinct(start, recs[n].length - start);
    ShuffledDistinct(Batches(recs)[n].tokens, e.tokens);
    ShuffledKeys(e, Batches(recs)[n]);
    GrowsPrefix(recs, n);
    forall k | k in EventKeys(e)
      ensures k !in LoadedKeys(recs[..n])
    {
      BatchKeys(recs[n].layer, start, recs[n].length, k);
      LoadedKeysIs(recs[..n], k);
    }
  }

  // ---------- when a trial fits ----------

  lemma CeilFits(n: nat, s: nat, f: nat)
    requires 0 < s
    ensures n <= f * s <==> CeilDiv(n, s) <= f
  {
    if n <= f * s {
      CeilDivLeast(n, s, f);
    } else if CeilDiv(n, s) <= f {
      MulMono(CeilDiv(n, s), f, s);
    }
  }

  // Per-device amounts, one number for each device.

  ghost predicate Within(need: seq<int>, have: seq<int>)
    requires |need| == |have|
  {
    forall d :: 0 <= d < |need| ==> need[d] <= have[d]
  }

  ghost function Plus(a: seq<int>, b: seq<int>): (r: seq<int>)
    requires |a| == |b|
    ensures |r| == |a| && forall d :: 0 <= d < |a| ==> r[d] == a[d] + b[d]
  {
    seq(|a|, d requires 0 <= d < |a| => a[d] + b[d])
  }

  ghost function Minus(a: seq<int>, b: seq<int>): (r: seq<int>)
    requires |a| == |b|
    ensures |r| == |a| && forall d :: 0 <= d < |a| ==> r[d] == a[d] - b[d]
  {
    seq(|a|, d requires 0 <= d < |a| => a[d] - b[d])
  }

  /** Needs add up. */
  lemma WithinPlus(a: seq<int>, b: seq<int>, have: seq<int>)
    requires |a| == |b| == |have| && forall d :: 0 <= d < |b| ==> 0 <= b[d]
    ensures Within(a, have) ==> (Within(b, Minus(have, a)) <==> Within(Plus(a, b), have))
    ensures !Within(a, have) ==> !Within(Plus(a, b), have)
    ensures Minus(Minus(have, a), b) == Minus(have, Plus(a, b))
  {
    if Within(a, have) && Within(b, Minus(have, a)) {
      forall d | 0 <= d < |a|
        ensures Plus(a, b)[d] <= have[d]
      {
        assert b[d] <= Minus(have, a)[d];
      }
    }
    if Within(Plus(a, b), have) {
      forall d | 0 <= d < |a|
        ensures a[d] <= have[d] && b[d] <= Minus(have, a)[d]
      {
        assert Plus(a, b)[d] <= have[d];
      }
    }
  }

  ghost function Frees(st: Store): (r: seq<int>)
    ensures |r| == |st.devs| && forall d :: 0 <= d < |st.devs| ==> r[d] == |st.devs[d].free|
  {
    seq(|st.devs|, d requires 0 <= d < |st.devs| => |st.devs[d].free|)
  }

  ghost function Rooms(st: Store): (r: seq<int>)
    ensures |r| == |st.devs| && forall d :: 0 <= d < |st.devs| ==> r[d] == Room(st.devs[d])
  {
    seq(|st.devs|, d requires 0 <= d < |st.devs| => Room(st.devs[d]))
  }

  /** Rows of one step on every device. */
  ghost function Rows(home: Key -> nat, e: Event, n: nat): (r: seq<int>)
    ensures |r| == n && forall d :: 0 <= d < n ==> r[d] == Landing(home, e.layer, e.tokens, d)
  {
    seq(n, d requires 0 <= d < n => Landing(home, e.layer, e.tokens, d))
  }

  /** Segments that one step on its own fills on every device. */
  ghost function Pads(home: Key -> nat, e: Event, n: nat, s: nat): (r: seq<int>)
    requires 0 < s
    ensures |r| == n && forall d :: 0 <= d < n ==> r[d] == CeilDiv(Landing(home, e.layer, e.tokens, d), s)
  {
    seq(n, d requires 0 <= d < n => CeilDiv(Landing(home, e.layer, e.tokens, d), s))
  }

  /** Rows of all steps on every device. */
  ghost function AllRows(home: Key -> nat, evs: seq<Event>, n: nat): (r: seq<int>)
    ensures |r| == n && forall d :: 0 <= d < n ==> r[d] == Sum(Shares(home, evs, d))
  {
    seq(n, d requires 0 <= d < n => Sum(Shares(home, evs, d)))
  }

  /** Segments the steps fill on every device when each is flushed on its own. */
  ghost function AllPads(home: Key -> nat, evs: seq<Event>, n: nat, s: nat): (r: seq<int>)
    requires 0 < s
    ensures |r| == n && forall d :: 0 <= d < n ==> r[d] == Padded(Shares(home, evs, d), s)
  {
    seq(n, d requires 0 <= d < n => Padded(Shares(home, evs, d), s))
  }

  lemma AllSplit(home: Key -> nat, evs: seq<Event>, n: nat, s: nat)
    requires 0 < s && evs != []
    ensures var m := |evs| - 1;
      && AllRows(home, evs, n) == Plus(AllRows(home, evs[..m], n), Rows(home, evs[m], n))
      && AllPads(home, evs, n, s) == Plus(AllPads(home, evs[..m], n, s), Pads(home, evs[m], n, s))
  {
    hide Landing, CeilDiv;
    forall d | 0 <= d < n
      ensures var m, e := |evs| - 1, evs[|evs| - 1];
        && Sum(Shares(home, evs, d)) == Sum(Shares(home, evs[..m], d)) + Landing(home, e.layer, e.tokens, d)
        && Padded(Shares(home, evs, d), s) ==
           Padded(Shares(home, evs[..m], d), s) + CeilDiv(Landing(home, e.layer, e.tokens, d), s)
    {
      SharesSplit(home, evs, d);
    }
  }

  lemma NoneYet(home: Key -> nat, n: nat, s: nat, have: seq<int>)
    requires 0 < s && |have| == n && forall d :: 0 <= d < n ==> 0 <= have[d]
    ensures Within(AllRows(home, [], n), have) && Minus(have, AllRows(home, [], n)) == have
    ensures Within(AllPads(home, [], n, s), have) && Minus(have, AllPads(home, [], n, s)) == have
  {
  }

  /** The tokens of a step can be stored: new ones, in range. */
  ghost predicate Insertable(st: Store, content: Key -> Data, e: Event) {
    Loadable(st.p, content, e) && NoDuplicates(e.tokens) && EventKeys(e) !! st.slots.Keys
  }

  /** The store after a step that was stored. */
  ghost predicate Stepped(st: Store, live: Live, r: Store, after: Live, e: Event, s: nat) {
    Ready(r, after, s) && SameGeometry(st, r) && r.slots.Keys == st.slots.Keys + EventKeys(e)
  }

  lemma SnapshotStep(st: Store, live: Live, content: Key -> Data, e: Event, s: nat) returns (after: Live)
    requires Ready(st, live, s) && Insertable(st, content, e)
    ensures Shape(st)
    ensures var (r, ok) := OneStep(st, content, Snapshot, e);
      && (ok <==> Within(Rows(st.p.home, e, |st.devs|), Rooms(st)))
      && (ok ==> Stepped(st, live, r, after, e, s) && Rooms(r) == Minus(Rooms(st), Rows(st.p.home, e, |st.devs|)))
  {
    hide WriteAll, Landing, Ready, Loadable, Room;
    ReadyShape(st, live, s);
    after := StepFits(st, live, content, e, s);
  }

  lemma OnlineStep(st: Store, live: Live, content: Key -> Data, e: Event, s: nat) returns (after: Live)
    requires 0 < s && Ready(st, live, s) && Closed(st) && Insertable(st, content, e)
    ensures Shape(st)
    ensures var (r, ok) := OneStep(st, content, Online, e);
      && (ok <==> Within(Pads(st.p.home, e, |st.devs|, s), Frees(st)))
      && (ok ==>
           Stepped(st, live, r, after, e, s) && Closed(r) &&
           Frees(r) == Minus(Frees(st), Pads(st.p.home, e, |st.devs|, s)))
  {
    hide WriteAll, Landing, Exact, Loadable, Packed, CeilDiv;
    ReadyShape(st, live, s);
    after := StepFits(st, live, content, e, s);
    var need := Rows(st.p.home, e, |st.devs|);
    forall d | 0 <= d < |st.devs|
      ensures need[d] <= Room(st.devs[d]) <==> CeilDiv(need[d], s) <= |st.devs[d].free|
    {
      CeilFits(need[d], s, |st.devs[d].free|);
    }
    var (more, n) := WriteAll(st, Loads(content, e));
    if n == |e.tokens| {
      FlushFits(more, after, s, Frees(st), need);
    }
  }

  /** Hypotheses of a replay of the trace recs into an empty store. */
  ghost predicate Replayable(st: Store, live: Live, content: Key -> Data, recs: seq<Record>, evs: seq<Event>, s: nat) {
    && 0 < s && Ready(st, live, s) && Closed(st) && st.slots == map[]
    && Grows(recs) && Shuffles(evs, Batches(recs)) && AllLoadable(st.p, content, evs)
  }

  lemma {:induction false} ReplayablePrefix(st: Store, live: Live, content: Key -> Data, recs: seq<Record>,
                                            evs: seq<Event>, s: nat)
    requires Replayable(st, live, content, recs, evs, s) && recs != []
    ensures var n := |recs| - 1;
      && |evs| == n + 1 && Replayable(st, live, content, recs[..n], evs[..n], s)
      && Loadable(st.p, content, evs[n]) && NoDuplicates(evs[n].tokens)
      && EventKeys(evs[n]) !! LoadedKeys(recs[..n]) && LoadedKeys(recs) == LoadedKeys(recs[..n]) + EventKeys(evs[n])
  {
    hide Ready, Closed, Loadable, Shuffle;
    var n := |recs| - 1;
    GrowsPrefix(recs, n);
    assert Batches(recs)[..n] == Batches(recs[..n]);
    assert forall i :: 0 <= i < n ==> Batches(recs)[i] == Batches(recs[..n])[i];
    assert Shuffle(evs[n], Batches(recs)[n]);
    NextIsNew(recs, evs[n]);
  }

  /** What a store holds after a trace's steps were all stored. */
  ghost predicate Holding(st: Store, r: Store, after: Live, recs: seq<Record>, s: nat) {
    Ready(r, after, s) && SameGeometry(st, r) && r.slots.Keys == LoadedKeys(recs)
  }

  /** Online, the steps succeed exactly when every device has a free segment for each one its padded batches fill. */
  lemma {:induction false} OnlineFits(st: Store, live: Live, content: Key -> Data, recs: seq<Record>, evs: seq<Event>,
                                      s: nat)
    returns (after: Live)
    requires Replayable(st, live, content, recs, evs, s)
    ensures Shape(st)
    ensures var (r, ok) := Steps(st, content, Online, evs);
      && (ok <==> Within(AllPads(st.p.home, evs, |st.devs|, s), Frees(st)))
      && (ok ==>
           Holding(st, r, after, recs, s) && Closed(r) &&
           Frees(r) == Minus(Frees(st), AllPads(st.p.home, evs, |st.devs|, s)))
    decreases |recs|
  {
    hide Ready, OneStep, Within, AllPads, Pads, Frees, Plus, Minus;
    after := live;
    ReadyShape(st, live, s);
    if recs == [] {
      FreesPositive(st);
      NoneYet(st.p.home, |st.devs|, s, Frees(st));
      SelfGeometry(st);
    } else {
      var m := |recs| - 1;
      ReplayablePrefix(st, live, content, recs, evs, s);
      after := OnlineFits(st, live, content, recs[..m], evs[..m], s);
      Sizes(st, evs, s);
      AllSplit(st.p.home, evs, |st.devs|, s);
      WithinPlus(AllPads(st.p.home, evs[..m], |st.devs|, s), Pads(st.p.home, evs[m], |st.devs|, s), Frees(st));
      var (mid, ok) := Steps(st, content, Online, evs[..m]);
      if ok {
        after := OnlineStep(mid, after, content, evs[m], s);
      }
    }
  }

  lemma FreesPositive(st: Store)
    ensures |Frees(st)| == |st.devs| && forall d :: 0 <= d < |st.devs| ==> 0 <= Frees(st)[d]
  {
  }

  lemma SelfGeometry(st: Store)
    ensures SameGeometry(st, st)
  {
  }

  lemma Sizes(st: Store, evs: seq<Event>, s: nat)
    requires 0 < s && evs != []
    ensures var m, n := |evs| - 1, |st.devs|;
      && |AllPads(st.p.home, evs[..m], n, s)| == |Pads(st.p.home, evs[m], n, s)| == |Frees(st)| == n
      && |AllRows(st.p.home, evs[..m], n)| == |Rows(st.p.home, evs[m], n)| == |Rooms(st)| == n
      && (forall d :: 0 <= d < n ==> 0 <= Pads(st.p.home, evs[m], n, s)[d] && 0 <= Rows(st.p.home, evs[m], n)[d])
  {
  }

  /** As a snapshot, the steps succeed exactly when every device has room for all its rows. */
  lemma {:induction false} SnapshotFits(st: Store, live: Live, content: Key -> Data, recs: seq<Record>, evs: seq<Event>,
                                        s: nat)
    returns (after: Live)
    requires Replayable(st, live, content, recs, evs, s)
    ensures Shape(st)
    ensures var (r, ok) := Steps(st, content, Snapshot, evs);
      && (ok <==> Within(AllRows(st.p.home, evs, |st.devs|), Rooms(st)))
      && (ok ==> Holding(st, r, after, recs, s) && Rooms(r) == Minus(Rooms(st), AllRows(st.p.home, evs, |st.devs|)))
    decreases |recs|
  {
    hide Ready, OneStep, Within, AllRows, Rows, Plus, Minus, Room;
    after := live;
    ReadyShape(st, live, s);
    if recs == [] {
      NoneYet(st.p.home, |st.devs|, s, Rooms(st));
      SelfGeometry(st);
    } else {
      var m := |recs| - 1;
      ReplayablePrefix(st, live, content, recs, evs, s);
      after := SnapshotFits(st, live, content, recs[..m], evs[..m], s);
      Sizes(st, evs, s);
      AllSplit(st.p.home, evs, |st.devs|, s);
      WithinPlus(AllRows(st.p.home, evs[..m], |st.devs|), Rows(st.p.home, evs[m], |st.devs|), Rooms(st));
      var (mid, ok) := Steps(st, content, Snapshot, evs[..m]);
      if ok {
        after := SnapshotStep(mid, after, content, evs[m], s);
      }
    }
  }

  /**
    A trial runs out of segments exactly when some device has fewer free ones than its share of the trace fills;
    otherwise it uses exactly that many, and the valid keys are the trace's.
   */
  lemma TrialFitsIff(st: Store, live: Live, content: Key -> Data, mode: Mode, recs: seq<Record>, evs: seq<Event>,
                     s: nat)
    returns (after: Live)
    requires Replayable(st, live, content, recs, evs, s)
    ensures Shape(st)
    ensures var (r, ok) := Trial(st, content, mode, evs);
      && (ok <==> forall d :: 0 <= d < |st.devs| ==>
           Used(mode, Shares(st.p.home, Batches(recs), d), s) <= |st.devs[d].free|)
      && (ok ==> Holding(st, r, after, recs, s) && Closed(r))
      && (ok ==> forall d :: 0 <= d < |st.devs| ==>
            |r.devs[d].free| == |st.devs[d].free| - Used(mode, Shares(st.p.home, Batches(recs), d), s))
  {
    hide Ready, Steps, CeilDiv, Loadable, Shares, Sum, Padded, Shuffle;
    ReadyShape(st, live, s);
    forall d | 0 <= d < |st.devs|
      ensures Shares(st.p.home, evs, d) == Shares(st.p.home, Batches(recs), d)
    {
      SharesShuffled(st.p.home, evs, Batches(recs), d);
    }
    if mode == Online {
      after := OnlineFits(st, live, content, recs, evs, s);
    } else {
      after := SnapshotFits(st, live, content, recs, evs, s);
      var rows := AllRows(st.p.home, evs, |st.devs|);
      forall d | 0 <= d < |st.devs|
        ensures st.devs[d].geo.slots == s
        ensures rows[d] <= Room(st.devs[d]) <==> CeilDiv(rows[d], s) <= |st.devs[d].free|
      {
        ReadySlots(st, live, s, d);
        CeilFits(rows[d], s, |st.devs[d].free|);
      }
      if Steps(st, content, Snapshot, evs).1 {
        FlushFits(Steps(st, content, Snapshot, evs).0, after, s, Frees(st), rows);
      }
    }
  }

  lemma ReadySlots(st: Store, live: Live, s: nat, d: nat)
    requires Ready(st, live, s) && d < |st.devs|
    ensures st.devs[d].geo.slots == s
  {
  }
}
