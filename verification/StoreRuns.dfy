/** Flush, release, fetch and prefetch of the store, and what holds over every run of its operations. */
module StoreRuns {
  import opened Bytes
  import opened Placement
  import opened Segment
  import opened SlotTable
  import opened Media
  import opened KVStore

  // ---------- flush ----------

  ghost function FlushStore(st: Store): Store
    requires Shape(st)
  {
    st.(devs := FlushAll(st.devs))
  }

  lemma FlushDevices(st: Store, live: Live)
    requires DevicesOk(st, live)
    ensures DevicesOk(FlushStore(st), live) && Comparable(st, FlushStore(st))
    ensures forall d, o :: 0 <= d < |live| && o in live[d] ==> !InBuffer(FlushStore(st).devs[d], o)
  {
    forall d | 0 <= d < |live|
      ensures Segment.Inv(FlushStore(st).devs[d], live[d]) && FlushStore(st).devs[d].geo == st.devs[d].geo
      ensures forall o :: o in live[d] ==> !InBuffer(FlushStore(st).devs[d], o)
    {
      FlushKeeps(st.devs[d], live[d]);
    }
  }

  /** flush changes no key, and afterwards every valid key's unit is on its device. */
  lemma FlushStoreKeeps(st: Store, live: Live)
    requires StoreInv(st, live)
    ensures var e := FlushStore(st);
      && StoreInv(e, live) && Readable(st) && Readable(e) && Contents(e) == Contents(st) && Undisturbed(st, e, {})
      && forall k :: k in e.slots ==> !Buffered(e, k)
  {
    hide Segment.Inv, Contents, Meaning, Flush;
    FlushDevices(st, live);
    InvReads(st, live);
    InvReads(FlushStore(st), live);
  }

  // ---------- release ----------

  /** The live units once k's unit is given back. */
  ghost function Given(live: Live, d: nat, off: nat): Live
    requires d < |live|
  {
    live[d := live[d] - {off}]
  }

  lemma GivenDevices(st: Store, live: Live, d: nat, off: nat)
    requires DevicesOk(st, live) && d < |live| && off in live[d]
    ensures var (x, out) := Release(st.devs[d], off);
      && out.Ok? && DevicesOk(st.(devs := st.devs[d := x]), Given(live, d, off))
      && x.geo == st.devs[d].geo && SettledStay(st.devs[d], x, live[d])
  {
    hide Segment.Inv, Release, SettledStay;
    ReleaseKeeps(st.devs[d], live[d], off);
    ReleaseShape(st.devs[d], off);
  }

  lemma OwnsRelease(p: Params, slots: map<Key, nat>, live: Live, k: Key)
    requires Sized(p, live) && Owns(p, slots, live) && k in slots
    ensures var after := Given(live, p.home(k), slots[k]);
      && Sized(p, after) && Owns(p, slots - {k}, after)
      && Meaning(p, slots - {k}, after) == Meaning(p, slots, live) - {k}
      && (Tight(p, slots, live) ==> Tight(p, slots - {k}, after))
  {
    OwnsWithout(p, slots, live, k);
    hide Tight, Meaning, Given;
    if Tight(p, slots, live) {
      TightRelease(p, slots, live, k);
    }
  }

  lemma OwnsWithout(p: Params, slots: map<Key, nat>, live: Live, k: Key)
    requires Sized(p, live) && Owns(p, slots, live) && k in slots
    ensures var after := Given(live, p.home(k), slots[k]);
      Sized(p, after) && Owns(p, slots - {k}, after) && Meaning(p, slots - {k}, after) == Meaning(p, slots, live) - {k}
  {
    var after := Given(live, p.home(k), slots[k]);
    forall q | q in slots && q != k
      ensures slots[q] in after[p.home(q)] && after[p.home(q)][slots[q]] == live[p.home(q)][slots[q]]
    {
    }
  }

  lemma TightRelease(p: Params, slots: map<Key, nat>, live: Live, k: Key)
    requires Sized(p, live) && Tight(p, slots, live) && k in slots && slots[k] in live[p.home(k)]
    ensures var after := Given(live, p.home(k), slots[k]); Sized(p, after) && Tight(p, slots - {k}, after)
  {
    var after := Given(live, p.home(k), slots[k]);
    forall d, o | 0 <= d < |after| && o in after[d]
      ensures exists q :: q in slots - {k} && p.home(q) == d && (slots - {k})[q] == o
    {
      assert o in live[d];
      var q :| q in slots && p.home(q) == d && slots[q] == o;
      assert q in slots - {k};
    }
  }

  /** Releasing a token removes exactly its key; a token that is not valid is skipped. It never fails in range. */
  lemma ReleaseTokenKeeps(st: Store, live: Live, k: Key) returns (after: Live)
    requires StoreInv(st, live)
    ensures var (e, f) := ReleaseToken(st, k);
      && f == (if InRange(st.p, k) then NoFault else BadIndex)
      && StoreInv(e, after) && Readable(st) && Readable(e) && Undisturbed(st, e, {k})
      && Contents(e) == (if f == NoFault then Contents(st) - {k} else Contents(st))
      && (Tight(st.p, st.slots, live) ==> Tight(e.p, e.slots, after))
  {
    hide Segment.Inv, Contents, Meaning, Tight, Release, SettledStay, Undisturbed;
    after := live;
    InvReads(st, live);
    if k in st.slots {
      var d, off := st.p.home(k), st.slots[k];
      var (x, out) := Release(st.devs[d], off);
      after := Given(live, d, off);
      GivenDevices(st, live, d, off);
      OwnsRelease(st.p, st.slots, live, k);
      ReleasedKeeps(st, live, k, x, after);
      ReleasedUndisturbed(st, live, k, x);
    } else {
      UndisturbedSelf(st, {k});
      NothingReleased(Contents(st), st, k);
    }
  }

  lemma NothingReleased(m: map<Key, Data>, st: Store, k: Key)
    requires Readable(st) && m == Contents(st) && k !in st.slots
    ensures m - {k} == m
  {
  }

  function Without(st: Store, k: Key, x: Device): Store
    requires st.p.home(k) < |st.devs|
  {
    st.(devs := st.devs[st.p.home(k) := x], slots := st.slots - {k}, cache := st.cache - {k})
  }

  lemma ReleasedKeeps(st: Store, live: Live, k: Key, x: Device, after: Live)
    requires StoreInv(st, live) && k in st.slots && Sized(st.p, after)
    requires DevicesOk(st.(devs := st.devs[st.p.home(k) := x]), after)
    requires Owns(st.p, st.slots - {k}, after)
    requires Meaning(st.p, st.slots - {k}, after) == Meaning(st.p, st.slots, live) - {k}
    ensures var e := Without(st, k, x);
      StoreInv(e, after) && Readable(st) && Readable(e) && Contents(e) == Contents(st) - {k}
  {
    hide Segment.Inv, Contents, Meaning, Owns;
    var e := Without(st, k, x);
    assert DevicesOk(e, after);
    InvReads(st, live);
    InvReads(e, after);
  }

  lemma ReleasedUndisturbed(st: Store, live: Live, k: Key, x: Device)
    requires Shape(st) && Sized(st.p, live) && Owns(st.p, st.slots, live) && x.geo == st.devs[st.p.home(k)].geo
    requires SettledStay(st.devs[st.p.home(k)], x, live[st.p.home(k)])
    ensures Undisturbed(st, Without(st, k, x), {k})
  {
    StepUndisturbed(st, live, Without(st, k, x), k, x);
  }

  /** release: token after token; an index out of range stops it. The second result counts the tokens handled. */
  function ReleaseAll(st: Store, layer: nat, ts: seq<nat>): (r: (Store, nat))
    requires Shape(st)
    ensures r.1 <= |ts|
    decreases |ts|
  {
    if ts == [] then (st, 0)
    else
      var (e, f) := ReleaseToken(st, Key(layer, ts[0]));
      if f != NoFault then (e, 0)
      else
        ReleaseTokenShape(st, Key(layer, ts[0]));
        var (last, n) := ReleaseAll(e, layer, ts[1..]);
        (last, n + 1)
  }

  lemma ReleaseTokenShape(st: Store, k: Key)
    requires Shape(st)
    ensures Shape(ReleaseToken(st, k).0) && ReleaseToken(st, k).0.p == st.p
  {
    if k in st.slots {
      ReleaseShape(st.devs[st.p.home(k)], st.slots[k]);
    }
  }

  lemma ReleaseShape(d: Device, off: nat)
    requires WellFormed(d)
    ensures WellFormed(Release(d, off).0) && Release(d, off).0.geo == d.geo
  {
  }

  ghost function TokenKeys(layer: nat, ts: seq<nat>): set<Key> {
    set i | 0 <= i < |ts| :: Key(layer, ts[i])
  }

  lemma TokenKeysRest(layer: nat, ts: seq<nat>, n: nat)
    requires ts != [] && n <= |ts| - 1
    ensures TokenKeys(layer, ts[..n + 1]) == {Key(layer, ts[0])} + TokenKeys(layer, ts[1..][..n])
  {
    var all, rest := ts[..n + 1], ts[1..][..n];
    forall k | k in TokenKeys(layer, all)
      ensures k == Key(layer, ts[0]) || k in TokenKeys(layer, rest)
    {
      var i :| 0 <= i < |all| && Key(layer, all[i]) == k;
      if i > 0 {
        assert Key(layer, rest[i - 1]) == k;
      }
    }
    forall k | k in TokenKeys(layer, rest)
      ensures k in TokenKeys(layer, all)
    {
      var i :| 0 <= i < |rest| && Key(layer, rest[i]) == k;
      assert Key(layer, all[i + 1]) == k;
    }
    assert Key(layer, all[0]) in TokenKeys(layer, all);
  }

  /** release refines removing keys from the map, and handles every token unless one is out of range. */
  lemma {:induction false} ReleaseAllKeeps(st: Store, live: Live, layer: nat, ts: seq<nat>) returns (after: Live)
    requires StoreInv(st, live)
    ensures var (e, n) := ReleaseAll(st, layer, ts);
      && StoreInv(e, after) && Readable(st) && Readable(e) && Undisturbed(st, e, TokenKeys(layer, ts))
      && Contents(e) == Contents(st) - TokenKeys(layer, ts[..n])
      && (n == |ts| <==> forall i :: 0 <= i < |ts| ==> InRange(st.p, Key(layer, ts[i])))
      && (Tight(st.p, st.slots, live) ==> Tight(e.p, e.slots, after))
    decreases |ts|
  {
    hide Segment.Inv, Contents, ReleaseToken, Undisturbed, Meaning, Owns, Tight;
    after := live;
    InvReads(st, live);
    if ts == [] {
      UndisturbedSelf(st, TokenKeys(layer, ts));
      assert Contents(st) - TokenKeys(layer, ts[..0]) == Contents(st);
    } else {
      var k := Key(layer, ts[0]);
      var (mid, f) := ReleaseToken(st, k);
      ReleaseTokenShape(st, k);
      after := ReleaseTokenKeeps(st, live, k);
      TokenKeysRest(layer, ts, |ts| - 1);
      assert ts[..|ts|] == ts && ts[1..][..|ts| - 1] == ts[1..];
      if f == NoFault {
        after := ReleaseAllKeeps(mid, after, layer, ts[1..]);
        var (e, n) := ReleaseAll(mid, layer, ts[1..]);
        UndisturbedBoth(st, mid, e, {k}, TokenKeys(layer, ts[1..]), TokenKeys(layer, ts));
        TokenKeysRest(layer, ts, n);
        LessBoth(Contents(st), k, TokenKeys(layer, ts[1..][..n]), TokenKeys(layer, ts[..n + 1]));
        AllInRange(st.p, layer, ts);
      } else {
        UndisturbedMore(st, mid, {k}, TokenKeys(layer, ts));
        assert Contents(st) - TokenKeys(layer, ts[..0]) == Contents(st);
      }
    }
  }

  lemma UndisturbedBoth(st: Store, mid: Store, e: Store, a: set<Key>, b: set<Key>, all: set<Key>)
    requires Undisturbed(st, mid, a) && Undisturbed(mid, e, b) && a <= all && b <= all
    ensures Undisturbed(st, e, all)
  {
    hide Undisturbed;
    UndisturbedTrans(st, mid, e, a, b);
    UndisturbedMore(st, e, a + b, all);
  }

  lemma LessBoth(m: map<Key, Data>, k: Key, rest: set<Key>, all: set<Key>)
    requires all == {k} + rest
    ensures m - {k} - rest == m - all
  {
  }

  lemma AllInRange(p: Params, layer: nat, ts: seq<nat>)
    requires ts != [] && InRange(p, Key(layer, ts[0]))
    ensures (forall i :: 0 <= i < |ts| ==> InRange(p, Key(layer, ts[i]))) <==>
            (forall i :: 0 <= i < |ts[1..]| ==> InRange(p, Key(layer, ts[1..][i])))
  {
    if forall i :: 0 <= i < |ts[1..]| ==> InRange(p, Key(layer, ts[1..][i])) {
      forall i | 0 <= i < |ts|
        ensures InRange(p, Key(layer, ts[i]))
      {
        assert i > 0 ==> ts[i] == ts[1..][i - 1];
      }
    }
  }

  // ---------- fetch and prefetch ----------

  /** fetch answers exactly when every token is a key of the map, and with the map's bytes. */
  lemma FetchIsLookup(st: Store, live: Live, layer: nat, ts: seq<nat>)
    requires StoreInv(st, live)
    ensures Readable(st)
    ensures layer < st.p.layers ==>
      (Fetchable(st, layer, ts) <==> forall i :: 0 <= i < |ts| ==> Key(layer, ts[i]) in Contents(st))
    ensures forall k :: k in st.slots ==> FetchOne(st, k) == Contents(st)[k]
  {
    hide Segment.Inv, Meaning, Owns, ReadAt;
    InvReads(st, live);
    forall k | k in st.slots
      ensures FetchOne(st, k) == Contents(st)[k]
    {
    }
  }

  /** The tokens prefetch still has to read. */
  ghost function Pending(st: Store, layer: nat, ts: seq<nat>): set<Key> {
    TokenKeys(layer, ts) - st.cache.Keys
  }

  /** prefetch: reads what is not cached yet, unless some of it cannot be fetched. */
  ghost function Prefetch(st: Store, layer: nat, ts: seq<nat>): Store
    requires Readable(st)
  {
    if Pending(st, layer, ts) <= st.slots.Keys then
      st.(cache := st.cache + map k | k in Pending(st, layer, ts) :: FetchOne(st, k))
    else st
  }

  lemma PrefetchKeeps(st: Store, live: Live, layer: nat, ts: seq<nat>)
    requires StoreInv(st, live)
    ensures Readable(st) && Readable(Prefetch(st, layer, ts))
    ensures StoreInv(Prefetch(st, layer, ts), live) && Contents(Prefetch(st, layer, ts)) == Contents(st)
    ensures Undisturbed(st, Prefetch(st, layer, ts), {})
  {
    hide Segment.Inv, Meaning, Owns, DevicesOk, Undisturbed;
    FetchIsLookup(st, live, layer, ts);
    CacheKeeps(st, live, st.cache);
    CacheKeeps(st, live, Prefetch(st, layer, ts).cache);
  }

  /** Any cache of true copies will do. */
  lemma CacheKeeps(st: Store, live: Live, cache: map<Key, Data>)
    requires StoreInv(st, live) && Readable(st)
    requires cache == st.cache || forall k :: k in cache ==> k in st.slots && cache[k] == Contents(st)[k]
    ensures var e := st.(cache := cache);
      StoreInv(e, live) && Readable(e) && Contents(e) == Contents(st) && Undisturbed(st, e, {})
    ensures forall k :: k in st.cache ==> k in st.slots && st.cache[k] == Contents(st)[k]
  {
    hide Segment.Inv, Owns, ReadAt, Undisturbed;
    var e := st.(cache := cache);
    assert DevicesOk(e, live);
    InvReads(st, live);
    InvReads(e, live);
    UndisturbedCache(st, cache);
  }

  lemma UndisturbedCache(st: Store, cache: map<Key, Data>)
    requires Shape(st)
    ensures Undisturbed(st, st.(cache := cache), {})
  {
  }

  // ---------- runs ----------

  datatype Op =
    | OffloadOp(ws: seq<Write>)
    | FlushOp
    | PrefetchOp(layer: nat, ts: seq<nat>)
    | ReleaseOp(layer: nat, ts: seq<nat>)

  /** Writes are whole units of keys in range; blocks that are not end an offload before it writes. */
  ghost predicate OpSized(st: Store, op: Op) {
    op.OffloadOp? ==> WritesOk(st.p, op.ws)
  }

  /**
    A key with a prefetched copy is not offloaded again. Single assignment implies it, as only valid keys are cached.
   */
  ghost predicate Allowed(st: Store, op: Op) {
    OpSized(st, op) && (op.OffloadOp? ==> KeysOf(op.ws) !! st.cache.Keys)
  }

  ghost function Step(st: Store, op: Op): Store
    requires Readable(st) && OpSized(st, op)
  {
    match op
    case OffloadOp(ws) => WriteAll(st, ws).0
    case FlushOp => FlushStore(st)
    case PrefetchOp(layer, ts) => Prefetch(st, layer, ts)
    case ReleaseOp(layer, ts) => ReleaseAll(st, layer, ts).0
  }

  /** How many of the operation's items took effect before it finished or failed. */
  ghost function Progress(st: Store, op: Op): nat
    requires Readable(st) && OpSized(st, op)
  {
    match op
    case OffloadOp(ws) => WriteAll(st, ws).1
    case ReleaseOp(layer, ts) => ReleaseAll(st, layer, ts).1
    case _ => 0
  }

  /** The same operation on the plain map, when n of its items take effect. */
  ghost function MapStep(m: map<Key, Data>, op: Op, n: nat): map<Key, Data> {
    match op
    case OffloadOp(ws) => if n <= |ws| then PutAll(m, ws[..n]) else m
    case ReleaseOp(layer, ts) => if n <= |ts| then m - TokenKeys(layer, ts[..n]) else m
    case _ => m
  }

  /** Keys an operation may change. */
  ghost function Touched(op: Op): set<Key> {
    match op
    case OffloadOp(ws) => KeysOf(ws)
    case ReleaseOp(layer, ts) => TokenKeys(layer, ts)
    case _ => {}
  }

  lemma StepKeeps(st: Store, live: Live, op: Op) returns (after: Live)
    requires StoreInv(st, live) && Readable(st) && Allowed(st, op)
    ensures StoreInv(Step(st, op), after) && Readable(Step(st, op))
    ensures Contents(Step(st, op)) == MapStep(Contents(st), op, Progress(st, op))
    ensures Undisturbed(st, Step(st, op), Touched(op))
  {
    hide Segment.Inv, Contents, Undisturbed, WriteAll, ReleaseAll, Meaning, Owns;
    after := live;
    match op
    case OffloadOp(ws) => after := WriteAllKeeps(st, live, ws);
    case FlushOp => FlushStoreKeeps(st, live);
    case PrefetchOp(layer, ts) => PrefetchKeeps(st, live, layer, ts);
    case ReleaseOp(layer, ts) => after := ReleaseAllKeeps(st, live, layer, ts);
  }

  /** A run of allowed operations from st to e, and the counts of items that took effect along it. */
  ghost predicate Reaches(st: Store, ops: seq<Op>, ns: seq<nat>, e: Store)
    decreases |ops|
  {
    |ns| == |ops| &&
    if ops == [] then e == st
    else
      && Readable(st) && Allowed(st, ops[0]) && ns[0] == Progress(st, ops[0])
      && Reaches(Step(st, ops[0]), ops[1..], ns[1..], e)
  }

  ghost function MapRun(m: map<Key, Data>, ops: seq<Op>, ns: seq<nat>): map<Key, Data>
    requires |ns| == |ops|
    decreases |ops|
  {
    if ops == [] then m else MapRun(MapStep(m, ops[0], ns[0]), ops[1..], ns[1..])
  }

  /**
    Refinement over every run: the store always means the map that the same operations build, and fetch returns
    that map's bytes wherever they are held: in the cache, in a segment buffer or on a device.
   */
  lemma {:induction false} RunRefines(st: Store, live: Live, ops: seq<Op>, ns: seq<nat>, e: Store) returns (after: Live)
    requires StoreInv(st, live) && Reaches(st, ops, ns, e)
    ensures StoreInv(e, after) && Readable(st) && Readable(e)
    ensures Contents(e) == MapRun(Contents(st), ops, ns)
    ensures forall k :: k in e.slots ==> FetchOne(e, k) == MapRun(Contents(st), ops, ns)[k]
    ensures e.slots.Keys == MapRun(Contents(st), ops, ns).Keys
    decreases |ops|
  {
    hide Segment.Inv, Meaning, Owns;
    after := live;
    InvReads(st, live);
    if ops == [] {
      FetchIsLookup(st, live, 0, []);
    } else {
      var mid := StepKeeps(st, live, ops[0]);
      after := RunRefines(Step(st, ops[0]), mid, ops[1..], ns[1..], e);
    }
  }

  // ---------- beginnings, ends and what single assignment buys ----------

  ghost predicate AllFresh(devs: seq<Device>, unit: nat) {
    forall d :: 0 <= d < |devs| ==>
      devs[d] == Fresh(devs[d].geo, devs[d].disk) && devs[d].geo.Ok() && devs[d].geo.unit == unit &&
      |devs[d].disk| == devs[d].geo.segments * devs[d].geo.sp
  }

  /** A new store stands for the empty map and owns nothing. */
  lemma NewStore(st: Store) returns (live: Live)
    requires PlacesKeys(st.p) && |st.devs| == |st.p.base| == st.p.devices && AllFresh(st.devs, st.p.unit)
    requires st.slots == map[] && st.cache == map[]
    requires KVStore.D.Holds(st.desc, st.p.maxTopk) && |st.staging| == st.p.maxTopk * st.p.unit
    ensures StoreInv(st, live) && Readable(st) && Contents(st) == map[] && Tight(st.p, st.slots, live)
  {
    live := seq(|st.devs|, d => map[]);
    forall d | 0 <= d < |st.devs|
      ensures Segment.Inv(st.devs[d], live[d])
    {
      FreshInv(st.devs[d].geo, st.devs[d].disk);
    }
  }

  /** Segment s of device d holds the unit of some valid key. */
  ghost predicate HoldsKey(st: Store, d: nat, s: nat)
    requires d < |st.devs| && 0 < st.devs[d].geo.sp
  {
    exists q :: q in st.slots && st.p.home(q) == d && st.slots[q] / st.devs[d].geo.sp == s
  }

  /**
    Under single assignment no unit leaks, so a device refuses a token exactly when its buffer has no room and
    every one of its segments still holds the unit of some valid key.
   */
  lemma FullIff(st: Store, live: Live, k: Key, data: Data)
    requires StoreInv(st, live) && Tight(st.p, st.slots, live) && InRange(st.p, k) && |data| == st.p.unit
    ensures var d := st.p.home(k);
      WriteToken(st, k, data).1 == Full <==>
        (NoRoom(st.devs[d]) && forall s: nat :: s < st.devs[d].geo.segments ==> HoldsKey(st, d, s))
  {
    var d := st.p.home(k);
    AppendKeeps(st.devs[d], live[d], data);
    forall s: nat | s < st.devs[d].geo.segments
      ensures LiveIn(st.devs[d].geo, live[d].Keys, s) != {} <==> HoldsKey(st, d, s)
    {
      KeyInSegment(st, live, d, s);
    }
  }

  lemma KeyInSegment(st: Store, live: Live, d: nat, s: nat)
    requires Shape(st) && Sized(st.p, live) && Owns(st.p, st.slots, live) && Tight(st.p, st.slots, live) && d < |live|
    ensures LiveIn(st.devs[d].geo, live[d].Keys, s) != {} <==> HoldsKey(st, d, s)
  {
    var here := LiveIn(st.devs[d].geo, live[d].Keys, s);
    if o :| o in here {
      var q :| q in st.slots && st.p.home(q) == d && st.slots[q] == o;
    }
    if q :| q in st.slots && st.p.home(q) == d && st.slots[q] / st.devs[d].geo.sp == s {
      assert st.slots[q] in here;
    }
  }

  /** Once every key is released and the buffers are written out, every segment of every device is free again. */
  lemma EverythingReclaimed(st: Store, live: Live, d: nat)
    requires StoreInv(st, live) && Tight(st.p, st.slots, live) && st.slots == map[]
    requires d < |st.devs| && st.devs[d].buf.NoBuffer?
    ensures |st.devs[d].free| == st.devs[d].geo.segments
  {
    hide Owns, Meaning;
    LiveAreOwned(st.p, st.slots, live, d);
    assert live[d].Keys == {};
    assert live[d] == map[];
    AllReclaimed(st.devs[d]);
  }

  lemma LiveAreOwned(p: Params, slots: map<Key, nat>, live: Live, d: nat)
    requires Sized(p, live) && Tight(p, slots, live) && d < |live|
    ensures live[d].Keys <= set k | k in slots :: slots[k]
  {
    forall o | o in live[d]
      ensures o in set k | k in slots :: slots[k]
    {
      var k :| k in slots && p.home(k) == d && slots[k] == o;
    }
  }

  /**
    What goes wrong without single assignment: offloading a key again stores the new bytes, but a prefetched copy
    keeps being served. fetch returns the new bytes if and only if the key had no such copy, or an equal one.
   */
  lemma RewriteServed(st: Store, live: Live, k: Key, data: Data)
    requires StoreInv(st, live) && InRange(st.p, k) && WriteToken(st, k, data).1 == NoFault
    ensures var e := WriteToken(st, k, data).0;
      && Readable(e) && k in e.slots && Contents(e)[k] == data
      && (FetchOne(e, k) == Contents(e)[k] <==> k !in st.cache || st.cache[k] == data)
  {
    hide Segment.Inv, Owns, Meaning, WriteToken, Contents, ReadAt;
    var bare := st.(cache := map[]);
    assert DevicesOk(bare, live);
    var after := WriteTokenKeeps(bare, live, k, data);
    WriteFault(bare, st, k, data);
    SameButCache(bare, st, k, data);
    ServedAfter(st, WriteToken(st, k, data).0, k, data);
  }

  lemma WriteFault(bare: Store, st: Store, k: Key, data: Data)
    requires Shape(st) && bare == st.(cache := map[]) && InRange(st.p, k)
    ensures WriteToken(bare, k, data).1 == WriteToken(st, k, data).1
  {
  }

  lemma ServedAfter(st: Store, e: Store, k: Key, data: Data)
    requires Readable(e) && e.cache == st.cache && k in Contents(e) && Contents(e)[k] == data
    ensures k in e.slots && (FetchOne(e, k) == Contents(e)[k] <==> k !in st.cache || st.cache[k] == data)
  {
    hide ReadAt;
  }

  lemma SameButCache(bare: Store, st: Store, k: Key, data: Data)
    requires Shape(st) && bare == st.(cache := map[]) && InRange(st.p, k)
    requires Readable(WriteToken(bare, k, data).0) && WriteToken(bare, k, data).1 == NoFault
    ensures WriteToken(st, k, data).0 == WriteToken(bare, k, data).0.(cache := st.cache)
    ensures WriteToken(st, k, data).0.cache == st.cache
    ensures Readable(WriteToken(st, k, data).0)
    ensures Contents(WriteToken(st, k, data).0) == Contents(WriteToken(bare, k, data).0)
  {
  }

  /** So a stale answer is reachable: prefetch a key, then offload different bytes under it. */
  lemma StaleAnswer(st: Store, live: Live, k: Key, data: Data)
    requires StoreInv(st, live) && Readable(st) && k in st.slots && data != Contents(st)[k]
    requires WriteToken(Prefetch(st, k.layer, [k.token]), k, data).1 == NoFault
    ensures var e := WriteToken(Prefetch(st, k.layer, [k.token]), k, data).0;
      Readable(e) && k in e.slots && Contents(e)[k] == data && FetchOne(e, k) != data
  {
    hide Segment.Inv, Owns, Meaning, WriteToken, DevicesOk;
    var warm := Prefetch(st, k.layer, [k.token]);
    PrefetchKeeps(st, live, k.layer, [k.token]);
    CacheKeeps(warm, live, warm.cache);
    OnlyToken(k);
    RewriteServed(warm, live, k, data);
  }

  lemma OnlyToken(k: Key)
    ensures TokenKeys(k.layer, [k.token]) == {k}
  {
    assert Key(k.layer, [k.token][0]) == k;
  }
}
