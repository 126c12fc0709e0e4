/**
  What single assignment buys over whole runs (bmpclient/sparse_kv/slot_table.py, line 17): no unit ever leaks, so a
  device is full only when valid keys fill it, and releasing everything gives every segment back.
 */
module SingleAssignment {
  import opened Placement
  import opened Segment
  import opened SlotTable
  import opened Media
  import opened KVStore
  import opened StoreRuns

  /** Writes go to different keys, none of which is valid. */
  ghost predicate Assigns(st: Store, ws: seq<KVStore.Write>) {
    && KeysOf(ws) !! st.slots.Keys
    && forall i, j :: 0 <= i < j < |ws| ==> ws[i].key != ws[j].key
  }

  /** Extents that a packed entry can address. */
  ghost predicate Addressed(st: Store) {
    forall d :: 0 <= d < |st.devs| ==> st.devs[d].geo.segments * st.devs[d].geo.sp <= MAX_OFFSET
  }

  ghost predicate Exact(st: Store, live: Live) {
    StoreInv(st, live) && Tight(st.p, st.slots, live) && Addressed(st)
  }

  lemma CachedAreValid(st: Store, live: Live)
    requires StoreInv(st, live)
    ensures st.cache.Keys <= st.slots.Keys
  {
    assert Meaning(st.p, st.slots, live).Keys == st.slots.Keys;
  }

  lemma AddressedStays(st: Store, e: Store, touched: set<Key>)
    requires Addressed(st) && Undisturbed(st, e, touched)
    ensures Addressed(e)
  {
    hide Buffered;
  }

  /** An offset that the device hands out fits a packed entry. */
  lemma OffsetFits(d: Device, live: map<nat, Data>, data: Data)
    requires Segment.Inv(d, live) && |data| == d.geo.unit && d.geo.segments * d.geo.sp <= MAX_OFFSET
    ensures var r := Append(d, data).1; (r.Ok? ==> r.value < MAX_OFFSET) && (r.Err? ==> r == Err(SegmentFull))
  {
    hide Append, CountsExact, FreeStackExact;
    AppendKeeps(d, live, data);
    var (e, r) := Append(d, data);
    OnlyTwoErrors(d, data);
    if r.Ok? {
      assert Written(e, r.value);
      UnitFits(e.geo, r.value);
    }
  }

  lemma OnlyTwoErrors(d: Device, data: Data)
    requires WellFormed(d)
    ensures Append(d, data).1.Err? ==> Append(d, data).1 == Err(SegmentFull) || Append(d, data).1 == Err(BadLength)
  {
  }

  lemma NoBadWrite(st: Store, live: Live, k: Key, data: Data)
    requires StoreInv(st, live) && Addressed(st) && InRange(st.p, k) && |data| == st.p.unit
    ensures WriteToken(st, k, data).1 != BadWrite
  {
    hide Append, Segment.Inv, Owns, Meaning;
    OffsetFits(st.devs[st.p.home(k)], live[st.p.home(k)], data);
  }

  lemma WriteExact(st: Store, live: Live, k: Key, data: Data) returns (after: Live)
    requires Exact(st, live) && InRange(st.p, k) && |data| == st.p.unit && k !in st.slots
    ensures var (e, f) := WriteToken(st, k, data);
      && Exact(e, after) && (f == NoFault ==> e.slots.Keys == st.slots.Keys + {k})
      && (f != NoFault ==> e.slots == st.slots)
  {
    hide Append, Segment.Inv, Owns, Meaning, Tight, Undisturbed, Addressed, Contents, DevicesOk;
    CachedAreValid(st, live);
    NoBadWrite(st, live, k, data);
    after := WriteTokenKeeps(st, live, k, data);
    AddressedStays(st, WriteToken(st, k, data).0, {k});
  }

  lemma {:induction false} WriteAllExact(st: Store, live: Live, ws: seq<KVStore.Write>) returns (after: Live)
    requires Exact(st, live) && WritesOk(st.p, ws) && Assigns(st, ws)
    ensures Exact(WriteAll(st, ws).0, after)
    decreases |ws|
  {
    hide StoreInv, Tight, Addressed, WriteToken, Shape;
    after := live;
    if ws != [] {
      assert ws[0].key in KeysOf(ws);
      ShapeOf(st, live);
      var (mid, f) := WriteToken(st, ws[0].key, ws[0].data);
      WriteTokenShape(st, ws[0].key, ws[0].data);
      after := WriteExact(st, live, ws[0].key, ws[0].data);
      if f == NoFault {
        AssignsRest(st, mid, ws);
        after := WriteAllExact(mid, after, ws[1..]);
      }
    }
  }

  lemma ShapeOf(st: Store, live: Live)
    requires StoreInv(st, live)
    ensures Shape(st)
  {
  }

  lemma AssignsRest(st: Store, mid: Store, ws: seq<KVStore.Write>)
    requires ws != [] && Assigns(st, ws) && mid.slots.Keys == st.slots.Keys + {ws[0].key}
    ensures Assigns(mid, ws[1..])
  {
    KeysOfRest(ws);
    forall i | 0 <= i < |ws[1..]|
      ensures ws[1..][i].key != ws[0].key
    {
      assert ws[1..][i] == ws[i + 1];
    }
  }

  /** The discipline: offload only keys that are not valid. It implies what the refinement needs. */
  ghost predicate Disciplined(st: Store, op: StoreRuns.Op) {
    OpSized(st, op) && (op.OffloadOp? ==> Assigns(st, op.ws))
  }

  lemma DisciplinedAllowed(st: Store, live: Live, op: StoreRuns.Op)
    requires StoreInv(st, live) && Disciplined(st, op)
    ensures StoreRuns.Allowed(st, op) && Readable(st)
  {
    CachedAreValid(st, live);
    InvReads(st, live);
  }

  lemma StepExact(st: Store, live: Live, op: StoreRuns.Op) returns (after: Live)
    requires Exact(st, live) && Readable(st) && Disciplined(st, op)
    ensures Exact(StoreRuns.Step(st, op), after)
  {
    hide Segment.Inv, Owns, Meaning, Undisturbed, Addressed, Contents, WriteAll, ReleaseAll, DevicesOk;
    after := live;
    match op
    case OffloadOp(ws) => after := WriteAllExact(st, live, ws);
    case FlushOp =>
      FlushStoreKeeps(st, live);
      AddressedStays(st, FlushStore(st), {});
    case PrefetchOp(layer, ts) =>
      PrefetchKeeps(st, live, layer, ts);
      AddressedStays(st, StoreRuns.Prefetch(st, layer, ts), {});
    case ReleaseOp(layer, ts) =>
      after := ReleaseAllKeeps(st, live, layer, ts);
      AddressedStays(st, ReleaseAll(st, layer, ts).0, TokenKeys(layer, ts));
  }

  /** A run in which every offload keeps the discipline. */
  ghost predicate DisciplinedRun(st: Store, ops: seq<StoreRuns.Op>, e: Store)
    decreases |ops|
  {
    if ops == [] then e == st
    else
      && Readable(st) && Disciplined(st, ops[0])
      && DisciplinedRun(StoreRuns.Step(st, ops[0]), ops[1..], e)
  }

  /** Over every disciplined run no unit leaks: the live units are exactly those of the valid keys. */
  lemma {:induction false} RunExact(st: Store, live: Live, ops: seq<StoreRuns.Op>, e: Store) returns (after: Live)
    requires Exact(st, live) && DisciplinedRun(st, ops, e)
    ensures Exact(e, after)
    decreases |ops|
  {
    hide StoreRuns.Step, Exact, Readable;
    after := live;
    if ops != [] {
      after := StepExact(st, live, ops[0]);
      after := RunExact(StoreRuns.Step(st, ops[0]), after, ops[1..], e);
    }
  }

  /** A disciplined run is one the refinement covers: the store stands for the map the same operations build. */
  lemma {:induction false} RunServes(st: Store, live: Live, ops: seq<StoreRuns.Op>, e: Store) returns (ns: seq<nat>)
    requires Exact(st, live) && DisciplinedRun(st, ops, e)
    ensures StoreRuns.Reaches(st, ops, ns, e) && Readable(st) && Readable(e)
    ensures Contents(e) == MapRun(Contents(st), ops, ns)
    ensures forall k :: k in e.slots ==> FetchOne(e, k) == Contents(e)[k]
    decreases |ops|
  {
    ns := RunReaches(st, live, ops, e);
    hide Exact, DisciplinedRun, StoreRuns.Reaches, MapRun;
    ExactInv(st, live);
    var after := RunRefines(st, live, ops, ns, e);
  }

  lemma ExactInv(st: Store, live: Live)
    requires Exact(st, live)
    ensures StoreInv(st, live)
  {
  }

  lemma {:induction false} RunReaches(st: Store, live: Live, ops: seq<StoreRuns.Op>, e: Store) returns (ns: seq<nat>)
    requires Exact(st, live) && DisciplinedRun(st, ops, e)
    ensures StoreRuns.Reaches(st, ops, ns, e)
    decreases |ops|
  {
    hide StoreRuns.Step, Exact, Readable;
    ns := [];
    if ops != [] {
      ExactInv(st, live);
      DisciplinedAllowed(st, live, ops[0]);
      var after := StepExact(st, live, ops[0]);
      var rest := RunReaches(StoreRuns.Step(st, ops[0]), after, ops[1..], e);
      ns := [Progress(st, ops[0])] + rest;
      assert ns[1..] == rest;
    }
  }

  /** After any disciplined run a token is refused exactly when its device is filled by valid keys. */
  lemma RunFullIff(st: Store, live: Live, ops: seq<StoreRuns.Op>, e: Store, k: Key, data: Data)
    requires Exact(st, live) && DisciplinedRun(st, ops, e) && InRange(e.p, k) && |data| == e.p.unit
    ensures Shape(e) && var d := e.p.home(k);
      WriteToken(e, k, data).1 == Full <==>
        (NoRoom(e.devs[d]) && forall s: nat :: s < e.devs[d].geo.segments ==> HoldsKey(e, d, s))
  {
    hide DisciplinedRun, Segment.Inv, Owns, Meaning, Tight, Addressed, WriteToken, HoldsKey;
    var after := RunExact(st, live, ops, e);
    FullIff(e, after, k, data);
  }

  /**
    After any disciplined run that ends with no valid key and no open buffer on a device, all its segments are free.
   */
  lemma RunReclaims(st: Store, live: Live, ops: seq<StoreRuns.Op>, e: Store, d: nat)
    requires Exact(st, live) && DisciplinedRun(st, ops, e) && e.slots == map[] && d < |e.devs|
    requires e.devs[d].buf.NoBuffer?
    ensures |e.devs[d].free| == e.devs[d].geo.segments
  {
    hide DisciplinedRun, Segment.Inv, Owns, Meaning, Tight, Addressed;
    var after := RunExact(st, live, ops, e);
    EverythingReclaimed(e, after, d);
  }
}
