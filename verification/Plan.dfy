/** Address planning: the descriptors plan() emits, carrying them out, and how long they stay good. */
module Plan {
  import opened Arith
  import opened Bytes
  import opened Placement
  import Segment
  import opened SlotTable
  import opened Media
  import opened KVStore
  import opened StoreRuns
  import D = Descriptor

  /** Where staging keeps the i-th planned unit. */
  lemma StagingSlot(st: Store, i: nat)
    requires Shape(st) && i < st.p.maxTopk
    ensures i * st.p.unit + st.p.unit <= |st.staging|
  {
    MulMono(i + 1, st.p.maxTopk, st.p.unit);
  }

  /** The descriptor for key k at position i. */
  function EntryFor(st: Store, k: Key, i: nat): D.Entry
    requires Shape(st) && k in st.slots
  {
    D.Entry(st.p.home(k), if Buffered(st, k) then D.FLAG_HOST_READY else D.FLAG_DISK,
            st.p.base[st.p.home(k)] + st.slots[k], st.p.unit, i * st.p.unit)
  }

  /** A buffered unit is copied to its place in staging. */
  ghost function StageOne(st: Store, k: Key, i: nat): Store
    requires Readable(st) && k in st.slots && i < st.p.maxTopk
  {
    StagingSlot(st, i);
    st.(staging := if Buffered(st, k) then Splice(st.staging, i * st.p.unit, Contents(st)[k]) else st.staging)
  }

  /** Plan one key: stage it if need be and write its descriptor. */
  ghost function PlanOne(st: Store, k: Key, i: nat): Store
    requires Readable(st) && k in st.slots && i < st.p.maxTopk
  {
    StageOne(st, k, i).(desc := D.PutEntry(st.desc, st.p.maxTopk, i, EntryFor(st, k, i)))
  }

  /** plan from position i on; stops at the first token that is not valid or does not fit the format. */
  ghost function PlanFrom(st: Store, layer: nat, ts: seq<nat>, i: nat): (r: (Store, Fault))
    requires Readable(st) && i <= |ts| <= st.p.maxTopk
    decreases |ts| - i
  {
    if i == |ts| then
      if |ts| < D.Range(4) && layer < D.Range(4)
      then (st.(desc := D.PutHeader(st.desc, st.p.maxTopk, |ts|, layer)), NoFault)
      else (st, Unpackable)
    else if Key(layer, ts[i]) !in st.slots then (st, NotOffloaded)
    else if !D.Packable(EntryFor(st, Key(layer, ts[i]), i)) then (StageOne(st, Key(layer, ts[i]), i), Unpackable)
    else
      PlanOneSame(st, Key(layer, ts[i]), i);
      PlanFrom(PlanOne(st, Key(layer, ts[i]), i), layer, ts, i + 1)
  }

  /** plan(layer, tokens). */
  ghost function MakePlan(st: Store, layer: nat, ts: seq<nat>): (r: (Store, Fault))
    requires Readable(st)
  {
    if |ts| > st.p.maxTopk then (st, TooMany)
    else if layer >= st.p.layers || exists i :: 0 <= i < |ts| && ts[i] >= st.p.tokens then (st, BadIndex)
    else PlanFrom(st, layer, ts, 0)
  }

  /** Planning touches only the staging area and the descriptor buffer. */
  ghost predicate SameData(st: Store, e: Store) {
    e.p == st.p && e.devs == st.devs && e.slots == st.slots && e.cache == st.cache
  }

  lemma PlanOneSame(st: Store, k: Key, i: nat)
    requires Readable(st) && k in st.slots && i < st.p.maxTopk
    ensures Readable(PlanOne(st, k, i)) && SameData(st, PlanOne(st, k, i))
    ensures Contents(PlanOne(st, k, i)) == Contents(st)
    ensures Readable(StageOne(st, k, i)) && SameData(st, StageOne(st, k, i))
    ensures Contents(StageOne(st, k, i)) == Contents(st)
  {
    StagingSlot(st, i);
  }

  // ---------- what a descriptor means ----------

  /** What the operator delivers for a descriptor: its staging bytes if flagged 1, or a direct read of the device. */
  ghost predicate Executable(st: Store, e: D.Entry) {
    if e.flags == 1 then e.dst + e.length <= |st.staging|
    else e.ssd < |st.devs| && e.ssd < |st.p.base| && st.p.base[e.ssd] <= e.lba &&
         e.lba - st.p.base[e.ssd] + e.length <= |st.devs[e.ssd].disk|
  }

  ghost function Execute(st: Store, e: D.Entry): Data
    requires Executable(st, e)
  {
    if e.flags == 1 then st.staging[e.dst..e.dst + e.length]
    else
      var at := e.lba - st.p.base[e.ssd];
      st.devs[e.ssd].disk[at..at + e.length]
  }

  /** Descriptor i leads to key k: marked ready with its bytes staged, or addressing a unit settled on its device. */
  ghost predicate EntryGood(st: Store, k: Key, i: nat)
    requires Readable(st) && i < st.p.maxTopk
  {
    StagingSlot(st, i);
    var e := D.GetEntry(st.desc, st.p.maxTopk, i);
    && k in st.slots
    && e.ssd == st.p.home(k) && e.lba == st.p.base[e.ssd] + st.slots[k] && e.length == st.p.unit
    && e.dst == i * st.p.unit
    && (|| (e.flags == 1 && st.staging[i * st.p.unit..i * st.p.unit + st.p.unit] == Contents(st)[k])
        || (e.flags == 0 && !Buffered(st, k)))
  }

  ghost predicate PlanGood(st: Store, layer: nat, ts: seq<nat>, n: nat)
    requires Readable(st) && n <= |ts| <= st.p.maxTopk
  {
    forall i :: 0 <= i < n ==> EntryGood(st, Key(layer, ts[i]), i)
  }

  lemma PlanOneGood(st: Store, k: Key, i: nat)
    requires Readable(st) && k in st.slots && i < st.p.maxTopk && D.Packable(EntryFor(st, k, i))
    ensures Readable(PlanOne(st, k, i)) && EntryGood(PlanOne(st, k, i), k, i)
  {
    PlanOneSame(st, k, i);
    D.GetPut(st.desc, st.p.maxTopk, i, EntryFor(st, k, i), i);
    StagingSlot(st, i);
    if Buffered(st, k) {
      SpliceInside(st.staging, i * st.p.unit, Contents(st)[k], i * st.p.unit, st.p.unit);
      assert Contents(st)[k][0..st.p.unit] == Contents(st)[k];
    }
  }

  lemma PlanOneOther(st: Store, k: Key, i: nat, q: Key, j: nat)
    requires Readable(st) && k in st.slots && j < i < st.p.maxTopk && D.Packable(EntryFor(st, k, i))
    requires EntryGood(st, q, j)
    ensures Readable(PlanOne(st, k, i)) && EntryGood(PlanOne(st, k, i), q, j)
  {
    PlanOneSame(st, k, i);
    PlannedDesc(st, k, i, j);
    PlannedStaging(st, k, i, j);
    StagingSlot(st, j);
    hide PlanOne, EntryGood, EntryFor, D.Packable, D.GetEntry, Contents, Readable;
    EntryGoodSame(st, PlanOne(st, k, i), q, j);
  }

  lemma PlannedDesc(st: Store, k: Key, i: nat, j: nat)
    requires Readable(st) && k in st.slots && j < i < st.p.maxTopk && D.Packable(EntryFor(st, k, i))
    ensures D.Holds(PlanOne(st, k, i).desc, st.p.maxTopk)
    ensures D.GetEntry(PlanOne(st, k, i).desc, st.p.maxTopk, j) == D.GetEntry(st.desc, st.p.maxTopk, j)
  {
    hide Addressable, Contents, D.GetEntry, D.PutEntry;
    PlanOneSame(st, k, i);
    D.GetPut(st.desc, st.p.maxTopk, i, EntryFor(st, k, i), j);
  }

  lemma PlannedStaging(st: Store, k: Key, i: nat, j: nat)
    requires Readable(st) && k in st.slots && j < i < st.p.maxTopk
    ensures var e := PlanOne(st, k, i); var at := j * st.p.unit;
      |e.staging| == |st.staging| && at + st.p.unit <= |st.staging| &&
      e.staging[at..at + st.p.unit] == st.staging[at..at + st.p.unit]
  {
    StagingSlot(st, i);
    StagingSlot(st, j);
    if Buffered(st, k) {
      OtherSlot(st.staging, st.p.unit, Contents(st)[k], i, j);
    }
  }

  lemma EntryGoodSame(st: Store, e: Store, q: Key, j: nat)
    requires Readable(st) && Readable(e) && SameData(st, e) && Contents(e) == Contents(st) && j < st.p.maxTopk
    requires D.GetEntry(e.desc, e.p.maxTopk, j) == D.GetEntry(st.desc, st.p.maxTopk, j)
    requires j * st.p.unit + st.p.unit <= |st.staging| == |e.staging|
    requires e.staging[j * st.p.unit..j * st.p.unit + st.p.unit] == st.staging[j * st.p.unit..j * st.p.unit + st.p.unit]
    requires EntryGood(st, q, j)
    ensures EntryGood(e, q, j)
  {
    hide Segment.WellFormed, ReadAt, D.GetEntry;
  }

  lemma OtherSlot(staging: Data, unit: nat, data: Data, i: nat, j: nat)
    requires j < i && |data| == unit && i * unit + unit <= |staging| && j * unit + unit <= |staging|
    ensures Splice(staging, i * unit, data)[j * unit..j * unit + unit] == staging[j * unit..j * unit + unit]
  {
    MulMono(j + 1, i, unit);
    SpliceOutside(staging, i * unit, data, j * unit, unit);
  }

  /** A plan that succeeds describes every requested token, in order and with repeats. */
  lemma {:induction false} PlanFromGood(st: Store, layer: nat, ts: seq<nat>, i: nat)
    requires Readable(st) && i <= |ts| <= st.p.maxTopk && PlanGood(st, layer, ts, i)
    ensures var (e, f) := PlanFrom(st, layer, ts, i);
      && Readable(e) && SameData(st, e) && Contents(e) == Contents(st)
      && (f == NoFault ==> PlanGood(e, layer, ts, |ts|))
      && (f == NotOffloaded ==> exists j :: i <= j < |ts| && Key(layer, ts[j]) !in st.slots)
    decreases |ts| - i
  {
    hide Segment.WellFormed, EntryGood, PlanOne, StageOne, Contents, D.Packable, D.PutHeader;
    if i < |ts| {
      var k := Key(layer, ts[i]);
      if k in st.slots {
        PlanOneSame(st, k, i);
      }
      if k in st.slots && D.Packable(EntryFor(st, k, i)) {
        PlanOneGood(st, k, i);
        forall j | 0 <= j < i
          ensures EntryGood(PlanOne(st, k, i), Key(layer, ts[j]), j)
        {
          PlanOneOther(st, k, i, Key(layer, ts[j]), j);
        }
        PlanFromGood(PlanOne(st, k, i), layer, ts, i + 1);
      }
    } else {
      HeaderKeeps(st, layer, ts);
    }
  }

  lemma HeaderKeeps(st: Store, layer: nat, ts: seq<nat>)
    requires Readable(st) && |ts| <= st.p.maxTopk && PlanGood(st, layer, ts, |ts|)
    ensures var e := st.(desc := D.PutHeader(st.desc, st.p.maxTopk, |ts|, layer));
      Readable(e) && Contents(e) == Contents(st) && PlanGood(e, layer, ts, |ts|)
  {
    hide Contents, Addressable, D.GetEntry, D.PutHeader, EntryGood;
    var e := st.(desc := D.PutHeader(st.desc, st.p.maxTopk, |ts|, layer));
    HeaderReadable(st, layer, |ts|);
    forall i | 0 <= i < |ts|
      ensures EntryGood(e, Key(layer, ts[i]), i)
    {
      assert EntryGood(st, Key(layer, ts[i]), i);
      D.GetPutHeader(st.desc, st.p.maxTopk, |ts|, layer, i);
      StagingSlot(st, i);
      EntryGoodSame(st, e, Key(layer, ts[i]), i);
    }
  }

  lemma HeaderReadable(st: Store, layer: nat, n: nat)
    requires Readable(st)
    ensures var e := st.(desc := D.PutHeader(st.desc, st.p.maxTopk, n, layer));
      Readable(e) && Contents(e) == Contents(st)
  {
    hide Addressable, ReadAt;
  }

  /** Tokens i.. of the request are valid and their descriptors fit the format, and so does the header. */
  ghost predicate PlannableFrom(st: Store, layer: nat, ts: seq<nat>, i: nat)
    requires Shape(st)
  {
    && |ts| < 0x1_0000_0000 && layer < 0x1_0000_0000
    && forall j :: i <= j < |ts| ==> TokenPlannable(st, Key(layer, ts[j]), j)
  }

  /** The device number fits 32 bits; address, unit size and staging place fit 64 bits. */
  ghost predicate TokenPlannable(st: Store, k: Key, j: nat)
    requires Shape(st)
  {
    && k in st.slots && st.p.home(k) < 0x1_0000_0000
    && st.p.base[st.p.home(k)] + st.slots[k] < 0x1_0000_0000_0000_0000
    && st.p.unit < 0x1_0000_0000_0000_0000 && j * st.p.unit < 0x1_0000_0000_0000_0000
  }

  lemma PackableIff(st: Store, k: Key, j: nat)
    requires Shape(st) && k in st.slots
    ensures D.Packable(EntryFor(st, k, j)) <==> TokenPlannable(st, k, j)
  {
    hide Buffered;
    D.RangeIs();
  }

  /** What plan asks for: at most maxTopk tokens, in range, valid, with addresses that fit. */
  ghost predicate Plannable(st: Store, layer: nat, ts: seq<nat>)
    requires Shape(st)
  {
    && |ts| <= st.p.maxTopk && layer < st.p.layers && (forall i :: 0 <= i < |ts| ==> ts[i] < st.p.tokens)
    && PlannableFrom(st, layer, ts, 0)
  }

  lemma PlannableSame(st: Store, e: Store, layer: nat, ts: seq<nat>, i: nat)
    requires Shape(st) && Shape(e) && SameData(st, e)
    ensures PlannableFrom(e, layer, ts, i) <==> PlannableFrom(st, layer, ts, i)
  {
    hide D.Packable;
    assert forall j :: i <= j < |ts| ==>
      (TokenPlannable(e, Key(layer, ts[j]), j) <==> TokenPlannable(st, Key(layer, ts[j]), j));
  }

  lemma {:induction false} PlanFromIff(st: Store, layer: nat, ts: seq<nat>, i: nat)
    requires Readable(st) && i <= |ts| <= st.p.maxTopk
    ensures PlanFrom(st, layer, ts, i).1 == NoFault <==> PlannableFrom(st, layer, ts, i)
    decreases |ts| - i
  {
    hide D.Packable, EntryFor, PlanOne, Contents, Addressable;
    D.RangeIs();
    if i < |ts| {
      var k := Key(layer, ts[i]);
      assert PlannableFrom(st, layer, ts, i) <==> TokenPlannable(st, k, i) && PlannableFrom(st, layer, ts, i + 1);
      if k in st.slots {
        PackableIff(st, k, i);
      }
      if TokenPlannable(st, k, i) {
        PlanOneSame(st, k, i);
        PlanFromIff(PlanOne(st, k, i), layer, ts, i + 1);
        PlannableSame(st, PlanOne(st, k, i), layer, ts, i + 1);
      }
    }
  }

  /** plan succeeds exactly on plannable requests, changes no key, and then describes every requested token. */
  lemma MakePlanGood(st: Store, layer: nat, ts: seq<nat>)
    requires Readable(st)
    ensures var (e, f) := MakePlan(st, layer, ts);
      && Readable(e) && SameData(st, e) && Contents(e) == Contents(st)
      && (f == NoFault <==> Plannable(st, layer, ts))
      && (f == NoFault ==> |ts| <= e.p.maxTopk && PlanGood(e, layer, ts, |ts|))
  {
    hide Contents, Addressable, D.Packable;
    if |ts| <= st.p.maxTopk {
      PlanFromGood(st, layer, ts, 0);
      PlanFromIff(st, layer, ts, 0);
    }
  }

  /** Carrying out a good descriptor gives the same bytes as fetch. */
  lemma DescriptorDelivers(st: Store, live: Live, layer: nat, ts: seq<nat>, i: nat)
    requires StoreInv(st, live) && Readable(st) && i < |ts| <= st.p.maxTopk && PlanGood(st, layer, ts, |ts|)
    ensures var k, e := Key(layer, ts[i]), D.GetEntry(st.desc, st.p.maxTopk, i);
      k in st.slots && Executable(st, e) && Execute(st, e) == Contents(st)[k] == FetchOne(st, k)
  {
    hide Segment.Inv, Segment.WellFormed, ReadAt, D.GetEntry, Meaning, Owns;
    var k := Key(layer, ts[i]);
    assert EntryGood(st, k, i);
    StagingSlot(st, i);
    FetchIsLookup(st, live, layer, ts);
    SettledOnDisk(st, k);
  }

  /** A unit that is not buffered is read from its device. */
  lemma SettledOnDisk(st: Store, k: Key)
    requires Readable(st) && k in st.slots
    ensures var d, off := st.devs[st.p.home(k)], st.slots[k];
      off + st.p.unit <= |d.disk| && (!Buffered(st, k) ==> Contents(st)[k] == d.disk[off..off + st.p.unit])
  {
    assert Addressable(st.devs, Address(st.p.home(k), st.slots[k]));
    Segment.UnitFits(st.devs[st.p.home(k)].geo, st.slots[k]);
  }

  /** A plan outlives any step that leaves its tokens alone. */
  lemma PlanUndisturbed(st: Store, e: Store, layer: nat, ts: seq<nat>, touched: set<Key>)
    requires Readable(st) && Readable(e) && |ts| <= st.p.maxTopk && PlanGood(st, layer, ts, |ts|)
    requires Undisturbed(st, e, touched) && TokenKeys(layer, ts) !! touched
    requires forall k :: k in TokenKeys(layer, ts) && k in st.slots && k in e.slots ==>
      Contents(e)[k] == Contents(st)[k]
    ensures PlanGood(e, layer, ts, |ts|)
  {
    hide Segment.WellFormed, ReadAt, D.GetEntry, Contents;
    forall i | 0 <= i < |ts|
      ensures EntryGood(e, Key(layer, ts[i]), i)
    {
      assert EntryGood(st, Key(layer, ts[i]), i);
      assert Key(layer, ts[i]) in TokenKeys(layer, ts);
    }
  }

  /** Operations on other keys leave a key's bytes as they are. */
  lemma {:induction false} PutAllOther(m: map<Key, Data>, ws: seq<Write>, k: Key)
    requires k !in KeysOf(ws)
    ensures k in PutAll(m, ws) <==> k in m
    ensures k in m ==> PutAll(m, ws)[k] == m[k]
    decreases |ws|
  {
    if ws != [] {
      KeysOfRest(ws);
      PutAllOther(m[ws[0].key := ws[0].data], ws[1..], k);
    }
  }

  lemma MapStepOther(m: map<Key, Data>, op: Op, n: nat, k: Key)
    requires k !in Touched(op)
    ensures k in MapStep(m, op, n) <==> k in m
    ensures k in m ==> MapStep(m, op, n)[k] == m[k]
  {
    match op
    case OffloadOp(ws) =>
      if n <= |ws| {
        assert KeysOf(ws[..n]) <= KeysOf(ws);
        PutAllOther(m, ws[..n], k);
      }
    case ReleaseOp(layer, ts) =>
      if n <= |ts| {
        assert TokenKeys(layer, ts[..n]) <= TokenKeys(layer, ts);
      }
    case _ =>
  }

  /** No operation of the run offloads or releases a planned token. */
  ghost predicate LeavesAlone(ops: seq<Op>, keys: set<Key>) {
    forall i :: 0 <= i < |ops| ==> keys !! Touched(ops[i])
  }

  /**
    Emitted descriptors stay valid: after any later offloads, flushes, prefetches and releases of other tokens, each
    descriptor still delivers the bytes its token had when the plan was made, and fetch still returns the same.
   */
  lemma {:induction false} PlanSurvives(st: Store, live: Live, layer: nat, ts: seq<nat>, ops: seq<Op>, ns: seq<nat>,
                                        e: Store)
    returns (after: Live)
    requires StoreInv(st, live) && Readable(st) && |ts| <= st.p.maxTopk && PlanGood(st, layer, ts, |ts|)
    requires Reaches(st, ops, ns, e) && LeavesAlone(ops, TokenKeys(layer, ts))
    ensures StoreInv(e, after) && Readable(e) && e.p == st.p && PlanGood(e, layer, ts, |ts|)
    ensures forall i :: 0 <= i < |ts| ==>
      var k, d := Key(layer, ts[i]), D.GetEntry(e.desc, e.p.maxTopk, i);
      k in st.slots && k in e.slots && Executable(e, d) && Execute(e, d) == Contents(st)[k] == FetchOne(e, k)
    decreases |ops|
  {
    hide Segment.Inv, Meaning, Owns, DevicesOk, Addressable, Step, Progress;
    after := live;
    if ops == [] {
      forall i | 0 <= i < |ts|
        ensures var k, d := Key(layer, ts[i]), D.GetEntry(e.desc, e.p.maxTopk, i);
          k in e.slots && Executable(e, d) && Execute(e, d) == Contents(st)[k] == FetchOne(e, k)
      {
        DescriptorDelivers(e, after, layer, ts, i);
      }
    } else {
      var mid := StepKeeps(st, live, ops[0]);
      var next := Step(st, ops[0]);
      PlanStep(st, layer, ts, ops[0]);
      assert LeavesAlone(ops[1..], TokenKeys(layer, ts));
      after := PlanSurvives(next, mid, layer, ts, ops[1..], ns[1..], e);
      SameBytes(st, layer, ts, ops[0]);
    }
  }

  lemma SameBytes(st: Store, layer: nat, ts: seq<nat>, op: Op)
    requires Readable(st) && Allowed(st, op) && Readable(Step(st, op))
    requires Contents(Step(st, op)) == MapStep(Contents(st), op, Progress(st, op))
    requires TokenKeys(layer, ts) !! Touched(op)
    ensures forall k :: k in TokenKeys(layer, ts) && k in st.slots ==>
      k in Step(st, op).slots && Contents(Step(st, op))[k] == Contents(st)[k]
  {
    hide Step;
    forall k | k in TokenKeys(layer, ts) && k in st.slots
      ensures k in Contents(Step(st, op)) && Contents(Step(st, op))[k] == Contents(st)[k]
    {
      MapStepOther(Contents(st), op, Progress(st, op), k);
    }
  }

  lemma PlanStep(st: Store, layer: nat, ts: seq<nat>, op: Op)
    requires Readable(st) && Allowed(st, op) && Readable(Step(st, op)) && |ts| <= st.p.maxTopk
    requires PlanGood(st, layer, ts, |ts|)
    requires Contents(Step(st, op)) == MapStep(Contents(st), op, Progress(st, op))
    requires Undisturbed(st, Step(st, op), Touched(op)) && TokenKeys(layer, ts) !! Touched(op)
    ensures Step(st, op).p == st.p && PlanGood(Step(st, op), layer, ts, |ts|)
  {
    hide Step, Contents, EntryGood;
    SameBytes(st, layer, ts, op);
    PlanUndisturbed(st, Step(st, op), layer, ts, Touched(op));
  }
}
