/** A trial on a store object: load the trace, then release it (bmpclient/bench/layout_replay.py, trial). */
module TrialRun {
  import opened Finite
  import opened Placement
  import opened Media
  import opened SlotTable
  import opened KVStore
  import opened StoreRuns
  import opened Planner
  import opened Replay
  import opened PlannedReplay
  import opened SparseKV

  /** A one-token block is one write. */
  lemma OneToken(p: Params, layer: nat, token: nat, data: Data)
    requires layer < p.layers && token < p.tokens && |data| == p.unit
    ensures BlockOk(p, Block(layer, token, 1, data))
    ensures Writes(p, [Block(layer, token, 1, data)]) == [Write(Key(layer, token), data)]
  {
    var b := Block(layer, token, 1, data);
    assert [b][..0] == [] && Writes(p, []) == [];
    BlockWriteAt(p, b, 0);
    assert data[0..p.unit] == data;
  }

  /** append's loop: one offload per token; false when one cannot be stored. */
  method AppendTokens(store: SparseKVStore, content: Key -> Data, e: Event) returns (ok: bool)
    requires store.Sound() && Shape(store.View()) && Loadable(store.Params(), content, e)
    modifies store.vm.Repr(), store.table.entries
    ensures store.Sound() && fresh(store.vm.Repr() - old(store.vm.Repr()))
    ensures WritesOk(store.Params(), Loads(content, e))
    ensures store.View() == WriteAll(old(store.View()), Loads(content, e)).0
    ensures ok <==> WriteAll(old(store.View()), Loads(content, e)).1 == |e.tokens|
  {
    hide VirtualMedia.Valid, VirtualMedia.Views, WriteToken, Shape, Table.Slots;
    ghost var start, ws := store.View(), Loads(content, e);
    LoadsOk(store.Params(), content, e);
    assert ws[0..] == ws;
    for i := 0 to |e.tokens|
      invariant store.Sound() && Shape(store.View()) && fresh(store.vm.Repr() - old(store.vm.Repr()))
      invariant WriteAll(start, ws).0 == WriteAll(store.View(), ws[i..]).0
      invariant WriteAll(start, ws).1 == i + WriteAll(store.View(), ws[i..]).1
    {
      assert ws[i..][0] == ws[i] && ws[i..][1..] == ws[i + 1..];
      var k := Key(e.layer, e.tokens[i]);
      var stored := AppendToken(store, k, content(k));
      if !stored {
        return false;
      }
    }
    return true;
  }

  /** Offload of a one-token block. */
  method AppendToken(store: SparseKVStore, k: Key, data: Data) returns (stored: bool)
    requires store.Sound() && Shape(store.View()) && InRange(store.Params(), k) && |data| == store.vm.unit
    modifies store.vm.Repr(), store.table.entries
    ensures store.Sound() && Shape(store.View()) && fresh(store.vm.Repr() - old(store.vm.Repr()))
    ensures store.View() == WriteToken(old(store.View()), k, data).0
    ensures stored <==> WriteToken(old(store.View()), k, data).1 == NoFault
  {
    hide VirtualMedia.Valid, VirtualMedia.Views, WriteToken, WriteAll, Writes, Shape, Table.Slots;
    OneToken(store.Params(), k.layer, k.token, data);
    OneWrite(store.View(), k, data);
    stored := store.Offload([Block(k.layer, k.token, 1, data)]);
    store.ViewShape();
  }

  lemma OneWrite(st: Store, k: Key, data: Data)
    requires Shape(st) && InRange(st.p, k) && |data| == st.p.unit
    ensures WritesOk(st.p, [Write(k, data)])
    ensures WriteAll(st, [Write(k, data)]).0 == WriteToken(st, k, data).0
    ensures WriteAll(st, [Write(k, data)]).1 == 1 <==> WriteToken(st, k, data).1 == NoFault
  {
    hide WriteToken;
    WriteTokenShape(st, k, data);
    assert [Write(k, data)][1..] == [];
  }

  /** One step of the schedule: append unless nothing is new, and flush online. */
  method StepOnce(store: SparseKVStore, content: Key -> Data, mode: Mode, e: Event) returns (ok: bool)
    requires store.Sound() && Shape(store.View()) && Loadable(store.Params(), content, e)
    modifies store.vm.Repr(), store.table.entries
    ensures store.Sound() && Shape(store.View()) && fresh(store.vm.Repr() - old(store.vm.Repr()))
    ensures (store.View(), ok) == OneStep(old(store.View()), content, mode, e)
  {
    hide VirtualMedia.Valid, VirtualMedia.Views, WriteAll, Shape, Table.Slots;
    ok := AppendTokens(store, content, e);
    store.ViewShape();
    if ok && mode == Online {
      store.Flush();
      store.ViewShape();
    }
  }

  /** A permutation of each step's tokens; the ordered layout uses the identity. */
  ghost predicate Shuffler(shuffle: Event -> Event) {
    forall e :: Shuffle(shuffle(e), e)
  }

  /** The loading part of a trial, with its dictionary of loaded lengths. */
  method Load(store: SparseKVStore, content: Key -> Data, mode: Mode, recs: seq<Record>, shuffle: Event -> Event)
    returns (ok: bool, loaded: map<nat, nat>, ghost evs: seq<Event>)
    requires store.Sound() && Shape(store.View()) && Shuffler(shuffle)
    requires forall k :: |content(k)| == store.vm.unit
    requires forall i :: 0 <= i < |recs| ==> recs[i].layer < store.table.layers && recs[i].length <= store.table.tokens
    modifies store.vm.Repr(), store.table.entries
    ensures store.Sound() && fresh(store.vm.Repr() - old(store.vm.Repr()))
    ensures Shuffles(evs, Batches(recs)) && AllLoadable(store.Params(), content, evs)
    ensures (store.View(), ok) == Trial(old(store.View()), content, mode, evs)
    ensures ok ==> Tracks(recs, |recs|, loaded)
  {
    hide VirtualMedia.Valid, VirtualMedia.Views, Shape, Table.Slots, Loadable;
    hide Shuffle, Steps, Batches, Tracks, Shuffled;
    ghost var start := store.View();
    evs := Shuffled(Batches(recs), shuffle);
    ShuffledLoadable(store.Params(), content, recs, shuffle);
    loaded := map[];
    TracksNone(recs);
    NoSteps(start, content, mode);
    for i := 0 to |recs|
      invariant store.Sound() && Shape(store.View()) && fresh(store.vm.Repr() - old(store.vm.Repr()))
      invariant Tracks(recs, i, loaded) && Steps(start, content, mode, evs[..i]) == (store.View(), true)
    {
      ok, loaded := LoadNext(store, content, mode, recs, shuffle, loaded, i, start, evs);
      if !ok {
        return false, loaded, evs;
      }
    }
    assert evs[..|recs|] == evs;
    if mode == Snapshot {
      store.Flush();
    }
    ok := true;
  }

  /** The dictionary holds what the first i records loaded. */
  ghost predicate Tracks(recs: seq<Record>, i: nat, loaded: map<nat, nat>)
    requires i <= |recs|
  {
    forall l :: Loaded(recs[..i], l) == if l in loaded then loaded[l] else 0
  }

  lemma TracksNone(recs: seq<Record>)
    ensures Tracks(recs, 0, map[])
  {
    assert recs[..0] == [];
  }

  /** Record i of the trace: append what is new, flush online, remember the length. */
  method LoadNext(store: SparseKVStore, content: Key -> Data, mode: Mode, recs: seq<Record>, shuffle: Event -> Event,
                  loaded: map<nat, nat>, i: nat, ghost start: Store, ghost evs: seq<Event>)
    returns (ok: bool, more: map<nat, nat>)
    requires store.Sound() && Shape(store.View()) && Shape(start) && start.p == store.Params()
    requires i < |recs| && evs == Shuffled(Batches(recs), shuffle) && AllLoadable(start.p, content, evs)
    requires Tracks(recs, i, loaded) && Steps(start, content, mode, evs[..i]) == (store.View(), true)
    modifies store.vm.Repr(), store.table.entries
    ensures store.Sound() && Shape(store.View()) && fresh(store.vm.Repr() - old(store.vm.Repr()))
    ensures ok ==> Tracks(recs, i + 1, more) && Steps(start, content, mode, evs[..i + 1]) == (store.View(), true)
    ensures !ok ==> Steps(start, content, mode, evs) == (store.View(), false)
  {
    hide VirtualMedia.Valid, VirtualMedia.Views, Shape, Table.Slots, OneStep, Loaded, Loadable, Steps, Batches;
    var r := recs[i];
    var begin := if r.layer in loaded then loaded[r.layer] else 0;
    StepAt(recs, evs, shuffle, i);
    StepsSnoc(start, content, mode, evs, i);
    ok := StepOnce(store, content, mode, shuffle(Event(r.layer, Range(begin, r.length))));
    more := loaded[r.layer := r.length];
    if !ok {
      StepsStop(start, content, mode, evs, i + 1);
    }
  }

  lemma NoSteps(st: Store, content: Key -> Data, mode: Mode)
    requires Shape(st)
    ensures Steps(st, content, mode, []) == (st, true)
  {
  }

  ghost function Shuffled(bs: seq<Event>, shuffle: Event -> Event): (r: seq<Event>)
    ensures |r| == |bs| && forall i :: 0 <= i < |bs| ==> r[i] == shuffle(bs[i])
  {
    seq(|bs|, i requires 0 <= i < |bs| => shuffle(bs[i]))
  }

  lemma StepsSnoc(st: Store, content: Key -> Data, mode: Mode, evs: seq<Event>, i: nat)
    requires Shape(st) && AllLoadable(st.p, content, evs) && i < |evs| && Steps(st, content, mode, evs[..i]).1
    ensures Steps(st, content, mode, evs[..i + 1]) ==
      OneStep(Steps(st, content, mode, evs[..i]).0, content, mode, evs[i])
  {
    hide OneStep, Shape, Loadable;
    assert evs[..i + 1][..i] == evs[..i];
  }

  /** A step that fails ends the replay. */
  lemma {:induction false} StepsStop(st: Store, content: Key -> Data, mode: Mode, evs: seq<Event>, i: nat)
    requires Shape(st) && AllLoadable(st.p, content, evs) && i <= |evs| && !Steps(st, content, mode, evs[..i]).1
    ensures Steps(st, content, mode, evs) == Steps(st, content, mode, evs[..i])
    decreases |evs|
  {
    hide OneStep, Shape, Loadable;
    if i == |evs| {
      assert evs[..i] == evs;
    } else {
      var front := evs[..|evs| - 1];
      assert front[..i] == evs[..i];
      StepsStop(st, content, mode, front, i);
    }
  }

  /** Step i of the loop inserts the tokens of batch i. */
  lemma StepAt(recs: seq<Record>, evs: seq<Event>, shuffle: Event -> Event, i: nat)
    requires i < |recs| && evs == Shuffled(Batches(recs), shuffle)
    ensures evs[i] == shuffle(Event(recs[i].layer, Range(Loaded(recs[..i], recs[i].layer), recs[i].length)))
    ensures forall l :: Loaded(recs[..i + 1], l) == if l == recs[i].layer then recs[i].length else Loaded(recs[..i], l)
  {
    BatchStep(recs, i);
    BatchAt(recs, i);
  }

  lemma {:induction false} BatchAt(recs: seq<Record>, i: nat)
    requires i < |recs|
    ensures Batches(recs)[i] == Batches(recs[..i + 1])[i]
    decreases |recs|
  {
    if i == |recs| - 1 {
      assert recs[..i + 1] == recs;
    } else {
      var front := recs[..|recs| - 1];
      assert front[..i + 1] == recs[..i + 1];
      BatchAt(front, i);
    }
  }

  lemma {:induction false} ShuffledLoadable(p: Params, content: Key -> Data, recs: seq<Record>, shuffle: Event -> Event)
    requires Shuffler(shuffle) && forall k :: |content(k)| == p.unit
    requires forall i :: 0 <= i < |recs| ==> recs[i].layer < p.layers && recs[i].length <= p.tokens
    ensures Shuffles(Shuffled(Batches(recs), shuffle), Batches(recs))
    ensures AllLoadable(p, content, Shuffled(Batches(recs), shuffle))
  {
    var bs := Batches(recs);
    var evs := Shuffled(bs, shuffle);
    forall i | 0 <= i < |evs|
      ensures Shuffle(evs[i], bs[i]) && Loadable(p, content, evs[i])
    {
      BatchAt(recs, i);
      BatchStep(recs, i);
      var start, end := Loaded(recs[..i], recs[i].layer), recs[i].length;
      forall j | 0 <= j < |evs[i].tokens|
        ensures evs[i].tokens[j] < p.tokens
      {
        assert evs[i].tokens[j] in multiset(evs[i].tokens);
        var m := Occurs(evs[i].tokens[j], bs[i].tokens, multiset(evs[i].tokens));
        SpanIs(start, end - start, m);
      }
    }
  }

  /** The release loop at the end of a request. */
  method ReleaseLayers(store: SparseKVStore, ghost recs: seq<Record>, loaded: map<nat, nat>, order: seq<nat>)
    requires store.Sound() && Shape(store.View())
    requires Tracks(recs, |recs|, loaded) && forall i :: 0 <= i < |order| ==> order[i] in loaded
    modifies store, store.vm.Repr(), store.table.entries
    ensures store.Sound() && fresh(store.vm.Repr() - old(store.vm.Repr()))
    ensures store.View() == ReleaseLoaded(old(store.View()), recs, order)
  {
    hide VirtualMedia.Valid, VirtualMedia.Views, ReleaseAll, Shape, Table.Slots, Loaded;
    ghost var start := store.View();
    assert order[0..] == order && recs[..|recs|] == recs;
    for i := 0 to |order|
      invariant store.Sound() && Shape(store.View()) && fresh(store.vm.Repr() - old(store.vm.Repr()))
      invariant ReleaseLoaded(start, recs, order) == ReleaseLoaded(store.View(), recs, order[i..])
    {
      assert order[i..][0] == order[i] && order[i..][1..] == order[i + 1..];
      ReleaseAllShape(store.View(), order[i], Span(0, loaded[order[i]]));
      var ok := store.Release(order[i], Span(0, loaded[order[i]]));
      store.ViewShape();
    }
  }
}
