/** The store object of bmpclient/sparse_kv/store.py, proved against the value-level store. */
module SparseKV {
  import opened Bytes
  import opened Placement
  import opened Segment
  import opened SegmentManager
  import opened SlotTable
  import opened Media
  import opened KVStore
  import opened StoreRuns
  import opened Plan
  import D = Descriptor
  import Arith

  /** The units a successful fetch returns. */
  ghost function FetchAll(st: Store, layer: nat, ts: seq<nat>): (r: seq<Data>)
    requires Readable(st) && forall i :: 0 <= i < |ts| ==> Key(layer, ts[i]) in st.slots
    ensures |r| == |ts| && forall i :: 0 <= i < |ts| ==> r[i] == FetchOne(st, Key(layer, ts[i]))
  {
    seq(|ts|, i requires 0 <= i < |ts| => FetchOne(st, Key(layer, ts[i])))
  }

  /** The tokens without a prefetched copy, in order. */
  method NotCached(layer: nat, ts: seq<nat>, cache: map<Key, Data>) returns (pending: seq<nat>)
    ensures TokenKeys(layer, pending) == TokenKeys(layer, ts) - cache.Keys
  {
    pending := [];
    for i := 0 to |ts|
      invariant TokenKeys(layer, pending) == TokenKeys(layer, ts[..i]) - cache.Keys
    {
      TokenKeysSnoc(layer, ts[..i], ts[i]);
      assert ts[..i + 1] == ts[..i] + [ts[i]];
      if Key(layer, ts[i]) !in cache {
        TokenKeysSnoc(layer, pending, ts[i]);
        pending := pending + [ts[i]];
      }
    }
    assert ts[..|ts|] == ts;
  }

  /** The fetched units by key; a repeated token gives the same copy again. */
  method Copies(layer: nat, ts: seq<nat>, out: seq<Data>, ghost st: Store) returns (more: map<Key, Data>)
    requires Readable(st) && |out| == |ts|
    requires forall i :: 0 <= i < |ts| ==> Key(layer, ts[i]) in st.slots && out[i] == FetchOne(st, Key(layer, ts[i]))
    ensures more.Keys == TokenKeys(layer, ts)
    ensures forall k :: k in more ==> k in st.slots && more[k] == FetchOne(st, k)
  {
    more := map[];
    for i := 0 to |ts|
      invariant more.Keys == TokenKeys(layer, ts[..i])
      invariant forall k :: k in more ==> k in st.slots && more[k] == FetchOne(st, k)
    {
      TokenKeysSnoc(layer, ts[..i], ts[i]);
      assert ts[..i + 1] == ts[..i] + [ts[i]];
      more := more[Key(layer, ts[i]) := out[i]];
    }
    assert ts[..|ts|] == ts;
  }

  /** Puts the units read by the batch into their positions. */
  method Combine(partial: seq<Data>, where: seq<nat>, units: seq<Data>, ghost want: seq<Data>) returns (out: seq<Data>)
    requires |want| == |partial| && |units| == |where|
    requires forall n :: 0 <= n < |where| ==> where[n] < |partial| && units[n] == want[where[n]]
    requires forall i :: 0 <= i < |partial| && i !in where ==> partial[i] == want[i]
    ensures out == want
  {
    out := partial;
    for n := 0 to |where|
      invariant |out| == |want|
      invariant forall i :: 0 <= i < |out| && i !in where[n..] ==> out[i] == want[i]
    {
      assert where[n..] == [where[n]] + where[n + 1..];
      out := out[where[n] := units[n]];
    }
  }

  /** The entry is valid exactly when the key has a slot, and then carries its offset. */
  ghost predicate Described(st: Store, k: Key, e: nat) {
    (IsValid(e) <==> k in st.slots) && (k in st.slots ==> EntryOffset(e) == st.slots[k])
  }

  /** Every block passes its checks and every unit is written. */
  ghost predicate Offloaded(st: Store, blocks: seq<Block>)
    requires Shape(st)
  {
    && (forall i :: 0 <= i < |blocks| ==> BlockOk(st.p, blocks[i]))
    && WriteAll(st, Writes(st.p, blocks)).1 == |Writes(st.p, blocks)|
  }

  /** The first n blocks pass their checks and all their units are written; st is the store reached. */
  ghost predicate WrittenUpTo(start: Store, blocks: seq<Block>, n: nat, st: Store)
    requires Shape(start) && n <= |blocks|
  {
    && (forall i :: 0 <= i < n ==> BlockOk(start.p, blocks[i]))
    && WriteAll(start, Writes(start.p, blocks[..n])) == (st, |Writes(start.p, blocks[..n])|)
  }

  lemma NoneWritten(start: Store, blocks: seq<Block>)
    requires Shape(start)
    ensures WrittenUpTo(start, blocks, 0, start)
  {
    WriteNone(start);
  }

  lemma AllWritten(start: Store, blocks: seq<Block>, st: Store)
    requires Shape(start) && WrittenUpTo(start, blocks, |blocks|, st)
    ensures Offloaded(start, blocks) && WriteAll(start, Writes(start.p, blocks)).0 == st
  {
    hide WriteAll, Writes, Shape;
    assert blocks[..|blocks|] == blocks;
  }

  /** The zeroed descriptor buffer and staging area. */
  method NewBuffers(maxTopk: nat, unit: nat) returns (desc: array<byte>, staging: array<byte>)
    ensures fresh(desc) && fresh(staging) && desc != staging
    ensures desc.Length == D.HEADER_SIZE + D.ENTRY_SIZE * maxTopk && staging.Length == maxTopk * unit
  {
    desc := new byte[D.HEADER_SIZE + D.ENTRY_SIZE * maxTopk](_ => 0);
    staging := new byte[maxTopk * unit](_ => 0);
  }

  class SparseKVStore {
    const vm: VirtualMedia
    const table: Table
    const maxTopk: nat
    const base: seq<nat>
    var cache: map<Key, Data>
    const desc: array<byte>
    const staging: array<byte>

    ghost function Params(): Params {
      KVStore.Params.Params(vm.home, |vm.mgrs|, table.layers, table.tokens, vm.unit, maxTopk, base)
    }

    /** The parts are sound and do not overlap in memory. */
    ghost predicate Sound()
      reads vm.mgrs, vm.Repr()
    {
      && vm.Valid() && table.Shape()
      && table.entries !in vm.Repr() && desc !in vm.Repr() && staging !in vm.Repr() && this !in vm.Repr()
      && desc != staging
      && |base| == |vm.mgrs|
      && desc.Length == D.HEADER_SIZE + D.ENTRY_SIZE * maxTopk && staging.Length == maxTopk * vm.unit
    }

    ghost function View(): Store
      requires Sound()
      reads this, vm.mgrs, vm.Repr(), table.entries, desc, staging
    {
      Store(Params(), vm.Views(), table.Slots(), cache, desc[..], staging[..])
    }

    /** A sound object stands for a well-shaped store. */
    lemma ViewShape()
      requires Sound()
      ensures Shape(View())
    {
      hide VirtualMedia.Valid, WellFormed;
      vm.ViewsShape();
    }

    constructor (vm: VirtualMedia, layers: nat, tokens: nat, maxTopk: nat, base: seq<nat>)
      requires vm.Valid() && 0 < layers && 0 < tokens && 0 < maxTopk && |base| == |vm.mgrs|
      ensures Sound() && this.vm == vm && this.maxTopk == maxTopk && this.base == base
      ensures fresh(table) && table.layers == layers && table.tokens == tokens
      ensures View().slots == map[] && View().cache == map[]
    {
      hide WellFormed, DeviceSegmentManager.Valid, DeviceSegmentManager.View, Table.Slots;
      var t := new Table(layers, tokens);
      var d, s := NewBuffers(maxTopk, vm.unit);
      this.vm, table, this.maxTopk, this.base, cache, desc, staging := vm, t, maxTopk, base, map[], d, s;
    }

    /** Sets a key's slot; fails when the offset does not fit a packed entry. */
    method Record(k: Key, off: nat) returns (ok: bool)
      requires Sound() && InRange(Params(), k)
      modifies table.entries
      ensures Sound() && vm.Repr() == old(vm.Repr())
      ensures ok <==> off < MAX_OFFSET
      ensures View() == if ok then old(View()).(slots := old(View()).slots[k := off]) else old(View())
    {
      hide WellFormed, Table.Slots;
      ok := table.Set(k, off);
    }

    /** The media layer takes the unit; the rest of the store stays as it is. */
    method AppendUnit(k: Key, data: Data) returns (out: Outcome<nat>)
      requires Sound() && Shape(View())
      modifies vm.Repr()
      ensures Sound() && fresh(vm.Repr() - old(vm.Repr()))
      ensures var (x, r) := Append(old(View()).devs[vm.home(k)], data);
        View() == old(View()).(devs := old(View()).devs[vm.home(k) := x]) && out == r
    {
      hide WellFormed, Append, Table.Slots, VirtualMedia.Valid, VirtualMedia.Views;
      out := vm.Write(k, data);
      assert table.Slots() == old(table.Slots());
    }

    /** One token of offload. */
    method WriteOne(k: Key, data: Data) returns (f: Fault)
      requires Sound() && InRange(Params(), k)
      requires Shape(View())
      modifies vm.Repr(), table.entries
      ensures Sound() && fresh(vm.Repr() - old(vm.Repr()))
      ensures (View(), f) == WriteToken(old(View()), k, data)
    {
      var out := AppendUnit(k, data);
      hide VirtualMedia.Valid, VirtualMedia.Views, WellFormed, Append, Table.Slots;
      match out {
        case Ok(off) =>
          var ok := Record(k, off);
          f := if ok then NoFault else BadWrite;
        case Err(SegmentFull) => f := Full;
        case Err(_) => f := BadWrite;
      }
    }

    /** offload: block after block, token after token, until a check or a write fails. */
    method Offload(blocks: seq<Block>) returns (ok: bool)
      requires Sound() && Shape(View())
      modifies vm.Repr(), table.entries
      ensures Sound() && fresh(vm.Repr() - old(vm.Repr()))
      ensures View() == WriteAll(old(View()), Writes(Params(), blocks)).0
      ensures ok <==> Offloaded(old(View()), blocks)
    {
      hide VirtualMedia.Valid, VirtualMedia.Views, WriteAll, Writes, Shape, Table.Slots, Offloaded, BlockOk;
      ghost var start := View();
      NoneWritten(start, blocks);
      hide WrittenUpTo;
      for n := 0 to |blocks|
        invariant Sound() && fresh(vm.Repr() - old(vm.Repr()))
        invariant WrittenUpTo(start, blocks, n, View())
      {
        var more := OffloadNext(blocks, n, start);
        if !more {
          return false;
        }
      }
      AllWritten(start, blocks, View());
      return true;
    }

    /** One block of an offload that went well so far; when it fails, the offload is over. */
    method OffloadNext(blocks: seq<Block>, n: nat, ghost start: Store) returns (more: bool)
      requires Sound() && Shape(start) && start.p == Params() && n < |blocks|
      requires WrittenUpTo(start, blocks, n, View())
      modifies vm.Repr(), table.entries
      ensures Sound() && fresh(vm.Repr() - old(vm.Repr()))
      ensures more ==> WrittenUpTo(start, blocks, n + 1, View())
      ensures !more ==> View() == WriteAll(start, Writes(start.p, blocks)).0 && !Offloaded(start, blocks)
    {
      hide VirtualMedia.Valid, VirtualMedia.Views, WriteToken, WriteAll, Writes, Shape, BlockWrites, Table.Slots;
      var b := blocks[n];
      ViewShape();
      if !(b.layer < table.layers && b.start + b.count <= table.tokens && b.count * vm.unit <= |b.buffer|) {
        StoppedAt(start.p, blocks, n);
        return false;
      }
      OffloadStep(start, blocks, n, View());
      more := OffloadBlock(b);
    }

    method OffloadBlock(b: Block) returns (ok: bool)
      requires Sound() && Shape(View()) && BlockOk(Params(), b)
      modifies vm.Repr(), table.entries
      ensures Sound() && fresh(vm.Repr() - old(vm.Repr()))
      ensures View() == WriteAll(old(View()), BlockWrites(Params(), b, b.count)).0
      ensures ok <==> WriteAll(old(View()), BlockWrites(Params(), b, b.count)).1 == b.count
    {
      hide VirtualMedia.Valid, VirtualMedia.Views, WriteAll, Shape, BlockWrites, Table.Slots, WriteToken;
      ghost var start, ws := View(), BlockWrites(Params(), b, b.count);
      assert ws[0..] == ws;
      for i := 0 to b.count
        invariant Sound() && Shape(View()) && fresh(vm.Repr() - old(vm.Repr()))
        invariant WriteAll(start, ws).0 == WriteAll(View(), ws[i..]).0
        invariant WriteAll(start, ws).1 == i + WriteAll(View(), ws[i..]).1
      {
        WriteNext(View(), ws, i);
        var f := OffloadUnit(b, i, ws);
        if f != NoFault {
          return false;
        }
      }
      WriteNone(View());
      return true;
    }

    /** Token i of a block: its slice of the buffer is written. */
    method OffloadUnit(b: Block, i: nat, ghost ws: seq<Write>) returns (f: Fault)
      requires Sound() && Shape(View()) && BlockOk(Params(), b) && i < b.count
      requires ws == BlockWrites(Params(), b, b.count)
      modifies vm.Repr(), table.entries
      ensures Sound() && fresh(vm.Repr() - old(vm.Repr()))
      ensures (View(), f) == WriteToken(old(View()), ws[i].key, ws[i].data)
    {
      hide VirtualMedia.Valid, VirtualMedia.Views, Shape, BlockWrites, Table.Slots, WriteToken;
      BlockWriteAt(Params(), b, i);
      f := WriteOne(Key(b.layer, b.start + i), b.buffer[i * vm.unit..(i + 1) * vm.unit]);
    }

    method Flush()
      requires Sound() && Shape(View())
      modifies vm.Repr()
      ensures Sound() && fresh(vm.Repr() - old(vm.Repr()))
      ensures View() == FlushStore(old(View()))
    {
      hide WellFormed, Segment.Flush, Table.Slots, VirtualMedia.Valid, VirtualMedia.Views;
      vm.Flush();
      assert table.Slots() == old(table.Slots());
      assert vm.Views() == FlushAll(old(vm.Views()));
    }

    // ---------- release ----------

    /** Clears a key's slot and drops its prefetched copy. */
    method Forget(k: Key)
      requires Sound() && InRange(Params(), k)
      modifies this, table.entries
      ensures Sound() && vm.Repr() == old(vm.Repr())
      ensures View() == old(View()).(slots := old(View()).slots - {k}, cache := old(View()).cache - {k})
    {
      hide WellFormed, Table.Slots;
      var ok := table.Invalidate(k);
      cache := cache - {k};
    }

    method GiveBack(k: Key, off: nat) returns (out: Outcome<()>)
      requires Sound() && Shape(View())
      modifies vm.Repr()
      ensures Sound() && fresh(vm.Repr() - old(vm.Repr()))
      ensures var (x, r) := Segment.Release(old(View()).devs[vm.home(k)], off);
        View() == old(View()).(devs := old(View()).devs[vm.home(k) := x]) && out == r
    {
      hide WellFormed, Segment.Release, Table.Slots, VirtualMedia.Valid, VirtualMedia.Views;
      out := vm.Release(Address(vm.home(k), off));
      assert table.Slots() == old(table.Slots());
    }

    method ReleaseOne(k: Key) returns (f: Fault)
      requires Sound() && Shape(View())
      modifies this, vm.Repr(), table.entries
      ensures Sound() && fresh(vm.Repr() - old(vm.Repr()))
      ensures (View(), f) == ReleaseToken(old(View()), k)
    {
      hide VirtualMedia.Valid, VirtualMedia.Views, WellFormed, Segment.Release, Table.Slots;
      var ok, e := table.Get(k);
      if !ok {
        return BadIndex;
      }
      if !IsValid(e) {
        return NoFault;
      }
      f := ReleaseValid(k, EntryOffset(e));
    }

    /** A token with a slot: the slot is cleared first, then its unit is given back. */
    method ReleaseValid(k: Key, off: nat) returns (f: Fault)
      requires Sound() && Shape(View()) && k in View().slots && off == View().slots[k]
      modifies this, vm.Repr(), table.entries
      ensures Sound() && fresh(vm.Repr() - old(vm.Repr()))
      ensures (View(), f) == ReleaseToken(old(View()), k)
    {
      hide VirtualMedia.Valid, VirtualMedia.Views, WellFormed, Segment.Release, Table.Slots;
      Forget(k);
      ViewShape();
      var out := GiveBack(k, off);
      f := if out.Ok? then NoFault else BadGive;
    }

    /** release: each token in turn; an index out of range ends it. */
    method Release(layer: nat, ts: seq<nat>) returns (ok: bool)
      requires Sound() && Shape(View())
      modifies this, vm.Repr(), table.entries
      ensures Sound() && fresh(vm.Repr() - old(vm.Repr()))
      ensures View() == ReleaseAll(old(View()), layer, ts).0
      ensures ok <==> ReleaseAll(old(View()), layer, ts).1 == |ts|
    {
      hide VirtualMedia.Valid, VirtualMedia.Views, ReleaseToken, Shape, Table.Slots;
      ghost var start := View();
      assert ts[0..] == ts;
      for i := 0 to |ts|
        invariant Sound() && Shape(View()) && fresh(vm.Repr() - old(vm.Repr()))
        invariant ReleaseAll(start, layer, ts).0 == ReleaseAll(View(), layer, ts[i..]).0
        invariant ReleaseAll(start, layer, ts).1 == i + ReleaseAll(View(), layer, ts[i..]).1
      {
        assert ts[i..][0] == ts[i] && ts[i..][1..] == ts[i + 1..];
        var f := ReleaseOne(Key(layer, ts[i]));
        ViewShape();
        if f != NoFault {
          return false;
        }
      }
      return true;
    }

    // ---------- fetch and prefetch ----------

    /** The reads a fetch still needs: their positions and addresses; positions with a copy are filled in at once. */
    method Lookup(layer: nat, ts: seq<nat>, es: seq<nat>, ghost st: Store)
      returns (ok: bool, out: seq<Data>, where: seq<nat>, items: seq<Address>)
      requires Sound() && st == View() && Readable(st) && |es| == |ts|
      requires forall i :: 0 <= i < |ts| ==> Described(st, Key(layer, ts[i]), es[i])
      ensures ok <==> forall i :: 0 <= i < |ts| ==> Key(layer, ts[i]) in st.slots
      ensures ok ==> |out| == |ts| && |where| == |items|
      ensures ok ==> forall n :: 0 <= n < |items| ==> where[n] < |ts| && Addressable(st.devs, items[n])
      ensures ok ==> forall n :: 0 <= n < |items| ==>
        ReadAt(st.devs, items[n]) == FetchOne(st, Key(layer, ts[where[n]]))
      ensures ok ==> forall i :: 0 <= i < |ts| && i !in where ==> out[i] == FetchOne(st, Key(layer, ts[i]))
    {
      hide VirtualMedia.Valid, VirtualMedia.Views, Table.Slots, Shape, Addressable, ReadAt, IsValid, EntryOffset;
      out, where, items := [], [], [];
      for i := 0 to |ts|
        invariant |out| == i && |where| == |items|
        invariant forall j :: 0 <= j < i ==> Key(layer, ts[j]) in st.slots
        invariant forall n :: 0 <= n < |items| ==> where[n] < i && Addressable(st.devs, items[n])
        invariant forall n :: 0 <= n < |items| ==> ReadAt(st.devs, items[n]) == FetchOne(st, Key(layer, ts[where[n]]))
        invariant forall j :: 0 <= j < i && j !in where ==> out[j] == FetchOne(st, Key(layer, ts[j]))
      {
        var k := Key(layer, ts[i]);
        assert Described(st, k, es[i]);
        if !IsValid(es[i]) {
          return false, out, where, items;
        }
        if k in cache {
          out := out + [cache[k]];
        } else {
          out := out + [[]];
          where := where + [i];
          items := items + [Address(vm.home(k), EntryOffset(es[i]))];
        }
      }
      return true, out, where, items;
    }

    /** fetch: the requested units, from the cache or through one merged batch read. */
    method Fetch(layer: nat, ts: seq<nat>) returns (f: Fault, out: seq<Data>)
      requires Sound() && Readable(View())
      ensures f == NoFault <==> Fetchable(View(), layer, ts)
      ensures f == NoFault ==> out == FetchAll(View(), layer, ts)
    {
      hide VirtualMedia.Valid, VirtualMedia.Views, Table.Slots, Shape, IsValid, EntryOffset, ReadAt, FetchOne,
        Addressable;
      ghost var st := View();
      var got, es := table.Gather(layer, ts);
      if !got {
        return BadIndex, [];
      }
      var ok, units := FetchInRange(layer, ts, es, st);
      if !ok {
        return NotOffloaded, [];
      }
      return NoFault, units;
    }

    /** The units of tokens in range, or failure when one of them is not valid. */
    method FetchInRange(layer: nat, ts: seq<nat>, es: seq<nat>, ghost st: Store) returns (ok: bool, out: seq<Data>)
      requires Sound() && st == View() && Readable(st) && |es| == |ts|
      requires forall i :: 0 <= i < |ts| ==> Described(st, Key(layer, ts[i]), es[i])
      ensures ok <==> forall i :: 0 <= i < |ts| ==> Key(layer, ts[i]) in st.slots
      ensures ok ==> out == FetchAll(st, layer, ts)
    {
      hide VirtualMedia.Valid, VirtualMedia.Views, Table.Slots, Readable, Described, ReadAt, FetchOne, Addressable;
      var partial, where, items;
      ok, partial, where, items := Lookup(layer, ts, es, st);
      if !ok {
        return false, [];
      }
      var units := ReadUnits(items);
      out := Combine(partial, where, units, FetchAll(st, layer, ts));
    }

    /** Reads a batch of units into fresh buffers. */
    method ReadUnits(items: seq<Address>) returns (units: seq<Data>)
      requires Sound() && forall i :: 0 <= i < |items| ==> Addressable(vm.Views(), items[i])
      ensures |units| == |items| && forall i :: 0 <= i < |items| ==> units[i] == ReadAt(vm.Views(), items[i])
    {
      var outs := new seq<byte>[|items|](_ => Zeros(vm.unit));
      ghost var devs := vm.Views();
      var ok := vm.ReadBatch(items, outs);
      units := outs[..];
    }

    method SetCache(more: map<Key, Data>)
      requires Sound()
      modifies this
      ensures Sound() && vm.Repr() == old(vm.Repr())
      ensures View() == old(View()).(cache := old(View()).cache + more)
    {
      hide WellFormed, Table.Slots;
      cache := cache + more;
    }

    /** prefetch: fetch what is not cached yet, then keep copies. */
    method Prefetch(layer: nat, ts: seq<nat>)
      requires Sound() && Readable(View())
      modifies this
      ensures Sound() && View() == StoreRuns.Prefetch(old(View()), layer, ts)
    {
      hide VirtualMedia.Valid, VirtualMedia.Views, Table.Slots, StoreRuns.Prefetch, Readable;
      var more := NewCopies(layer, ts);
      SetCache(more);
    }

    /** The copies prefetch adds; none when a token cannot be fetched. */
    method NewCopies(layer: nat, ts: seq<nat>) returns (more: map<Key, Data>)
      requires Sound() && Readable(View())
      ensures StoreRuns.Prefetch(View(), layer, ts) == View().(cache := View().cache + more)
    {
      hide VirtualMedia.Valid, VirtualMedia.Views, Table.Slots, Addressable, FetchOne, StoreRuns.Prefetch, TokenKeys,
        Readable;
      ghost var st := View();
      var pending := NotCached(layer, ts, cache);
      assert st.cache + map[] == st.cache;
      if |pending| == 0 {
        NothingPending(st, layer, ts, pending);
        return map[];
      }
      var f, out := Fetch(layer, pending);
      if f != NoFault {
        NotFetched(st, layer, ts, pending);
        return map[];
      }
      more := Copies(layer, pending, out, st);
      PrefetchedMap(st, layer, ts, more);
    }

    // ---------- plan ----------

    method PutStaging(at: nat, data: Data)
      requires Sound() && at + |data| <= staging.Length
      modifies staging
      ensures Sound() && vm.Repr() == old(vm.Repr())
      ensures View() == old(View()).(staging := Splice(old(View()).staging, at, data))
    {
      hide WellFormed, Table.Slots;
      forall i | 0 <= i < |data| {
        staging[at + i] := data[i];
      }
      assert staging[..] == Splice(old(staging[..]), at, data);
    }

    method PutDesc(at: nat, data: Data)
      requires Sound() && at + |data| <= desc.Length
      modifies desc
      ensures Sound() && vm.Repr() == old(vm.Repr())
      ensures View() == old(View()).(desc := Splice(old(View()).desc, at, data))
    {
      hide WellFormed, Table.Slots;
      forall i | 0 <= i < |data| {
        desc[at + i] := data[i];
      }
      assert desc[..] == Splice(old(desc[..]), at, data);
    }

    /** Copies a unit that is still buffered to its place in staging, and says how the operator gets it. */
    method StageUnit(k: Key, off: nat, i: nat) returns (flags: nat)
      requires Sound() && Readable(View()) && k in View().slots && off == View().slots[k] && i < maxTopk
      modifies staging
      ensures Sound() && vm.Repr() == old(vm.Repr())
      ensures View() == StageOne(old(View()), k, i)
      ensures flags == if Buffered(old(View()), k) then D.FLAG_HOST_READY else D.FLAG_DISK
    {
      hide VirtualMedia.Valid, VirtualMedia.Views, Table.Slots, WellFormed, ReadAt, InBuffer, Buffered, Readable,
        StageOne, Contents, Addressable;
      StagedBytes(View(), k, i);
      var a, at := Address(vm.home(k), off), i * vm.unit;
      flags := D.FLAG_DISK;
      var buffered := vm.IsBuffered(a);
      if buffered {
        var found, data := vm.ReadBuffered(a);
        if found {
          PutStaging(at, data);
          flags := D.FLAG_HOST_READY;
        }
      }
    }

    /** One position of plan. */
    method PlanUnit(k: Key, off: nat, i: nat) returns (ok: bool)
      requires Sound() && Readable(View()) && k in View().slots && off == View().slots[k] && i < maxTopk
      modifies staging, desc
      ensures Sound() && vm.Repr() == old(vm.Repr())
      ensures ok <==> D.Packable(EntryFor(old(View()), k, i))
      ensures View() == if ok then PlanOne(old(View()), k, i) else StageOne(old(View()), k, i)
    {
      hide VirtualMedia.Valid, VirtualMedia.Views, Table.Slots, WellFormed, StageOne, D.Packable, D.Encode, Splice,
        Addressable, Contents;
      ghost var st := View();
      var flags := StageUnit(k, off, i);
      var e := D.Entry(vm.home(k), flags, base[vm.home(k)] + off, vm.unit, i * vm.unit);
      if !D.Packable(e) {
        return false;
      }
      PutDesc(D.EntryAt(i), D.Encode(e));
      return true;
    }

    /** plan: writes a descriptor for each token, in order, then the header. */
    method MakePlan(layer: nat, ts: seq<nat>) returns (f: Fault)
      requires Sound() && Readable(View())
      modifies staging, desc
      ensures Sound()
      ensures (View(), f) == Plan.MakePlan(old(View()), layer, ts)
    {
      hide VirtualMedia.Valid, VirtualMedia.Views, Table.Slots, WellFormed, StageOne, PlanOne, D.Packable, Addressable,
        Contents, IsValid, EntryOffset;
      if |ts| > maxTopk {
        return TooMany;
      }
      ghost var start := View();
      var got, es := table.Gather(layer, ts);
      if !got {
        return BadIndex;
      }
      for i := 0 to |ts|
        invariant Sound() && Readable(View()) && SameData(start, View())
        invariant PlanFrom(start, layer, ts, 0) == PlanFrom(View(), layer, ts, i)
      {
        if !IsValid(es[i]) {
          return NotOffloaded;
        }
        var k := Key(layer, ts[i]);
        PlanOneSame(View(), k, i);
        var ok := PlanUnit(k, EntryOffset(es[i]), i);
        if !ok {
          return Unpackable;
        }
      }
      if |ts| < D.Range(4) && layer < D.Range(4) {
        PutDesc(0, D.Le(|ts|, 4) + D.Le(layer, 4) + D.Le(0, 8));
        return NoFault;
      }
      return Unpackable;
    }
  }

  lemma TokenKeysSnoc(layer: nat, ts: seq<nat>, t: nat)
    ensures TokenKeys(layer, ts + [t]) == TokenKeys(layer, ts) + {Key(layer, t)}
  {
    var all := ts + [t];
    assert all[|ts|] == t;
    forall k | k in TokenKeys(layer, ts)
      ensures k in TokenKeys(layer, all)
    {
      var i :| 0 <= i < |ts| && Key(layer, ts[i]) == k;
      assert Key(layer, all[i]) == k;
    }
    assert Key(layer, all[|ts|]) in TokenKeys(layer, all);
  }

  lemma NothingPending(st: Store, layer: nat, ts: seq<nat>, pending: seq<nat>)
    requires Readable(st) && pending == [] && TokenKeys(layer, pending) == Pending(st, layer, ts)
    ensures StoreRuns.Prefetch(st, layer, ts) == st
  {
    PrefetchedMap(st, layer, ts, map[]);
    assert st.cache + map[] == st.cache;
  }

  lemma FetchableIff(st: Store, layer: nat, ts: seq<nat>)
    requires Shape(st) && ts != []
    ensures Fetchable(st, layer, ts) <==> TokenKeys(layer, ts) <= st.slots.Keys
  {
    if TokenKeys(layer, ts) <= st.slots.Keys {
      forall i | 0 <= i < |ts|
        ensures InRange(st.p, Key(layer, ts[i])) && Key(layer, ts[i]) in st.slots
      {
        assert Key(layer, ts[i]) in TokenKeys(layer, ts);
      }
      assert InRange(st.p, Key(layer, ts[0]));
    }
  }

  lemma NotFetched(st: Store, layer: nat, ts: seq<nat>, pending: seq<nat>)
    requires Readable(st) && pending != [] && TokenKeys(layer, pending) == Pending(st, layer, ts)
    requires !Fetchable(st, layer, pending)
    ensures StoreRuns.Prefetch(st, layer, ts) == st
  {
    FetchableIff(st, layer, pending);
  }

  /** What staging a key takes: its bytes are one unit, read through the media layer, and fit their place. */
  lemma StagedBytes(st: Store, k: Key, i: nat)
    requires Readable(st) && k in st.slots && i < st.p.maxTopk
    ensures var a := Address(st.p.home(k), st.slots[k]);
      && a.device < |st.devs| && Addressable(st.devs, a) && |ReadAt(st.devs, a)| == st.p.unit
      && i * st.p.unit + st.p.unit <= |st.staging|
      && StageOne(st, k, i) ==
         (if InBuffer(st.devs[a.device], a.off)
          then st.(staging := Splice(st.staging, i * st.p.unit, ReadAt(st.devs, a))) else st)
      && (Buffered(st, k) <==> InBuffer(st.devs[a.device], a.off))
  {
    StagingSlot(st, i);
    assert Addressable(st.devs, Address(st.p.home(k), st.slots[k]));
  }

  lemma PrefetchedMap(st: Store, layer: nat, ts: seq<nat>, more: map<Key, Data>)
    requires Readable(st) && more.Keys == Pending(st, layer, ts)
    requires forall k :: k in more ==> k in st.slots && more[k] == FetchOne(st, k)
    ensures StoreRuns.Prefetch(st, layer, ts) == st.(cache := st.cache + more)
  {
    assert more == map k | k in Pending(st, layer, ts) :: FetchOne(st, k);
  }
}
