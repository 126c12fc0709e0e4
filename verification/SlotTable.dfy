/** Packed slot table (bmpclient/sparse_kv/slot_table.py): one 64-bit entry per layer and token. */
module SlotTable {
  import opened Arith
  import opened Placement

  const FLAG_VALID := 1
  const OFFSET_SHIFT := 0x1_0000          // flags and reserved byte
  const MAX_OFFSET := 0x1_0000_0000_0000  // 2^48
  const MAX_FLAGS := 0x100

  datatype Packed = Entry(bits: nat) | BadEntry

  /** pack_entry; shifting left by 16 and or-ing the flag byte in. */
  function Pack(offset: nat, flags: nat): (r: Packed)
    ensures r.Entry? <==> offset < 0x1_0000_0000_0000 && flags < 0x100
    ensures r.Entry? ==> r.bits < 0x1_0000_0000_0000_0000
  {
    if offset >= MAX_OFFSET || flags >= MAX_FLAGS then BadEntry else Entry(offset * OFFSET_SHIFT + flags)
  }

  function EntryOffset(e: nat): nat {
    e / OFFSET_SHIFT
  }

  function EntryFlags(e: nat): nat {
    e % 0x100
  }

  /** The flags are the low byte, the offset stands above the low sixteen bits, and both unpack to what went in. */
  lemma PackRoundTrip(offset: nat, flags: nat)
    requires Pack(offset, flags).Entry?
    ensures Pack(offset, flags).bits == offset * 0x1_0000 + flags
    ensures EntryOffset(Pack(offset, flags).bits) == offset
    ensures EntryFlags(Pack(offset, flags).bits) == flags
  {
    DivUnique(offset, flags, OFFSET_SHIFT);
    DivUnique(offset * 0x100, flags, 0x100);
  }

  /** entry_flags(e) & FLAG_VALID. */
  predicate IsValid(e: nat) {
    EntryFlags(e) % 2 == 1
  }

  class Table {
    const layers: nat
    const tokens: nat
    const entries: array2<nat>

    ghost predicate Shape()
    {
      entries.Length0 == layers && entries.Length1 == tokens
    }

    predicate InRange(k: Key) {
      k.layer < layers && k.token < tokens
    }

    /** The keys with a valid entry and the offsets they stand for. */
    ghost function Slots(): (m: map<Key, nat>)
      requires Shape()
      reads entries
      ensures forall k :: k in m <==> InRange(k) && IsValid(entries[k.layer, k.token])
      ensures forall k :: k in m ==> InRange(k) && m[k] == EntryOffset(entries[k.layer, k.token])
    {
      map l: nat, t: nat | l < layers && t < tokens && IsValid(entries[l, t]) :: Key(l, t) := EntryOffset(entries[l, t])
    }

    constructor (layers: nat, tokens: nat)
      requires 0 < layers && 0 < tokens
      ensures Shape() && this.layers == layers && this.tokens == tokens && Slots() == map[]
      ensures fresh(entries)
    {
      this.layers := layers;
      this.tokens := tokens;
      entries := new nat[layers, tokens]((i, j) => 0);
    }

    /** set with the VALID flag; fails, changing nothing, when the key or the offset is out of range. */
    method Set(k: Key, offset: nat) returns (ok: bool)
      requires Shape()
      modifies entries
      ensures ok <==> k.layer < layers && k.token < tokens && offset < 0x1_0000_0000_0000
      ensures ok ==> entries[k.layer, k.token] == offset * 0x1_0000 + 1
      ensures Slots() == if ok then old(Slots())[k := offset] else old(Slots())
    {
      var p := Pack(offset, FLAG_VALID);
      if !InRange(k) || p.BadEntry? {
        return false;
      }
      PackRoundTrip(offset, FLAG_VALID);
      entries[k.layer, k.token] := p.bits;
      return true;
    }

    method Invalidate(k: Key) returns (ok: bool)
      requires Shape()
      modifies entries
      ensures ok <==> InRange(k)
      ensures Slots() == old(Slots()) - {k}
    {
      if !InRange(k) {
        return false;
      }
      entries[k.layer, k.token] := 0;
      assert !IsValid(0);
      ghost var before, after := old(Slots()) - {k}, Slots();
      assert forall q :: q in after <==> q in before;
      assert forall q :: q in after ==> after[q] == before[q];
      return true;
    }

    method Get(k: Key) returns (ok: bool, e: nat)
      requires Shape()
      ensures ok <==> InRange(k)
      ensures ok ==> (IsValid(e) <==> k in Slots()) && (k in Slots() ==> EntryOffset(e) == Slots()[k])
    {
      if !InRange(k) {
        return false, 0;
      }
      return true, entries[k.layer, k.token];
    }

    /** gather: the entries of one layer's tokens; fails on any index out of range. */
    method Gather(layer: nat, ts: seq<nat>) returns (ok: bool, es: seq<nat>)
      requires Shape()
      ensures ok <==> layer < layers && forall i :: 0 <= i < |ts| ==> ts[i] < tokens
      ensures ok ==> |es| == |ts| && forall i :: 0 <= i < |ts| ==>
        (IsValid(es[i]) <==> Key(layer, ts[i]) in Slots()) &&
        (Key(layer, ts[i]) in Slots() ==> EntryOffset(es[i]) == Slots()[Key(layer, ts[i])])
    {
      es := [];
      if layer >= layers {
        return false, es;
      }
      for i := 0 to |ts|
        invariant |es| == i
        invariant forall j :: 0 <= j < i ==> ts[j] < tokens && es[j] == entries[layer, ts[j]]
      {
        if ts[i] >= tokens {
          return false, es;
        }
        es := es + [entries[layer, ts[i]]];
      }
      return true, es;
    }
  }
}
