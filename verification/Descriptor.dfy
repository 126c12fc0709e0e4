/**
  The descriptor buffer shared with the direct-read operator (bmpclient/sparse_kv/store.py): a 16-byte header
  followed by 32-byte little-endian entries.
 */
module Descriptor {
  import opened Bytes

  /** 256 to the power w: the numbers that fit in w bytes. */
  function Range(w: nat): (r: nat)
    ensures 0 < r
  {
    if w == 0 then 1 else 256 * Range(w - 1)
  }

  lemma RangeIs()
    ensures Range(4) == 0x1_0000_0000 && Range(8) == 0x1_0000_0000_0000_0000
  {
    assert Range(4) == 256 * (256 * (256 * (256 * Range(0))));
    assert Range(8) == 256 * (256 * (256 * (256 * Range(4))));
  }

  /** n in w bytes, least significant first. */
  function Le(n: nat, w: nat): (s: seq<byte>)
    ensures |s| == w
  {
    if w == 0 then [] else [n % 256] + Le(n / 256, w - 1)
  }

  function UnLe(s: seq<byte>): nat {
    if s == [] then 0 else s[0] + 256 * UnLe(s[1..])
  }

  lemma {:induction false} LeRoundTrip(n: nat, w: nat)
    requires n < Range(w)
    ensures UnLe(Le(n, w)) == n
  {
    if w > 0 {
      LeRoundTrip(n / 256, w - 1);
      assert Le(n, w)[1..] == Le(n / 256, w - 1);
    }
  }

  const HEADER_SIZE := 16
  const ENTRY_SIZE := 32
  const FLAG_DISK := 0
  const FLAG_HOST_READY := 1

  datatype Entry = Entry(ssd: nat, flags: nat, lba: nat, length: nat, dst: nat)

  /** The values the struct format can hold; packing anything else raises. */
  predicate Packable(e: Entry) {
    e.ssd < Range(4) && e.flags < Range(4) && e.lba < Range(8) && e.length < Range(8) && e.dst < Range(8)
  }

  function Encode(e: Entry): (s: seq<byte>)
    ensures |s| == ENTRY_SIZE
  {
    Le(e.ssd, 4) + Le(e.flags, 4) + Le(e.lba, 8) + Le(e.length, 8) + Le(e.dst, 8)
  }

  function Decode(s: seq<byte>): Entry
    requires |s| == ENTRY_SIZE
  {
    Entry(UnLe(s[0..4]), UnLe(s[4..8]), UnLe(s[8..16]), UnLe(s[16..24]), UnLe(s[24..32]))
  }

  lemma EntryRoundTrip(e: Entry)
    requires Packable(e)
    ensures Decode(Encode(e)) == e
  {
    var s := Encode(e);
    assert s[0..4] == Le(e.ssd, 4);
    assert s[4..8] == Le(e.flags, 4);
    assert s[8..16] == Le(e.lba, 8);
    assert s[16..24] == Le(e.length, 8);
    assert s[24..32] == Le(e.dst, 8);
    LeRoundTrip(e.ssd, 4);
    LeRoundTrip(e.flags, 4);
    LeRoundTrip(e.lba, 8);
    LeRoundTrip(e.length, 8);
    LeRoundTrip(e.dst, 8);
  }

  function EntryAt(i: nat): nat {
    HEADER_SIZE + i * ENTRY_SIZE
  }

  /** Room for n entries. */
  predicate Holds(buf: seq<byte>, n: nat) {
    |buf| == HEADER_SIZE + ENTRY_SIZE * n
  }

  function PutEntry(buf: seq<byte>, n: nat, i: nat, e: Entry): (r: seq<byte>)
    requires Holds(buf, n) && i < n
    ensures Holds(r, n)
  {
    Splice(buf, EntryAt(i), Encode(e))
  }

  /** PlanView.entry. */
  function GetEntry(buf: seq<byte>, n: nat, i: nat): Entry
    requires Holds(buf, n) && i < n
  {
    Decode(buf[EntryAt(i)..EntryAt(i) + ENTRY_SIZE])
  }

  function PutHeader(buf: seq<byte>, n: nat, count: nat, layer: nat): (r: seq<byte>)
    requires Holds(buf, n)
    ensures Holds(r, n)
  {
    Splice(buf, 0, Le(count, 4) + Le(layer, 4) + Le(0, 8))
  }

  /** Writing entry i is seen by entry(i) and by no other entry. */
  lemma GetPut(buf: seq<byte>, n: nat, i: nat, e: Entry, j: nat)
    requires Holds(buf, n) && i < n && j < n && Packable(e)
    ensures GetEntry(PutEntry(buf, n, i, e), n, j) == if i == j then e else GetEntry(buf, n, j)
  {
    if i == j {
      SpliceInside(buf, EntryAt(i), Encode(e), EntryAt(j), ENTRY_SIZE);
      assert Encode(e)[0..ENTRY_SIZE] == Encode(e);
      EntryRoundTrip(e);
    } else {
      SpliceOutside(buf, EntryAt(i), Encode(e), EntryAt(j), ENTRY_SIZE);
    }
  }

  lemma GetPutHeader(buf: seq<byte>, n: nat, count: nat, layer: nat, j: nat)
    requires Holds(buf, n) && j < n
    ensures GetEntry(PutHeader(buf, n, count, layer), n, j) == GetEntry(buf, n, j)
  {
    SpliceOutside(buf, 0, Le(count, 4) + Le(layer, 4) + Le(0, 8), EntryAt(j), ENTRY_SIZE);
  }

  /** The header carries the number of entries and the layer. */
  lemma HeaderRoundTrip(buf: seq<byte>, n: nat, count: nat, layer: nat)
    requires Holds(buf, n) && count < Range(4) && layer < Range(4)
    ensures UnLe(PutHeader(buf, n, count, layer)[0..4]) == count
    ensures UnLe(PutHeader(buf, n, count, layer)[4..8]) == layer
  {
    var h := PutHeader(buf, n, count, layer);
    assert h[0..4] == Le(count, 4);
    assert h[4..8] == Le(layer, 4);
    LeRoundTrip(count, 4);
    LeRoundTrip(layer, 4);
  }
}
