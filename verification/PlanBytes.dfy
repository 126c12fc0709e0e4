/**
  The descriptor buffer byte by byte, as the direct-read operator finds it: a 16-byte header (count, layer, zero) and
  32-byte entries (device, flags, address, length, destination), all little-endian.
 */
module PlanBytes {
  import opened Bytes
  import opened Placement
  import Segment
  import opened Media
  import opened KVStore
  import opened Plan
  import D = Descriptor
  import Arith

  /** A 32-bit number, least significant byte first. */
  function Bytes4(x: nat): (r: Data)
    ensures |r| == 4
  {
    [x % 0x100, x / 0x100 % 0x100, x / 0x1_0000 % 0x100, x / 0x100_0000 % 0x100]
  }

  /** A 64-bit number: its low half, then its high half. */
  function Bytes8(x: nat): (r: Data)
    ensures |r| == 8
  {
    Bytes4(x) + Bytes4(x / 0x1_0000_0000)
  }

  lemma Le2(x: nat, w: nat)
    ensures D.Le(x, w + 2) == [x % 0x100, x / 0x100 % 0x100] + D.Le(x / 0x1_0000, w)
  {
    assert D.Le(x, w + 2) == [x % 256] + D.Le(x / 256, w + 1);
    assert D.Le(x / 256, w + 1) == [x / 256 % 256] + D.Le(x / 256 / 256, w);
    assert x / 256 / 256 == x / 0x1_0000;
  }

  lemma Le4(x: nat, w: nat)
    ensures D.Le(x, w + 4) == Bytes4(x) + D.Le(x / 0x1_0000_0000, w)
  {
    hide D.Le;
    Le2(x, w + 2);
    Le2(x / 0x1_0000, w);
    assert x / 0x1_0000 / 0x100 == x / 0x100_0000;
    assert x / 0x1_0000 / 0x1_0000 == x / 0x1_0000_0000;
  }

  lemma LeIs(x: nat)
    ensures D.Le(x, 4) == Bytes4(x) && D.Le(x, 8) == Bytes8(x)
  {
    hide Bytes4;
    Le4(x, 0);
    Le4(x, 4);
    Le4(x / 0x1_0000_0000, 0);
  }

  /** The 32 bytes at a position: device, flag word, address on the device, length, destination. */
  ghost predicate Fields(desc: Data, at: nat, ssd: nat, staged: bool, lba: nat, length: nat, dst: nat) {
    && at + 32 <= |desc|
    && desc[at..at + 4] == Bytes4(ssd)
    && desc[at + 4..at + 8] == (if staged then [1, 0, 0, 0] else [0, 0, 0, 0])
    && desc[at + 8..at + 16] == Bytes8(lba)
    && desc[at + 16..at + 24] == Bytes8(length)
    && desc[at + 24..at + 32] == Bytes8(dst)
  }

  /** Entry i of the buffer describes key k; its flag word says whether the unit is still in a segment buffer. */
  ghost predicate EntryBytes(st: Store, desc: Data, k: Key, i: nat)
    requires Shape(st)
  {
    && k in st.slots
    && Fields(desc, 16 + 32 * i, st.p.home(k), Buffered(st, k), st.p.base[st.p.home(k)] + st.slots[k], st.p.unit,
              i * st.p.unit)
  }

  ghost predicate HeaderBytes(desc: Data, count: nat, layer: nat) {
    && 16 <= |desc|
    && desc[0..4] == Bytes4(count) && desc[4..8] == Bytes4(layer)
    && desc[8..16] == [0, 0, 0, 0, 0, 0, 0, 0]
  }

  /** The five fields of a packed entry stand at their places. */
  lemma EncodedFields(e: D.Entry)
    ensures var s := D.Encode(e);
      && s[0..4] == Bytes4(e.ssd) && s[4..8] == Bytes4(e.flags) && s[8..16] == Bytes8(e.lba)
      && s[16..24] == Bytes8(e.length) && s[24..32] == Bytes8(e.dst)
  {
    hide D.Le, Bytes4, Bytes8;
    LeIs(e.ssd);
    LeIs(e.flags);
    LeIs(e.lba);
    LeIs(e.length);
    LeIs(e.dst);
  }

  /** Field reads inside a 32-byte window only see that window. */
  lemma Window(desc: Data, at: nat, s: Data, from: nat, to: nat)
    requires at + 32 <= |desc| && s == desc[at..at + 32] && from <= to <= 32
    ensures desc[at + from..at + to] == s[from..to]
  {
    assert forall x :: from <= x < to ==> s[x] == desc[at + x];
  }

  lemma Windows(desc: Data, at: nat, s: Data)
    requires at + 32 <= |desc| && s == desc[at..at + 32]
    ensures desc[at..at + 4] == s[0..4] && desc[at + 4..at + 8] == s[4..8] && desc[at + 8..at + 16] == s[8..16]
    ensures desc[at + 16..at + 24] == s[16..24] && desc[at + 24..at + 32] == s[24..32]
  {
    Window(desc, at, s, 0, 4);
    Window(desc, at, s, 4, 8);
    Window(desc, at, s, 8, 16);
    Window(desc, at, s, 16, 24);
    Window(desc, at, s, 24, 32);
  }

  /** Planning position i writes the bytes of its entry. */
  lemma PlannedHere(st: Store, k: Key, i: nat)
    requires Readable(st) && k in st.slots && i < st.p.maxTopk
    ensures EntryBytes(st, PlanOne(st, k, i).desc, k, i)
  {
    hide D.Encode, Bytes8, Bytes4, Contents, Addressable, Buffered;
    var e, desc := EntryFor(st, k, i), PlanOne(st, k, i).desc;
    var at := 16 + 32 * i;
    SpliceInside(st.desc, at, D.Encode(e), at, 32);
    assert D.Encode(e)[0..32] == D.Encode(e);
    Windows(desc, at, D.Encode(e));
    EncodedFields(e);
    FlagWord(e.flags);
  }

  lemma FlagWord(flags: nat)
    ensures flags == 0 ==> Bytes4(flags) == [0, 0, 0, 0]
    ensures flags == 1 ==> Bytes4(flags) == [1, 0, 0, 0]
  {
  }

  /** A change of the buffer outside an entry leaves the entry's bytes. */
  lemma EntryKept(st: Store, was: Data, now: Data, k: Key, j: nat)
    requires Shape(st) && EntryBytes(st, was, k, j) && |now| == |was|
    requires now[16 + 32 * j..16 + 32 * j + 32] == was[16 + 32 * j..16 + 32 * j + 32]
    ensures EntryBytes(st, now, k, j)
  {
    hide Bytes4, Bytes8, Buffered;
    var at := 16 + 32 * j;
    Windows(was, at, was[at..at + 32]);
    Windows(now, at, was[at..at + 32]);
  }

  lemma PlannedOther(st: Store, k: Key, i: nat, q: Key, j: nat)
    requires Readable(st) && k in st.slots && j < i < st.p.maxTopk && EntryBytes(st, st.desc, q, j)
    ensures EntryBytes(st, PlanOne(st, k, i).desc, q, j)
  {
    hide EntryBytes, D.Encode, Contents, Addressable;
    SpliceOutside(st.desc, 16 + 32 * i, D.Encode(EntryFor(st, k, i)), 16 + 32 * j, 32);
    EntryKept(st, st.desc, PlanOne(st, k, i).desc, q, j);
  }

  /** The header is written last and does not reach into the entries. */
  lemma HeaderHere(st: Store, count: nat, layer: nat)
    requires Shape(st)
    ensures HeaderBytes(D.PutHeader(st.desc, st.p.maxTopk, count, layer), count, layer)
  {
    hide D.Le, Bytes4, Bytes8;
    var h := D.Le(count, 4) + D.Le(layer, 4) + D.Le(0, 8);
    LeIs(count);
    LeIs(layer);
    LeIs(0);
    ZeroWord();
    SpliceInside(st.desc, 0, h, 0, 4);
    SpliceInside(st.desc, 0, h, 4, 4);
    SpliceInside(st.desc, 0, h, 8, 8);
  }

  lemma ZeroWord()
    ensures Bytes8(0) == [0, 0, 0, 0, 0, 0, 0, 0]
  {
  }

  lemma HeaderOther(st: Store, count: nat, layer: nat, q: Key, j: nat)
    requires Shape(st) && EntryBytes(st, st.desc, q, j)
    ensures EntryBytes(st, D.PutHeader(st.desc, st.p.maxTopk, count, layer), q, j)
  {
    hide EntryBytes, D.Le;
    assert 16 + 32 * j + 32 <= |st.desc| by {
      EntryInside(st, st.desc, q, j);
    }
    SpliceOutside(st.desc, 0, D.Le(count, 4) + D.Le(layer, 4) + D.Le(0, 8), 16 + 32 * j, 32);
    EntryKept(st, st.desc, D.PutHeader(st.desc, st.p.maxTopk, count, layer), q, j);
  }

  lemma EntryInside(st: Store, desc: Data, q: Key, j: nat)
    requires Shape(st) && EntryBytes(st, desc, q, j)
    ensures 16 + 32 * j + 32 <= |desc|
  {
  }

  lemma SameEntry(st: Store, e: Store, desc: Data, k: Key, i: nat)
    requires Shape(st) && Shape(e) && SameData(st, e)
    ensures EntryBytes(e, desc, k, i) <==> EntryBytes(st, desc, k, i)
  {
  }

  /** The first n entries of the buffer describe the first n requested tokens. */
  ghost predicate EntriesUpTo(st: Store, desc: Data, layer: nat, ts: seq<nat>, n: nat)
    requires Shape(st) && n <= |ts|
  {
    forall j :: 0 <= j < n ==> EntryBytes(st, desc, Key(layer, ts[j]), j)
  }

  lemma {:induction false} PlanFromBytes(st: Store, layer: nat, ts: seq<nat>, i: nat)
    requires Readable(st) && i <= |ts| <= st.p.maxTopk && EntriesUpTo(st, st.desc, layer, ts, i)
    requires PlanFrom(st, layer, ts, i).1 == NoFault
    ensures var e := PlanFrom(st, layer, ts, i).0;
      EntriesUpTo(st, e.desc, layer, ts, |ts|) && HeaderBytes(e.desc, |ts|, layer)
    decreases |ts| - i
  {
    hide Segment.WellFormed, EntryBytes, HeaderBytes, PlanOne, StageOne, Contents, D.Packable, D.PutHeader;
    if i == |ts| {
      HeaderHere(st, |ts|, layer);
      forall j | 0 <= j < |ts|
        ensures EntryBytes(st, D.PutHeader(st.desc, st.p.maxTopk, |ts|, layer), Key(layer, ts[j]), j)
      {
        HeaderOther(st, |ts|, layer, Key(layer, ts[j]), j);
      }
    } else {
      var k := Key(layer, ts[i]);
      var next := PlanOne(st, k, i);
      PlanOneSame(st, k, i);
      PlannedHere(st, k, i);
      forall j | 0 <= j < i
        ensures EntryBytes(st, next.desc, Key(layer, ts[j]), j)
      {
        PlannedOther(st, k, i, Key(layer, ts[j]), j);
      }
      assert EntriesUpTo(st, next.desc, layer, ts, i + 1);
      EntriesSame(st, next, next.desc, layer, ts, i + 1);
      PlanFromBytes(next, layer, ts, i + 1);
      EntriesSame(st, next, PlanFrom(next, layer, ts, i + 1).0.desc, layer, ts, |ts|);
    }
  }

  lemma EntriesSame(st: Store, e: Store, desc: Data, layer: nat, ts: seq<nat>, n: nat)
    requires Shape(st) && Shape(e) && SameData(st, e) && n <= |ts|
    ensures EntriesUpTo(e, desc, layer, ts, n) <==> EntriesUpTo(st, desc, layer, ts, n)
  {
    hide EntryBytes;
    forall j | 0 <= j < n
      ensures EntryBytes(e, desc, Key(layer, ts[j]), j) <==> EntryBytes(st, desc, Key(layer, ts[j]), j)
    {
      SameEntry(st, e, desc, Key(layer, ts[j]), j);
    }
  }

  /**
    The bytes a successful plan leaves for the operator. The flag word is 1 exactly for a unit still in a segment
    buffer, whose bytes then stand in staging, and 0 for a unit to be read from its device.
   */
  lemma PlanWrites(st: Store, layer: nat, ts: seq<nat>)
    requires Readable(st) && MakePlan(st, layer, ts).1 == NoFault
    ensures var e := MakePlan(st, layer, ts).0;
      && (forall i :: 0 <= i < |ts| ==> EntryBytes(st, e.desc, Key(layer, ts[i]), i))
      && HeaderBytes(e.desc, |ts|, layer)
  {
    hide Addressable, EntryBytes, HeaderBytes, PlanFrom;
    PlanFromBytes(st, layer, ts, 0);
  }
}
