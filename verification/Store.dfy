/**
  The sparse KV store (bmpclient/sparse_kv/store.py) as a value: devices, slot table, prefetch cache, descriptor
  buffer and staging area. Its meaning is a plain map from (layer, token) to bytes.
 */
module KVStore {
  import opened Bytes
  import opened Placement
  import opened Segment
  import opened SlotTable
  import opened Media
  import D = Descriptor
  import Arith

  type Data = seq<byte>

  /** home is the placement strategy; base[d] is the storage-side address of device d's extent. */
  datatype Params = Params(home: Key -> nat, devices: nat, layers: nat, tokens: nat, unit: nat, maxTopk: nat,
                           base: seq<nat>)

  datatype Store = Store(p: Params, devs: seq<Device>, slots: map<Key, nat>, cache: map<Key, Data>, desc: Data,
                         staging: Data)

  predicate InRange(p: Params, k: Key) {
    k.layer < p.layers && k.token < p.tokens
  }

  /** A strategy only names existing devices. */
  ghost predicate PlacesKeys(p: Params) {
    forall k :: p.home(k) < p.devices
  }

  ghost predicate Shape(st: Store) {
    && PlacesKeys(st.p)
    && |st.devs| == |st.p.base| == st.p.devices
    && WellFormedAll(st.devs, st.p.unit)
    && (forall k :: k in st.slots ==> InRange(st.p, k))
    && D.Holds(st.desc, st.p.maxTopk)
    && |st.staging| == st.p.maxTopk * st.p.unit
  }

  ghost predicate Readable(st: Store) {
    Shape(st) && forall k :: k in st.slots ==> Addressable(st.devs, Address(st.p.home(k), st.slots[k]))
  }

  /** The map the store stands for: every valid key and the unit its slot leads to. */
  ghost function Contents(st: Store): map<Key, Data>
    requires Readable(st)
  {
    map k | k in st.slots :: ReadAt(st.devs, Address(st.p.home(k), st.slots[k]))
  }

  // ---------- operations ----------

  datatype Fault = NoFault | Full | BadWrite | BadIndex | NotOffloaded | TooMany | Unpackable | BadGive

  /** One token of offload: append on the key's device, then record the offset. */
  function WriteToken(st: Store, k: Key, data: Data): (r: (Store, Fault))
    requires Shape(st) && InRange(st.p, k)
  {
    var (x, out) := Append(st.devs[st.p.home(k)], data);
    Recorded(st, k, x, out)
  }

  /** The store once a key's device has taken the unit, or refused it. */
  function Recorded(st: Store, k: Key, x: Device, out: Outcome<nat>): (r: (Store, Fault))
    requires PlacesKeys(st.p) && |st.devs| == st.p.devices
  {
    var next := st.(devs := st.devs[st.p.home(k) := x]);
    match out
    case Ok(off) =>
      if off < MAX_OFFSET then (next.(slots := st.slots[k := off]), NoFault) else (next, BadWrite)
    case Err(SegmentFull) => (next, Full)
    case Err(_) => (next, BadWrite)
  }

  datatype Write = Write(key: Key, data: Data)

  ghost predicate WritesOk(p: Params, ws: seq<Write>) {
    forall i :: 0 <= i < |ws| ==> InRange(p, ws[i].key) && |ws[i].data| == p.unit
  }

  ghost function FlushAll(devs: seq<Device>): (r: seq<Device>)
    requires forall d :: 0 <= d < |devs| ==> WellFormed(devs[d])
    ensures |r| == |devs| && forall d :: 0 <= d < |devs| ==> r[d] == Flush(devs[d])
  {
    seq(|devs|, d requires 0 <= d < |devs| => Flush(devs[d]))
  }

  /** What fetch returns for one token: the prefetched copy, or the unit read through the media layer. */
  ghost function FetchOne(st: Store, k: Key): Data
    requires Readable(st) && k in st.slots
  {
    if k in st.cache then st.cache[k] else ReadAt(st.devs, Address(st.p.home(k), st.slots[k]))
  }

  /** fetch succeeds exactly on in-range, valid tokens. */
  ghost predicate Fetchable(st: Store, layer: nat, ts: seq<nat>) {
    layer < st.p.layers && forall i :: 0 <= i < |ts| ==> ts[i] < st.p.tokens && Key(layer, ts[i]) in st.slots
  }

  /** release of one valid token. */
  function ReleaseToken(st: Store, k: Key): (r: (Store, Fault))
    requires Shape(st)
  {
    if !InRange(st.p, k) then (st, BadIndex)
    else if k !in st.slots then (st, NoFault)
    else
      var d := st.p.home(k);
      var (e, out) := Release(st.devs[d], st.slots[k]);
      (st.(devs := st.devs[d := e], slots := st.slots - {k}, cache := st.cache - {k}),
       if out.Ok? then NoFault else BadGive)
  }

  /** Whether a planned unit is still in its device's buffer. */
  predicate Buffered(st: Store, k: Key)
    requires PlacesKeys(st.p) && |st.devs| == st.p.devices && k in st.slots
    requires forall d :: 0 <= d < |st.devs| ==> 0 < st.devs[d].geo.sp
  {
    InBuffer(st.devs[st.p.home(k)], st.slots[k])
  }

  // ---------- the refinement relation ----------

  /** Per device, the units that count as live and their bytes. */
  type Live = seq<map<nat, Data>>

  ghost predicate DevicesOk(st: Store, live: Live) {
    && Shape(st) && |live| == |st.devs|
    && forall d :: 0 <= d < |live| ==> Segment.Inv(st.devs[d], live[d])
  }

  ghost predicate Sized(p: Params, live: Live) {
    PlacesKeys(p) && |live| == p.devices
  }

  /** Valid keys own distinct live units. */
  ghost predicate Owns(p: Params, slots: map<Key, nat>, live: Live)
    requires Sized(p, live)
  {
    && (forall k :: k in slots ==> slots[k] in live[p.home(k)])
    && (forall k, q :: k in slots && q in slots && k != q && p.home(k) == p.home(q) ==> slots[k] != slots[q])
  }

  /** The bytes of each valid key's live unit. */
  ghost function Meaning(p: Params, slots: map<Key, nat>, live: Live): map<Key, Data>
    requires Sized(p, live) && Owns(p, slots, live)
  {
    map k | k in slots :: live[p.home(k)][slots[k]]
  }

  /** No unit is leaked: every live unit belongs to a valid key. */
  ghost predicate Tight(p: Params, slots: map<Key, nat>, live: Live)
    requires Sized(p, live)
  {
    forall d, o :: 0 <= d < |live| && o in live[d] ==> exists k :: k in slots && p.home(k) == d && slots[k] == o
  }

  /** The prefetch cache holds true copies of valid keys. */
  ghost predicate Agrees(cache: map<Key, Data>, m: map<Key, Data>) {
    forall k :: k in cache ==> k in m && cache[k] == m[k]
  }

  ghost predicate StoreInv(st: Store, live: Live) {
    && DevicesOk(st, live)
    && Owns(st.p, st.slots, live)
    && Agrees(st.cache, Meaning(st.p, st.slots, live))
  }

  /** What the store means is what its live units hold. */
  lemma InvReads(st: Store, live: Live)
    requires DevicesOk(st, live) && Owns(st.p, st.slots, live)
    ensures Readable(st) && Contents(st) == Meaning(st.p, st.slots, live)
  {
    forall k | k in st.slots
      ensures Addressable(st.devs, Address(st.p.home(k), st.slots[k]))
      ensures ReadAt(st.devs, Address(st.p.home(k), st.slots[k])) == live[st.p.home(k)][st.slots[k]]
    {
      LiveReads(st, live, st.p.home(k), st.slots[k]);
    }
  }

  lemma LiveReads(st: Store, live: Live, d: nat, off: nat)
    requires DevicesOk(st, live) && d < |live| && off in live[d]
    ensures Addressable(st.devs, Address(d, off)) && ReadAt(st.devs, Address(d, off)) == live[d][off]
  {
    assert Segment.Inv(st.devs[d], live[d]);
    assert Written(st.devs[d], off);
  }

  ghost predicate Comparable(st: Store, e: Store) {
    && PlacesKeys(st.p) && |st.devs| == |e.devs| == st.p.devices && e.p == st.p
    && (forall d :: 0 <= d < |st.devs| ==> 0 < st.devs[d].geo.sp && e.devs[d].geo == st.devs[d].geo)
  }

  /** Keys outside touched keep their unit, and once it is on the device it stays there; nothing else is disturbed. */
  ghost predicate Undisturbed(st: Store, e: Store, touched: set<Key>)
  {
    && Comparable(st, e) && e.desc == st.desc && e.staging == st.staging
    && (forall k :: k in st.slots && k !in touched ==>
          && k in e.slots && e.slots[k] == st.slots[k]
          && (!Buffered(st, k) ==> !Buffered(e, k)))
  }

  lemma UndisturbedTrans(a: Store, b: Store, c: Store, s: set<Key>, t: set<Key>)
    requires Undisturbed(a, b, s) && Undisturbed(b, c, t)
    ensures Undisturbed(a, c, s + t)
  {
    assert forall k :: k in a.slots && k !in s + t ==> k !in s && k !in t;
  }

  // ---------- offload ----------

  /** The live units after an append. */
  ghost function Appended(live: Live, d: nat, out: Outcome<nat>, data: Data): Live
    requires d < |live|
  {
    if out.Ok? then
      var units: map<nat, Data> := live[d][out.value := data];
      live[d := units]
    else live
  }

  lemma AppendedDevices(st: Store, live: Live, d: nat, data: Data)
    requires DevicesOk(st, live) && d < |live|
    ensures var (x, out) := Append(st.devs[d], data);
      && DevicesOk(st.(devs := st.devs[d := x]), Appended(live, d, out, data))
      && x.geo == st.devs[d].geo && SettledStay(st.devs[d], x, live[d])
      && (out.Ok? ==> out.value !in live[d])
  {
    hide Segment.Inv, Append, SettledStay;
    AppendKeeps(st.devs[d], live[d], data);
    AppendShape(st.devs[d], data);
  }

  /** The slot table and the live units after a write, seen apart from the devices. */
  lemma OwnsWrite(p: Params, slots: map<Key, nat>, live: Live, k: Key, off: nat, data: Data)
    requires Sized(p, live) && Owns(p, slots, live) && off !in live[p.home(k)]
    ensures var after := Appended(live, p.home(k), Ok(off), data);
      && Owns(p, slots[k := off], after) && Meaning(p, slots[k := off], after) == Meaning(p, slots, live)[k := data]
      && Owns(p, slots, after) && Meaning(p, slots, after) == Meaning(p, slots, live)
  {
    var after := Appended(live, p.home(k), Ok(off), data);
    assert after[p.home(k)] == live[p.home(k)][off := data];
    forall q | q in slots
      ensures slots[q] in after[p.home(q)] && after[p.home(q)][slots[q]] == live[p.home(q)][slots[q]]
      ensures p.home(q) == p.home(k) ==> slots[q] != off
    {
    }
    hide Appended;
    assert Owns(p, slots, after);
  }

  lemma TightWrite(p: Params, slots: map<Key, nat>, live: Live, k: Key, off: nat, data: Data)
    requires Sized(p, live) && Tight(p, slots, live) && k !in slots
    ensures Tight(p, slots[k := off], Appended(live, p.home(k), Ok(off), data))
  {
    var after := Appended(live, p.home(k), Ok(off), data);
    forall c, o | 0 <= c < |after| && o in after[c]
      ensures exists q :: q in slots[k := off] && p.home(q) == c && slots[k := off][q] == o
    {
      if c == p.home(k) && o == off {
        assert slots[k := off][k] == o;
      } else {
        var q :| q in slots && p.home(q) == c && slots[q] == o;
        assert slots[k := off][q] == o;
      }
    }
  }

  /** A step of one device in which its settled live units stay disturbs no key but k. */
  lemma StepUndisturbed(st: Store, live: Live, e: Store, k: Key, x: Device)
    requires Sized(st.p, live) && Owns(st.p, st.slots, live) && Comparable(st, e)
    requires e.devs == st.devs[st.p.home(k) := x] && SettledStay(st.devs[st.p.home(k)], x, live[st.p.home(k)])
    requires e.desc == st.desc && e.staging == st.staging
    requires forall q :: q in st.slots && q != k ==> q in e.slots && e.slots[q] == st.slots[q]
    ensures Undisturbed(st, e, {k})
  {
  }

  /**
    Writing one token adds or replaces exactly that key when it succeeds and changes no key when it fails.
    The key must not have a prefetched copy: that copy would be served instead of the new bytes.
   */
  lemma WriteTokenKeeps(st: Store, live: Live, k: Key, data: Data) returns (after: Live)
    requires StoreInv(st, live) && InRange(st.p, k) && k !in st.cache
    ensures var (e, f) := WriteToken(st, k, data);
      && StoreInv(e, after) && Readable(st) && Readable(e) && Undisturbed(st, e, {k}) && e.cache == st.cache
      && Contents(e) == (if f == NoFault then Contents(st)[k := data] else Contents(st))
      && (Tight(st.p, st.slots, live) && k !in st.slots && f != BadWrite ==> Tight(e.p, e.slots, after))
  {
    hide Segment.Inv, Append, Contents, Meaning, Tight, Owns, SettledStay, Undisturbed;
    var d := st.p.home(k);
    var (x, out) := Append(st.devs[d], data);
    after := Appended(live, d, out, data);
    AppendedDevices(st, live, d, data);
    RecordedKeeps(st, live, k, x, out, data, after);
    RecordedUndisturbed(st, live, k, x, out);
  }

  lemma RecordedUndisturbed(st: Store, live: Live, k: Key, x: Device, out: Outcome<nat>)
    requires Shape(st) && Sized(st.p, live) && Owns(st.p, st.slots, live) && x.geo == st.devs[st.p.home(k)].geo
    requires SettledStay(st.devs[st.p.home(k)], x, live[st.p.home(k)])
    ensures Undisturbed(st, Recorded(st, k, x, out).0, {k})
  {
    StepUndisturbed(st, live, Recorded(st, k, x, out).0, k, x);
  }

  lemma RecordedKeeps(st: Store, live: Live, k: Key, x: Device, out: Outcome<nat>, data: Data, after: Live)
    requires StoreInv(st, live) && InRange(st.p, k) && k !in st.cache
    requires after == Appended(live, st.p.home(k), out, data)
    requires DevicesOk(st.(devs := st.devs[st.p.home(k) := x]), after)
    requires x.geo == st.devs[st.p.home(k)].geo && SettledStay(st.devs[st.p.home(k)], x, live[st.p.home(k)])
    requires out.Ok? ==> out.value !in live[st.p.home(k)]
    ensures var (e, f) := Recorded(st, k, x, out);
      && StoreInv(e, after) && Readable(st) && Readable(e) && e.cache == st.cache
      && Contents(e) == (if f == NoFault then Contents(st)[k := data] else Contents(st))
      && (Tight(st.p, st.slots, live) && k !in st.slots && f != BadWrite ==> Tight(e.p, e.slots, after))
  {
    hide Segment.Inv, Contents, Meaning, Tight, Owns;
    WriteOwns(st, live, k, x, out, data, after);
    RecordedDevices(st, k, x, out, after);
    InvReads(st, live);
    InvReads(Recorded(st, k, x, out).0, after);
  }

  lemma RecordedDevices(st: Store, k: Key, x: Device, out: Outcome<nat>, after: Live)
    requires Shape(st) && InRange(st.p, k) && DevicesOk(st.(devs := st.devs[st.p.home(k) := x]), after)
    ensures DevicesOk(Recorded(st, k, x, out).0, after)
  {
  }

  lemma WriteOwns(st: Store, live: Live, k: Key, x: Device, out: Outcome<nat>, data: Data, after: Live)
    requires Sized(st.p, live) && |st.devs| == |live| && Owns(st.p, st.slots, live)
    requires after == Appended(live, st.p.home(k), out, data) && (out.Ok? ==> out.value !in live[st.p.home(k)])
    ensures var (e, f) := Recorded(st, k, x, out);
      && Owns(e.p, e.slots, after)
      && Meaning(e.p, e.slots, after) ==
         (if f == NoFault then Meaning(st.p, st.slots, live)[k := data] else Meaning(st.p, st.slots, live))
      && (Tight(st.p, st.slots, live) && k !in st.slots && f != BadWrite ==> Tight(e.p, e.slots, after))
  {
    if out.Ok? {
      OwnsWrite(st.p, st.slots, live, k, out.value, data);
      if out.value < MAX_OFFSET {
        if Tight(st.p, st.slots, live) && k !in st.slots {
          TightWrite(st.p, st.slots, live, k, out.value, data);
        }
        assert Recorded(st, k, x, out) ==
          (st.(devs := st.devs[st.p.home(k) := x], slots := st.slots[k := out.value]), NoFault);
      } else {
        assert Recorded(st, k, x, out) == (st.(devs := st.devs[st.p.home(k) := x]), BadWrite);
      }
    } else {
      assert Recorded(st, k, x, out).0 == st.(devs := st.devs[st.p.home(k) := x]);
    }
  }

  /** offload, one token after another until one fails: the store reached and how many were written. */
  function WriteAll(st: Store, ws: seq<Write>): (r: (Store, nat))
    requires Shape(st) && WritesOk(st.p, ws)
    ensures r.1 <= |ws|
    decreases |ws|
  {
    if ws == [] then (st, 0)
    else
      var (e, f) := WriteToken(st, ws[0].key, ws[0].data);
      if f != NoFault then (e, 0)
      else
        WriteTokenShape(st, ws[0].key, ws[0].data);
        var (last, n) := WriteAll(e, ws[1..]);
        (last, n + 1)
  }

  lemma WriteTokenShape(st: Store, k: Key, data: Data)
    requires Shape(st) && InRange(st.p, k)
    ensures Shape(WriteToken(st, k, data).0) && WriteToken(st, k, data).0.p == st.p
  {
    AppendShape(st.devs[st.p.home(k)], data);
  }

  lemma AppendShape(d: Device, data: Data)
    requires WellFormed(d)
    ensures WellFormed(Append(d, data).0) && Append(d, data).0.geo == d.geo
  {
    if |data| == d.geo.unit && MakeRoom(d).1 {
      SlotInSegment(d.geo, MakeRoom(d).0.buf.fill);
    }
  }

  /** The plain map after the same writes. */
  ghost function PutAll(m: map<Key, Data>, ws: seq<Write>): map<Key, Data>
    decreases |ws|
  {
    if ws == [] then m else PutAll(m[ws[0].key := ws[0].data], ws[1..])
  }

  ghost function KeysOf(ws: seq<Write>): set<Key> {
    set i | 0 <= i < |ws| :: ws[i].key
  }

  /** offload refines putting the written prefix into the map; a failure loses nothing that was there. */
  lemma {:induction false} WriteAllKeeps(st: Store, live: Live, ws: seq<Write>) returns (after: Live)
    requires StoreInv(st, live) && WritesOk(st.p, ws) && KeysOf(ws) !! st.cache.Keys
    ensures var (e, n) := WriteAll(st, ws);
      && StoreInv(e, after) && Readable(st) && Readable(e) && Undisturbed(st, e, KeysOf(ws)) && e.cache == st.cache
      && Contents(e) == PutAll(Contents(st), ws[..n])
    decreases |ws|
  {
    hide Segment.Inv, Contents, WriteToken, Undisturbed, Meaning, Owns;
    after := live;
    InvReads(st, live);
    if ws == [] {
      UndisturbedSelf(st, KeysOf(ws));
    } else {
      var (mid, f) := WriteToken(st, ws[0].key, ws[0].data);
      assert ws[0].key in KeysOf(ws);
      WriteTokenShape(st, ws[0].key, ws[0].data);
      after := WriteTokenKeeps(st, live, ws[0].key, ws[0].data);
      UndisturbedMore(st, mid, {ws[0].key}, KeysOf(ws));
      if f == NoFault {
        KeysOfRest(ws);
        after := WriteAllKeeps(mid, after, ws[1..]);
        UndisturbedMore(mid, WriteAll(mid, ws[1..]).0, KeysOf(ws[1..]), KeysOf(ws));
        UndisturbedTrans(st, mid, WriteAll(mid, ws[1..]).0, KeysOf(ws), KeysOf(ws));
        assert KeysOf(ws) + KeysOf(ws) == KeysOf(ws);
        PutAllStep(Contents(st), ws, WriteAll(mid, ws[1..]).1);
      }
    }
  }

  lemma PutAllStep(m: map<Key, Data>, ws: seq<Write>, n: nat)
    requires ws != [] && n <= |ws| - 1
    ensures PutAll(m, ws[..n + 1]) == PutAll(m[ws[0].key := ws[0].data], ws[1..][..n])
  {
    assert ws[..n + 1][1..] == ws[1..][..n];
  }

  lemma KeysOfRest(ws: seq<Write>)
    requires ws != []
    ensures KeysOf(ws) == {ws[0].key} + KeysOf(ws[1..])
  {
    forall k | k in KeysOf(ws)
      ensures k == ws[0].key || k in KeysOf(ws[1..])
    {
      var i :| 0 <= i < |ws| && ws[i].key == k;
      if i > 0 {
        assert ws[1..][i - 1].key == k;
      }
    }
    forall k | k in KeysOf(ws[1..])
      ensures k in KeysOf(ws)
    {
      var i :| 0 <= i < |ws[1..]| && ws[1..][i].key == k;
      assert ws[i + 1].key == k;
    }
  }

  lemma UndisturbedSelf(st: Store, t: set<Key>)
    requires Shape(st)
    ensures Undisturbed(st, st, t)
  {
  }

  lemma UndisturbedMore(st: Store, e: Store, s: set<Key>, t: set<Key>)
    requires Undisturbed(st, e, s) && s <= t
    ensures Undisturbed(st, e, t)
  {
  }

  // ---------- blocks ----------

  /** A block handed over by the inference framework: count tokens from start on, token-major. */
  datatype Block = Block(layer: nat, start: nat, count: nat, buffer: Data)

  predicate BlockOk(p: Params, b: Block) {
    b.layer < p.layers && b.start + b.count <= p.tokens && b.count * p.unit <= |b.buffer|
  }

  /** The i-th unit of a token-major buffer. */
  function UnitAt(buffer: Data, unit: nat, i: nat): (r: Data)
    requires (i + 1) * unit <= |buffer|
    ensures |r| == unit
  {
    assert i * unit + unit == (i + 1) * unit;
    buffer[i * unit..(i + 1) * unit]
  }

  /** The writes of a block's first n tokens. */
  function BlockWrites(p: Params, b: Block, n: nat): (ws: seq<Write>)
    requires BlockOk(p, b) && n <= b.count
    ensures |ws| == n && WritesOk(p, ws)
  {
    if n == 0 then []
    else
      Arith.MulMono(n, b.count, p.unit);
      BlockWrites(p, b, n - 1) + [Write(Key(b.layer, b.start + (n - 1)), UnitAt(b.buffer, p.unit, n - 1))]
  }

  /** The writes of the blocks up to the first that fails its checks. */
  function Writes(p: Params, blocks: seq<Block>): (ws: seq<Write>)
    ensures WritesOk(p, ws)
  {
    if blocks == [] then []
    else
      var before := Writes(p, blocks[..|blocks| - 1]);
      var b := blocks[|blocks| - 1];
      if (forall i :: 0 <= i < |blocks| ==> BlockOk(p, blocks[i])) then before + BlockWrites(p, b, b.count) else before
  }

  /** Writing more after everything so far succeeded. */
  lemma {:induction false} WriteAllMore(st: Store, a: seq<Write>, b: seq<Write>)
    requires Shape(st) && WritesOk(st.p, a) && WritesOk(st.p, b) && WriteAll(st, a).1 == |a|
    ensures WritesOk(st.p, a + b) && Shape(WriteAll(st, a).0) && WriteAll(st, a).0.p == st.p
    ensures WriteAll(st, a + b).0 == WriteAll(WriteAll(st, a).0, b).0
    ensures WriteAll(st, a + b).1 == |a| + WriteAll(WriteAll(st, a).0, b).1
    decreases |a|
  {
    hide WriteToken;
    if a == [] {
      assert a + b == b;
    } else {
      WriteTokenShape(st, a[0].key, a[0].data);
      WriteAllMore(WriteToken(st, a[0].key, a[0].data).0, a[1..], b);
      assert (a + b)[1..] == a[1..] + b;
    }
  }

  lemma WriteNone(st: Store)
    requires Shape(st)
    ensures WriteAll(st, []) == (st, 0) && Writes(st.p, []) == []
  {
  }

  /** The write at position i of a block. */
  lemma BlockWriteAt(p: Params, b: Block, i: nat)
    requires BlockOk(p, b) && i < b.count
    ensures 0 <= i * p.unit <= (i + 1) * p.unit <= |b.buffer|
    ensures BlockWrites(p, b, b.count)[i] ==
            Write(Key(b.layer, b.start + i), b.buffer[i * p.unit..(i + 1) * p.unit])
  {
    Arith.MulMono(i, i + 1, p.unit);
    Arith.MulMono(i + 1, b.count, p.unit);
    var rest := BlockWritesPrefix(p, b, i + 1, b.count);
  }

  /** Writing from position i on: the write there, then the rest unless it fails. */
  lemma WriteNext(st: Store, ws: seq<Write>, i: nat)
    requires Shape(st) && WritesOk(st.p, ws) && i < |ws|
    ensures var (e, f) := WriteToken(st, ws[i].key, ws[i].data);
      && Shape(e) && e.p == st.p
      && WriteAll(st, ws[i..]).0 == (if f == NoFault then WriteAll(e, ws[i + 1..]).0 else e)
      && WriteAll(st, ws[i..]).1 == (if f == NoFault then WriteAll(e, ws[i + 1..]).1 + 1 else 0)
  {
    hide WriteToken;
    WriteTokenShape(st, ws[i].key, ws[i].data);
    assert ws[i..][0] == ws[i] && ws[i..][1..] == ws[i + 1..];
  }

  lemma WritesStep(p: Params, blocks: seq<Block>, n: nat)
    requires n < |blocks| && forall i :: 0 <= i <= n ==> BlockOk(p, blocks[i])
    ensures Writes(p, blocks[..n + 1]) == Writes(p, blocks[..n]) + BlockWrites(p, blocks[n], blocks[n].count)
  {
    assert blocks[..n + 1][..n] == blocks[..n];
  }

  /** A failed write ends the whole offload. */
  lemma {:induction false} WriteAllStops(st: Store, a: seq<Write>, b: seq<Write>)
    requires Shape(st) && WritesOk(st.p, a) && WritesOk(st.p, b) && WriteAll(st, a).1 < |a|
    ensures WritesOk(st.p, a + b) && WriteAll(st, a + b) == WriteAll(st, a)
    decreases |a|
  {
    hide WriteToken;
    WriteTokenShape(st, a[0].key, a[0].data);
    if WriteToken(st, a[0].key, a[0].data).1 == NoFault {
      WriteAllStops(WriteToken(st, a[0].key, a[0].data).0, a[1..], b);
      assert (a + b)[1..] == a[1..] + b;
    }
  }

  /** Blocks after one that fails its checks are not written. */
  lemma {:induction false} WritesStop(p: Params, blocks: seq<Block>, n: nat, m: nat)
    requires n < m <= |blocks| && !BlockOk(p, blocks[n])
    ensures Writes(p, blocks[..m]) == Writes(p, blocks[..n])
    decreases m
  {
    assert blocks[..m][..m - 1] == blocks[..m - 1];
    assert !BlockOk(p, blocks[..m][n]);
    if n < m - 1 {
      WritesStop(p, blocks, n, m - 1);
    }
  }

  /** The writes of the first n blocks come first. */
  lemma {:induction false} WritesPrefix(p: Params, blocks: seq<Block>, n: nat, m: nat) returns (rest: seq<Write>)
    requires n <= m <= |blocks|
    ensures WritesOk(p, rest) && Writes(p, blocks[..m]) == Writes(p, blocks[..n]) + rest
    decreases m
  {
    rest := [];
    if n < m {
      rest := WritesPrefix(p, blocks, n, m - 1);
      assert blocks[..m][..m - 1] == blocks[..m - 1];
      var b := blocks[m - 1];
      if forall i :: 0 <= i < |blocks[..m]| ==> BlockOk(p, blocks[..m][i]) {
        assert BlockOk(p, blocks[..m][m - 1]);
        rest := rest + BlockWrites(p, b, b.count);
      }
    }
  }

  lemma {:induction false} BlockWritesPrefix(p: Params, b: Block, n: nat, m: nat) returns (rest: seq<Write>)
    requires BlockOk(p, b) && n <= m <= b.count
    ensures WritesOk(p, rest) && BlockWrites(p, b, m) == BlockWrites(p, b, n) + rest
    decreases m
  {
    rest := [];
    if n < m {
      rest := BlockWritesPrefix(p, b, n, m - 1);
      var last := BlockWrites(p, b, m)[m - 1];
      rest := rest + [last];
    }
  }

  lemma StoppedAt(p: Params, blocks: seq<Block>, n: nat)
    requires n < |blocks| && !BlockOk(p, blocks[n])
    ensures Writes(p, blocks) == Writes(p, blocks[..n])
  {
    WritesStop(p, blocks, n, |blocks|);
    assert blocks[..|blocks|] == blocks;
  }

  lemma FailedAt(st: Store, blocks: seq<Block>, n: nat)
    requires Shape(st) && n <= |blocks| && WriteAll(st, Writes(st.p, blocks[..n])).1 < |Writes(st.p, blocks[..n])|
    ensures WriteAll(st, Writes(st.p, blocks)) == WriteAll(st, Writes(st.p, blocks[..n]))
    ensures WriteAll(st, Writes(st.p, blocks)).1 < |Writes(st.p, blocks)|
  {
    hide WriteToken, WriteAll;
    var rest := WritesPrefix(st.p, blocks, n, |blocks|);
    assert blocks[..|blocks|] == blocks;
    WriteAllStops(st, Writes(st.p, blocks[..n]), rest);
  }

  /** One more block: either everything so far is written, or the offload ended here. */
  lemma OffloadStep(st: Store, blocks: seq<Block>, n: nat, here: Store)
    requires Shape(st) && n < |blocks| && forall i :: 0 <= i <= n ==> BlockOk(st.p, blocks[i])
    requires WriteAll(st, Writes(st.p, blocks[..n])) == (here, |Writes(st.p, blocks[..n])|)
    ensures Shape(here) && here.p == st.p
    ensures var (e, m) := WriteAll(here, BlockWrites(st.p, blocks[n], blocks[n].count));
      if m == blocks[n].count then
        WriteAll(st, Writes(st.p, blocks[..n + 1])) == (e, |Writes(st.p, blocks[..n + 1])|)
      else
        WriteAll(st, Writes(st.p, blocks)).0 == e && WriteAll(st, Writes(st.p, blocks)).1 < |Writes(st.p, blocks)|
  {
    hide WriteToken, WriteAll, Writes, BlockWrites;
    WritesStep(st.p, blocks, n);
    WriteAllMore(st, Writes(st.p, blocks[..n]), BlockWrites(st.p, blocks[n], blocks[n].count));
    if WriteAll(here, BlockWrites(st.p, blocks[n], blocks[n].count)).1 < blocks[n].count {
      FailedAt(st, blocks, n + 1);
    }
  }
}
