/** Which bytes of which block offload leaves under a key, said of the blocks alone. */
module OffloadBytes {
  import opened Bytes
  import opened Placement
  import opened KVStore
  import opened StoreRuns
  import Segment
  import Media
  import Plan
  import Arith

  /** The block carries a unit for the key. */
  predicate Covers(b: Block, k: Key) {
    k.layer == b.layer && b.start <= k.token < b.start + b.count
  }

  /** None of the blocks from n on, short of m, carries a unit for the key. */
  ghost predicate Uncovered(blocks: seq<Block>, n: nat, m: nat, k: Key)
    requires m <= |blocks|
  {
    forall j :: n <= j < m ==> !Covers(blocks[j], k)
  }

  ghost predicate AllOk(p: Params, blocks: seq<Block>) {
    forall j :: 0 <= j < |blocks| ==> BlockOk(p, blocks[j])
  }

  lemma {:induction false} PutAllMore(m: map<Key, Data>, a: seq<Write>, b: seq<Write>)
    ensures PutAll(m, a + b) == PutAll(PutAll(m, a), b)
    decreases |a|
  {
    if a == [] {
      assert a + b == b;
    } else {
      assert (a + b)[1..] == a[1..] + b;
      PutAllMore(m[a[0].key := a[0].data], a[1..], b);
    }
  }

  /** A key a block does not cover is not among its writes. */
  lemma NotAmong(p: Params, b: Block, k: Key)
    requires BlockOk(p, b) && !Covers(b, k)
    ensures k !in KeysOf(BlockWrites(p, b, b.count))
  {
    forall i | 0 <= i < b.count
      ensures BlockWrites(p, b, b.count)[i].key != k
    {
      BlockWriteAt(p, b, i);
    }
  }

  /** Of a sequence of writes with one write of the key at i, that write decides. */
  lemma {:induction false} PutAllAt(m: map<Key, Data>, ws: seq<Write>, i: nat)
    requires i < |ws| && forall j :: i < j < |ws| ==> ws[j].key != ws[i].key
    ensures ws[i].key in PutAll(m, ws) && PutAll(m, ws)[ws[i].key] == ws[i].data
    decreases |ws|
  {
    if i == 0 {
      Plan.PutAllOther(m[ws[0].key := ws[0].data], ws[1..], ws[0].key);
    } else {
      PutAllAt(m[ws[0].key := ws[0].data], ws[1..], i - 1);
    }
  }

  /** Within one block, token i gets the i-th unit of the buffer. */
  lemma BlockPuts(p: Params, m: map<Key, Data>, b: Block, i: nat)
    requires BlockOk(p, b) && i < b.count
    ensures 0 <= i * p.unit <= (i + 1) * p.unit <= |b.buffer|
    ensures var k := Key(b.layer, b.start + i); var after := PutAll(m, BlockWrites(p, b, b.count));
      k in after && after[k] == b.buffer[i * p.unit..(i + 1) * p.unit]
  {
    var ws := BlockWrites(p, b, b.count);
    BlockWriteAt(p, b, i);
    forall j | i < j < |ws|
      ensures ws[j].key != ws[i].key
    {
      BlockWriteAt(p, b, j);
    }
    PutAllAt(m, ws, i);
  }

  /** Blocks that do not cover a key leave it as it was. */
  lemma {:induction false} UncoveredKept(p: Params, m: map<Key, Data>, blocks: seq<Block>, n: nat, e: nat, k: Key)
    requires AllOk(p, blocks) && n <= e <= |blocks| && Uncovered(blocks, n, e, k)
    ensures var was, now := PutAll(m, Writes(p, blocks[..n])), PutAll(m, Writes(p, blocks[..e]));
      (k in now <==> k in was) && (k in was ==> now[k] == was[k])
    decreases e
  {
    if n < e {
      var b := blocks[e - 1];
      UncoveredKept(p, m, blocks, n, e - 1, k);
      WritesStep(p, blocks, e - 1);
      PutAllMore(m, Writes(p, blocks[..e - 1]), BlockWrites(p, b, b.count));
      NotAmong(p, b, k);
      Plan.PutAllOther(PutAll(m, Writes(p, blocks[..e - 1])), BlockWrites(p, b, b.count), k);
    }
  }

  /** The map after the blocks' writes: the last block that covers a key decides its bytes. */
  lemma LastBlockDecides(p: Params, m: map<Key, Data>, blocks: seq<Block>, n: nat, i: nat)
    requires AllOk(p, blocks) && n < |blocks| && i < blocks[n].count
    requires Uncovered(blocks, n + 1, |blocks|, Key(blocks[n].layer, blocks[n].start + i))
    ensures 0 <= i * p.unit <= (i + 1) * p.unit <= |blocks[n].buffer|
    ensures var b := blocks[n]; var k := Key(b.layer, b.start + i); var now := PutAll(m, Writes(p, blocks));
      k in now && now[k] == b.buffer[i * p.unit..(i + 1) * p.unit]
  {
    hide Writes, BlockWrites, PutAll;
    var b := blocks[n];
    WritesStep(p, blocks, n);
    PutAllMore(m, Writes(p, blocks[..n]), BlockWrites(p, b, b.count));
    BlockPuts(p, PutAll(m, Writes(p, blocks[..n])), b, i);
    UncoveredKept(p, m, blocks, n + 1, |blocks|, Key(b.layer, b.start + i));
    assert blocks[..|blocks|] == blocks;
  }

  // ---------- the order of the writes ----------

  /** How many tokens the first n blocks carry. */
  function Before(blocks: seq<Block>, n: nat): nat
    requires n <= |blocks|
  {
    if n == 0 then 0 else Before(blocks, n - 1) + blocks[n - 1].count
  }

  ghost predicate OkUpTo(p: Params, blocks: seq<Block>, n: nat)
    requires n <= |blocks|
  {
    forall j :: 0 <= j < n ==> BlockOk(p, blocks[j])
  }

  lemma {:induction false} WritesLength(p: Params, blocks: seq<Block>, n: nat)
    requires n <= |blocks| && OkUpTo(p, blocks, n)
    ensures |Writes(p, blocks[..n])| == Before(blocks, n)
  {
    if n > 0 {
      WritesLength(p, blocks, n - 1);
      WritesStep(p, blocks, n - 1);
    }
  }

  /** Units are written block by block and token by token, each with its own slice of its block. */
  lemma WriteOrder(p: Params, blocks: seq<Block>, n: nat, i: nat)
    requires n < |blocks| && OkUpTo(p, blocks, n + 1) && i < blocks[n].count
    ensures Before(blocks, n) + i < |Writes(p, blocks)|
    ensures 0 <= i * p.unit <= (i + 1) * p.unit <= |blocks[n].buffer|
    ensures Writes(p, blocks)[Before(blocks, n) + i] ==
            Write(Key(blocks[n].layer, blocks[n].start + i), blocks[n].buffer[i * p.unit..(i + 1) * p.unit])
  {
    hide Writes, BlockWrites;
    WritesLength(p, blocks, n);
    WritesStep(p, blocks, n);
    BlockWriteAt(p, blocks[n], i);
    var rest := WritesPrefix(p, blocks, n + 1, |blocks|);
    assert blocks[..|blocks|] == blocks;
  }

  /** Nothing is written of the first block that fails its checks, nor of the blocks after it. */
  lemma WriteCount(p: Params, blocks: seq<Block>, n: nat)
    requires n <= |blocks| && OkUpTo(p, blocks, n) && (n < |blocks| ==> !BlockOk(p, blocks[n]))
    ensures |Writes(p, blocks)| == Before(blocks, n)
  {
    hide Writes, BlockWrites;
    WritesLength(p, blocks, n);
    assert blocks[..|blocks|] == blocks;
    if n < |blocks| {
      StoppedAt(p, blocks, n);
    }
  }

  // ---------- what offload leaves behind ----------

  /** Writing does not look at the prefetch cache. */
  lemma {:induction false} WriteAllCache(st: Store, ws: seq<Write>, cache: map<Key, Data>)
    requires Shape(st) && WritesOk(st.p, ws)
    ensures Shape(st.(cache := cache))
    ensures WriteAll(st.(cache := cache), ws) == (WriteAll(st, ws).0.(cache := cache), WriteAll(st, ws).1)
    ensures WriteAll(st, ws).0.cache == st.cache
    decreases |ws|
  {
    if ws != [] {
      WriteTokenCache(st, ws[0].key, ws[0].data, cache);
      WriteTokenShape(st, ws[0].key, ws[0].data);
      hide WriteToken;
      if WriteToken(st, ws[0].key, ws[0].data).1 == NoFault {
        WriteAllCache(WriteToken(st, ws[0].key, ws[0].data).0, ws[1..], cache);
      }
    }
  }

  lemma WriteTokenCache(st: Store, k: Key, data: Data, cache: map<Key, Data>)
    requires Shape(st) && InRange(st.p, k)
    ensures var (e, f) := WriteToken(st, k, data);
      WriteToken(st.(cache := cache), k, data) == (e.(cache := cache), f) && e.cache == st.cache
  {
  }

  /** Token i of the block holds its slice of the buffer, and fetch says so unless an older copy is cached. */
  ghost predicate Served(st: Store, e: Store, b: Block, i: nat)
    requires Readable(st) && Readable(e)
  {
    var k, unit := Key(b.layer, b.start + i), st.p.unit;
    && 0 <= i * unit <= (i + 1) * unit <= |b.buffer|
    && k in e.slots
    && Contents(e)[k] == b.buffer[i * unit..(i + 1) * unit]
    && (FetchOne(e, k) == b.buffer[i * unit..(i + 1) * unit] <==>
          k !in st.cache || st.cache[k] == b.buffer[i * unit..(i + 1) * unit])
  }

  /** Token i of block n is served, unless a later block covers it too. */
  ghost predicate TokenServed(st: Store, e: Store, blocks: seq<Block>, n: nat, i: nat)
    requires Readable(st) && Readable(e) && n < |blocks|
  {
    Uncovered(blocks, n + 1, |blocks|, Key(blocks[n].layer, blocks[n].start + i)) ==> Served(st, e, blocks[n], i)
  }

  /**
    What a successful offload leaves behind, cached keys included: each token of a block holds its own slice of that
    block's buffer unless a later block covers it too, and a key no block covers holds what it held before. fetch
    returns the slice exactly when the key had no prefetched copy, or an equal one.
   */
  lemma OffloadServes(st: Store, live: Live, blocks: seq<Block>)
    requires StoreInv(st, live) && AllOk(st.p, blocks)
    requires WriteAll(st, Writes(st.p, blocks)).1 == |Writes(st.p, blocks)|
    ensures var e := WriteAll(st, Writes(st.p, blocks)).0;
      && Readable(st) && Readable(e)
      && (forall n, i :: 0 <= n < |blocks| && 0 <= i < blocks[n].count ==> TokenServed(st, e, blocks, n, i))
      && (forall k :: Uncovered(blocks, 0, |blocks|, k) ==> Kept(st, e, k))
  {
    hide Segment.Inv, Owns, Meaning, WriteAll, Writes, PutAll, Contents, Served, Kept, Readable;
    var ws := Writes(st.p, blocks);
    var e := WriteAll(st, ws).0;
    Bare(st, live, ws);
    assert ws[..|ws|] == ws;
    forall n, i | 0 <= n < |blocks| && 0 <= i < blocks[n].count
      ensures TokenServed(st, e, blocks, n, i)
    {
      ServedFrom(st, e, blocks, n, i);
    }
    forall k | Uncovered(blocks, 0, |blocks|, k)
      ensures Kept(st, e, k)
    {
      KeptFrom(st, e, blocks, k);
    }
  }

  ghost predicate Kept(st: Store, e: Store, k: Key)
    requires Readable(st) && Readable(e)
  {
    (k in e.slots <==> k in st.slots) && (k in e.slots ==> Contents(e)[k] == Contents(st)[k])
  }

  lemma ServedFrom(st: Store, e: Store, blocks: seq<Block>, n: nat, i: nat)
    requires Readable(st) && Readable(e) && e.cache == st.cache && AllOk(st.p, blocks)
    requires Contents(e) == PutAll(Contents(st), Writes(st.p, blocks))
    requires n < |blocks| && i < blocks[n].count
    ensures TokenServed(st, e, blocks, n, i)
  {
    hide Media.ReadAt, Writes, PutAll;
    if Uncovered(blocks, n + 1, |blocks|, Key(blocks[n].layer, blocks[n].start + i)) {
      LastBlockDecides(st.p, Contents(st), blocks, n, i);
    }
  }

  lemma KeptFrom(st: Store, e: Store, blocks: seq<Block>, k: Key)
    requires Readable(st) && Readable(e) && AllOk(st.p, blocks) && Uncovered(blocks, 0, |blocks|, k)
    requires Contents(e) == PutAll(Contents(st), Writes(st.p, blocks))
    ensures Kept(st, e, k)
  {
    UncoveredKept(st.p, Contents(st), blocks, 0, |blocks|, k);
    WriteNone(st);
    assert blocks[..|blocks|] == blocks && blocks[..0] == [];
    hide Media.ReadAt, Writes;
  }

  /** Contents after writes, whatever is cached. */
  lemma Bare(st: Store, live: Live, ws: seq<Write>)
    requires StoreInv(st, live) && WritesOk(st.p, ws)
    ensures var (e, n) := WriteAll(st, ws);
      Readable(st) && Readable(e) && e.cache == st.cache && Contents(e) == PutAll(Contents(st), ws[..n])
  {
    hide Segment.Inv, Owns, WriteAll, Media.ReadAt;
    var bare := st.(cache := map[]);
    assert DevicesOk(bare, live);
    InvReads(st, live);
    WriteAllCache(st, ws, map[]);
    var after := WriteAllKeeps(bare, live, ws);
    SameContents(WriteAll(bare, ws).0, WriteAll(st, ws).0);
    SameContents(bare, st);
  }

  lemma SameContents(bare: Store, st: Store)
    requires Readable(bare) && bare == st.(cache := map[])
    ensures Readable(st) && Contents(st) == Contents(bare)
  {
    hide Media.ReadAt;
  }
}
