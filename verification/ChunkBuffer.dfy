/** One chunk cut into blocks (bmpclient/allocator.py, ChunkBuffer). */
module Chunks {
  import opened Finite
  import opened FreeList
  import opened Ownership
  import opened Runs
  import opened Wrappers

  datatype Media = Dram | Ssd

  class ChunkBuffer {
    const chunkId: int
    const baseGpa: int
    const totalSize: nat
    const media: Media
    const device: Option<int>
    var freeList: seq<Piece>
    ghost var live: set<Block>

    ghost function Free(): set<nat>
      reads this
    {
      Bytes(freeList)
    }

    /** The list is sorted, disjoint and coalesced, and its bytes with the live blocks' make up the chunk. */
    ghost predicate Valid()
      reads this
    {
      totalSize > 0 && Normal(freeList) && Inside(freeList, totalSize) && Inv(State(Free(), live), totalSize)
    }

    constructor (chunkId: int, baseGpa: int, totalSize: nat, media: Media, device: Option<int>)
      requires totalSize > 0
      ensures Valid() && live == {} && this.chunkId == chunkId && this.totalSize == totalSize
      ensures this.media == media && this.device == device && this.baseGpa == baseGpa
    {
      this.chunkId, this.baseGpa, this.totalSize, this.media, this.device := chunkId, baseGpa, totalSize, media, device;
      freeList, live := [Piece(0, totalSize)], {};
      new;
      WholeChunk(freeList, totalSize);
      InitialInv(totalSize);
    }

    /** First fit: the lowest run of size free bytes, or None exactly when there is no such run. */
    method Alloc(size: nat) returns (r: Option<nat>)
      requires Valid() && size > 0
      modifies this
      ensures Valid()
      ensures r.Some? ==> LowestRun(old(Free()), totalSize, size, r.value)
      ensures r.Some? ==> Free() == old(Free()) - Range(r.value, size) &&
                          live == old(live) + {Block(r.value, size)} && Block(r.value, size) !in old(live)
      ensures r.None? ==> NoRun(old(Free()), size) && live == old(live) && freeList == old(freeList)
    {
      hide Bytes, Inv, Range, LowestRun, NoRun, RunAt;
      for i := 0 to |freeList|
        invariant forall j :: 0 <= j < i ==> freeList[j].size < size
        invariant freeList == old(freeList) && live == old(live)
      {
        if freeList[i].size >= size {
          var offset := freeList[i].off;
          CutNormal(freeList, i, size, totalSize);
          CutBytes(freeList, i, size);
          FirstFitLowest(freeList, i, size, totalSize);
          Taken(State(Free(), live), totalSize, offset, size);
          freeList := Cut(freeList, i, size);
          live := live + {Block(offset, size)};
          return Some(offset);
        }
      }
      NoneFits(freeList, size);
      r := None;
    }

    /** Give a live block back: insert by offset, then merge neighbours. */
    method Release(offset: nat, size: nat)
      requires Valid() && Block(offset, size) in live
      modifies this
      ensures Valid() && Free() == old(Free()) + Range(offset, size) && live == old(live) - {Block(offset, size)}
    {
      hide Bytes, Inv, Range;
      ghost var before := State(Free(), live);
      Given(before, totalSize, Block(offset, size));
      var sorted := SortIn(freeList, Piece(offset, size));
      var merged := Merge(sorted);
      InsideByBytes(merged, totalSize);
      freeList := merged;
      live := live - {Block(offset, size)};
    }

    method IsFullyFree() returns (b: bool)
      requires Valid()
      ensures b <==> live == {}
    {
      b := |freeList| == 1 && freeList[0] == Piece(0, totalSize);
      assert b <==> freeList == [Piece(0, totalSize)];
      Restored(freeList, live, totalSize);
    }
  }

  /** Whatever was allocated and in whatever order it came back: once nothing is live the list is one whole piece. */
  lemma Restored(fl: seq<Piece>, live: set<Block>, total: nat)
    requires total > 0 && Normal(fl) && Inv(State(Bytes(fl), live), total)
    ensures live == {} <==> fl == [Piece(0, total)]
  {
    WholeChunk(fl, total);
    FullyFreeIff(State(Bytes(fl), live), total);
  }

  /** A client that gives back every live block, in any order it likes. */
  method ReleaseAll(c: ChunkBuffer, order: seq<Block>)
    requires c.Valid() && NoDuplicates(order) && Elements(order) == c.live
    modifies c
    ensures c.Valid() && c.freeList == [Piece(0, c.totalSize)]
  {
    for i := 0 to |order|
      invariant c.Valid() && c.live == Elements(order[i..])
    {
      assert order[i..] == [order[i]] + order[i + 1..];
      assert order[i] in Elements(order[i..]);
      c.Release(order[i].start, order[i].n);
      assert Elements(order[i..]) - {order[i]} == Elements(order[i + 1..]);
    }
    Restored(c.freeList, c.live, c.totalSize);
  }

  lemma Taken(s: State, total: nat, p: nat, n: nat)
    requires Inv(s, total) && n > 0 && LowestRun(s.free, total, n, p)
    ensures Inv(State(s.free - Range(p, n), s.live + {Block(p, n)}), total) && Block(p, n) !in s.live
  {
    hide Inv, Range;
    AllocKeeps(s, total, p, n);
    RunInside(s.free, p, n);
    NotYetLive(s, total, p, n);
  }

  lemma Given(s: State, total: nat, b: Block)
    requires Inv(s, total) && b in s.live
    ensures Inv(State(s.free + Range(b.start, b.n), s.live - {b}), total) && b.n > 0 && Range(b.start, b.n) !! s.free
    ensures forall i :: i in s.free + Range(b.start, b.n) ==> i < total
  {
    assert Placed(b, s.free, total);
    ReleaseKeeps(s, total, b);
  }

  lemma FullyFreeIff(s: State, total: nat)
    requires Inv(s, total)
    ensures s.free == Range(0, total) <==> s.live == {}
  {
    if s.live == {} {
      NothingLive(s, total);
    }
    if s.free == Range(0, total) {
      forall b: Block
        ensures !Placed(b, s.free, total)
      {
        if b.n > 0 && b.start + b.n <= total {
          assert b.start in Owned(b) && b.start in s.free;
        }
      }
    }
  }

  /** Append and sort by offset. */
  method SortIn(fl: seq<Piece>, p: Piece) returns (sorted: seq<Piece>)
    requires Normal(fl) && p.size > 0 && Range(p.off, p.size) !! Bytes(fl)
    ensures Spaced(sorted) && Bytes(sorted) == Bytes(fl) + Range(p.off, p.size)
  {
    hide Bytes, Range;
    var k := 0;
    while k < |fl| && fl[k].off <= p.off
      invariant 0 <= k <= |fl| && forall i :: 0 <= i < k ==> fl[i].off <= p.off
    {
      k := k + 1;
    }
    InsertedSpaced(fl, k, p);
    sorted := Inserted(fl, k, p);
  }

  /** The merge loop: adjacent pieces become one. */
  method Merge(sorted: seq<Piece>) returns (merged: seq<Piece>)
    requires Spaced(sorted)
    ensures Normal(merged) && Bytes(merged) == Bytes(sorted)
  {
    hide Bytes, Range;
    merged := [];
    for i := 0 to |sorted|
      invariant Normal(merged) && Bytes(merged) == Bytes(sorted[..i])
      invariant merged != [] ==> i > 0 && merged[|merged| - 1].End() == sorted[i - 1].End()
    {
      var p := sorted[i];
      JoinKeeps(merged, p);
      BytesSnoc(sorted[..i], p);
      assert sorted[..i + 1] == sorted[..i] + [p];
      if merged != [] && merged[|merged| - 1].End() == p.off {
        merged := merged[|merged| - 1 := Piece(merged[|merged| - 1].off, merged[|merged| - 1].size + p.size)];
      } else {
        merged := merged + [p];
      }
    }
    assert sorted[..|sorted|] == sorted;
  }
}
