/** Blocks of any size out of large chunks (bmpclient/allocator.py, FineGrainedAllocator). */
module ChunkAllocator {
  import opened Chunks
  import opened FreeList
  import opened Ownership
  import opened Runs
  import opened Wrappers

  /** A block as the caller sees it. */
  datatype Handle = Handle(chunkId: int, offset: nat, size: nat, gpa: int, chunkSize: nat)

  datatype Result = Ok(block: Handle) | BadArgument | Exhausted

  /** The service's answer to create_chunk. */
  datatype Reply = Refused | Created(chunkId: int, baseGpa: int, userSize: nat)

  /** A chunk the request may not use, or with no room for it. */
  ghost predicate Full(c: ChunkBuffer, free: set<nat>, size: nat, media: Media, device: Option<int>) {
    c.media != media || c.device != device || NoRun(free, size)
  }

  /** The chunk still has this content. */
  ghost predicate Same(c: ChunkBuffer, live: set<Block>, freeList: seq<Piece>)
    reads c
  {
    c.live == live && c.freeList == freeList
  }

  class FineGrainedAllocator {
    const defaultChunkSize: nat
    /** The chunks held, each tagged with its medium, in the order they were created. */
    var chunks: seq<ChunkBuffer>
    /** The chunks given back to the service so far, in order. */
    var returned: seq<int>

    constructor (defaultChunkSize: nat)
      ensures Valid() && chunks == [] && returned == [] && this.defaultChunkSize == defaultChunkSize
    {
      this.defaultChunkSize, chunks, returned := defaultChunkSize, [], [];
    }

    /** Every chunk is consistent and no two share an id. */
    ghost predicate Valid()
      reads this, chunks
    {
      && (forall i :: 0 <= i < |chunks| ==> chunks[i].Valid())
      && (forall i, j :: 0 <= i < j < |chunks| ==> chunks[i].chunkId != chunks[j].chunkId)
    }

    /** The size a new chunk is asked for. */
    function Wanted(size: nat): (r: nat)
      ensures r >= size && r >= defaultChunkSize && (r == size || r == defaultChunkSize)
    {
      if size >= defaultChunkSize then size else defaultChunkSize
    }

    /** Try the chunks of this medium and device in order; k is the number of chunks when none has room. */
    method FirstRoom(size: nat, media: Media, device: Option<int>) returns (k: nat, offset: nat)
      requires Valid() && size > 0
      modifies chunks
      ensures Valid() && k <= |chunks|
      ensures forall i :: 0 <= i < k ==> Full(chunks[i], old(chunks[i].Free()), size, media, device)
      ensures forall i :: 0 <= i < |chunks| && i != k ==> Same(chunks[i], old(chunks[i].live), old(chunks[i].freeList))
      ensures k < |chunks| ==> chunks[k].media == media && chunks[k].device == device
      ensures k < |chunks| ==> LowestRun(old(chunks[k].Free()), chunks[k].totalSize, size, offset)
      ensures k < |chunks| ==> chunks[k].live == old(chunks[k].live) + {Block(offset, size)}
    {
      hide LowestRun, NoRun, Normal, Inside, Inv, Bytes, Range;
      k := 0;
      while k < |chunks|
        invariant k <= |chunks| && Valid()
        invariant forall i :: 0 <= i < |chunks| ==> Same(chunks[i], old(chunks[i].live), old(chunks[i].freeList))
        invariant forall i :: 0 <= i < k ==> Full(chunks[i], old(chunks[i].Free()), size, media, device)
      {
        if chunks[k].media == media && chunks[k].device == device {
          var r := chunks[k].Alloc(size);
          if r.Some? {
            return k, r.value;
          }
        }
        k := k + 1;
      }
      offset := 0;
    }

    /**
      Allocate from the first chunk on the right device with room, else from a new chunk; at is the chunk's position.
     */
    method Alloc(size: nat, media: Media, device: Option<int>, create: nat -> Reply) returns (r: Result, ghost at: nat)
      requires Valid() && size > 0
      requires create(Wanted(size)).Created? ==> forall i :: 0 <= i < |chunks| ==>
        chunks[i].chunkId != create(Wanted(size)).chunkId
      modifies this, chunks
      ensures Valid()
      ensures r.BadArgument? <==> device.Some? && media.Dram?
      ensures r.Ok? ==> at < |chunks|
      ensures r.Ok? ==> Handed(chunks[at], r.block, size)
      ensures r.Ok? ==> chunks[at].media == media
      ensures r.Ok? ==> chunks[at].device == device
      ensures r.Ok? && at < |old(chunks)| ==> chunks == old(chunks)
      ensures r.Ok? && at < |old(chunks)| ==> chunks[at].live == old(chunks[at].live) + {Block(r.block.offset, size)}
      ensures r.Ok? && at < |old(chunks)| ==>
        LowestRun(old(chunks[at].Free()), chunks[at].totalSize, size, r.block.offset)
      ensures r.Ok? && at >= |old(chunks)| ==> chunks == old(chunks) + [chunks[at]]
      ensures r.Ok? && at >= |old(chunks)| ==> fresh(chunks[at])
      ensures r.Ok? && at >= |old(chunks)| ==> chunks[at].live == {Block(0, size)}
      ensures r.Ok? && at >= |old(chunks)| ==>
        create(Wanted(size)) == Created(r.block.chunkId, r.block.gpa, r.block.chunkSize)
      ensures !r.Ok? ==> chunks == old(chunks)
      ensures r.Exhausted? ==> create(Wanted(size)).Refused? || create(Wanted(size)).userSize < size
      ensures !r.BadArgument? ==> forall i :: 0 <= i < |old(chunks)| && (r.Ok? ==> i < at) ==>
        Full(old(chunks)[i], old(chunks[i].Free()), size, media, device)
      ensures !(r.Exhausted? && create(Wanted(size)).Created?) ==> returned == old(returned)
      ensures r.Exhausted? && create(Wanted(size)).Created? ==>
        returned == old(returned) + [create(Wanted(size)).chunkId]
      ensures forall i :: 0 <= i < |old(chunks)| && !(r.Ok? && i == at) ==>
        Same(old(chunks)[i], old(chunks[i].live), old(chunks[i].freeList))
    {
      hide LowestRun, NoRun, Normal, Inside, Inv, Bytes, Range;
      if device.Some? && media.Dram? {
        return BadArgument, 0;
      }
      var k, offset := FirstRoom(size, media, device);
      if k < |chunks| {
        return Ok(Handle(chunks[k].chunkId, offset, size, chunks[k].baseGpa, chunks[k].totalSize)), k;
      }
      var reply := create(Wanted(size));
      if reply.Refused? {
        return Exhausted, 0;
      }
      if reply.userSize < size {
        returned := returned + [reply.chunkId];
        return Exhausted, 0;
      }
      var c := NewChunk(size, media, device, reply);
      chunks := chunks + [c];
      r, at := Ok(Handle(c.chunkId, 0, size, c.baseGpa, c.totalSize)), |chunks| - 1;
    }

    /** Free a live block; its chunk goes back to the service exactly when that was the chunk's last live block. */
    method Free(block: Handle) returns (ghost at: nat)
      requires Valid()
      requires forall i :: 0 <= i < |chunks| && chunks[i].chunkId == block.chunkId ==>
        Block(block.offset, block.size) in chunks[i].live
      modifies this, chunks
      ensures Valid() && at <= |old(chunks)|
      ensures at < |old(chunks)| <==> exists i :: 0 <= i < |old(chunks)| && old(chunks)[i].chunkId == block.chunkId
      ensures at == |old(chunks)| ==> chunks == old(chunks) && returned == old(returned)
      ensures at < |old(chunks)| ==> old(chunks)[at].chunkId == block.chunkId
      ensures at < |old(chunks)| ==> old(chunks)[at].live == old(chunks[at].live) - {Block(block.offset, block.size)}
      ensures at < |old(chunks)| && old(chunks[at].live) == {Block(block.offset, block.size)} ==>
        chunks == old(chunks[..at] + chunks[at + 1..])
      ensures at < |old(chunks)| && old(chunks[at].live) == {Block(block.offset, block.size)} ==>
        returned == old(returned) + [block.chunkId]
      ensures at < |old(chunks)| && old(chunks[at].live) != {Block(block.offset, block.size)} ==> chunks == old(chunks)
      ensures at < |old(chunks)| && old(chunks[at].live) != {Block(block.offset, block.size)} ==>
        returned == old(returned)
      ensures forall i :: 0 <= i < |old(chunks)| && i != at ==>
        Same(old(chunks)[i], old(chunks[i].live), old(chunks[i].freeList))
    {
      hide LowestRun, NoRun, Normal, Inside, Inv, Bytes, Range;
      var k := 0;
      while k < |chunks| && chunks[k].chunkId != block.chunkId
        invariant k <= |chunks| && forall i :: 0 <= i < k ==> chunks[i].chunkId != block.chunkId
      {
        k := k + 1;
      }
      at := k;
      if k < |chunks| {
        chunks[k].Release(block.offset, block.size);
        var empty := chunks[k].IsFullyFree();
        if empty {
          returned := returned + [chunks[k].chunkId];
          chunks := chunks[..k] + chunks[k + 1..];
        }
      }
    }

    /** The block names its chunk and is live there. */
    ghost predicate Handed(c: ChunkBuffer, block: Handle, size: nat)
      reads c
    {
      c.chunkId == block.chunkId && block.size == size && block.gpa == c.baseGpa && block.chunkSize == c.totalSize &&
      Block(block.offset, size) in c.live
    }
  }

  /** A chunk of the service's making, its first block cut off the front. */
  method NewChunk(size: nat, media: Media, device: Option<int>, reply: Reply) returns (c: ChunkBuffer)
    requires reply.Created? && 0 < size <= reply.userSize
    ensures fresh(c) && c.Valid() && c.live == {Block(0, size)} && c.media == media && c.device == device
    ensures c.chunkId == reply.chunkId && c.baseGpa == reply.baseGpa && c.totalSize == reply.userSize
  {
    c := new ChunkBuffer(reply.chunkId, reply.baseGpa, reply.userSize, media, device);
    ghost var free := c.Free();
    FullyFreeIff(State(free, {}), reply.userSize);
    assert RunAt(free, size, 0);
    var offset := c.Alloc(size);
    assert offset.Some? && offset.value == 0;
  }
}
