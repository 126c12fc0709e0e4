/** The page allocator over a bitmap (umm/src/common/bitmap_allocator.c). */
module PageAllocator {
  import opened Arith
  import opened Bitmap
  import opened Finite
  import opened Runs

  const WORD: nat := 0x1_0000_0000_0000_0000
  const DEFAULT_PAGE_SIZE: nat := 4096

  /** Pages for a number of bytes, computed in 64-bit arithmetic. */
  function PagesFor(numBytes: nat, pageSize: nat): nat
    requires 0 < pageSize
  {
    (numBytes + pageSize - 1) % WORD / pageSize
  }

  /** Byte offset of a page. */
  function OffsetOf(page: nat, pageSize: nat): nat {
    page * pageSize
  }

  function PageOf(offset: nat, pageSize: nat): nat
    requires 0 < pageSize
  {
    offset / pageSize
  }

  /** The rounding is right exactly when its sum does not wrap; when it wraps it yields no page at all. */
  lemma PagesForExact(numBytes: nat, pageSize: nat)
    requires 0 < numBytes < WORD && 0 < pageSize < WORD
    ensures PagesFor(numBytes, pageSize) == CeilDiv(numBytes, pageSize) <==> numBytes + pageSize - 1 < WORD
    ensures numBytes + pageSize - 1 >= WORD ==> PagesFor(numBytes, pageSize) == 0
  {
    var sum := numBytes + pageSize - 1;
    if sum < WORD {
      assert sum % WORD == sum;
      CeilDivIs(numBytes, pageSize);
    } else {
      var rest := sum - WORD;
      assert sum % WORD == rest;
      DivUnique(0, rest, pageSize);
      assert 0 * pageSize + rest == rest;
    }
  }

  lemma CeilDivIs(n: nat, d: nat)
    requires 0 < d
    ensures CeilDiv(n, d) == (n + d - 1) / d
  {
  }

  function NumPages(totalBytes: nat, pageSize: nat): (n: nat)
    requires 0 < pageSize && 0 < totalBytes
    ensures 0 < n && n == CeilDiv(totalBytes, pageSize)
  {
    CeilDivIs(totalBytes, pageSize);
    (totalBytes + pageSize - 1) / pageSize
  }

  /** A concrete wrap: with 4 KiB pages a request for all but one byte of the address space rounds to no page. */
  lemma PagesForWraps()
    ensures PagesFor(WORD - 1, 4096) == 0
  {
  }

  /** How many pages from page on are free, up to npages. */
  method CountFree(bitmap: array<bv8>, page: nat, npages: nat) returns (i: nat)
    requires page + npages <= 8 * bitmap.Length
    ensures i <= npages && RunAt(FreePages(bitmap[..]), i, page)
    ensures i < npages ==> page + i !in FreePages(bitmap[..])
  {
    hide Bit;
    i := 0;
    while i < npages && Bit(bitmap[(page + i) / 8], (page + i) % 8)
      invariant 0 <= i <= npages && RunAt(FreePages(bitmap[..]), i, page)
    {
      assert BitAt(bitmap[..], page + i);
      i := i + 1;
    }
    assert i < npages ==> !BitAt(bitmap[..], page + i);
  }

  /** Scan for the lowest run, with the whole-byte shortcut and the jump past an allocated page. */
  method FindFreeRun(bitmap: array<bv8>, numPages: nat, startPage: nat, npages: nat) returns (r: nat)
    requires bitmap.Length == (numPages + 7) / 8 && startPage < numPages
    ensures r == FirstRun(FreePages(bitmap[..]), numPages, npages, startPage)
  {
    hide Bit, FreePages;
    ghost var free := FreePages(bitmap[..]);
    var page := startPage;
    while page + npages <= numPages
      invariant startPage <= page <= numPages && (npages == 0 ==> page < numPages)
      invariant FirstRun(free, numPages, npages, startPage) == FirstRun(free, numPages, npages, page)
      decreases numPages - page
    {
      if page % 8 == 0 && npages <= 8 && bitmap[page / 8] == 0xFF {
        FullRun(bitmap[..], page, npages);
        return page;
      }
      var i := CountFree(bitmap, page, npages);
      if i == npages {
        return page;
      }
      assert forall q :: page <= q < page + i + 1 ==> !RunAt(free, npages, q);
      FirstRunSkip(free, numPages, npages, page, page + i + 1);
      page := page + i + 1;
    }
    r := numPages;
  }

  lemma AllFull(bytes: seq<bv8>)
    requires forall m :: 0 <= m < |bytes| ==> bytes[m] == 0xFF
    ensures FreePages(bytes) == Range(0, 8 * |bytes|)
  {
    forall i: nat | i < 8 * |bytes|
      ensures i in FreePages(bytes)
    {
      FullByte(bytes, i / 8, i);
    }
  }

  lemma RangeEmpty(p: nat)
    ensures Range(p, 0) == {}
  {
  }

  lemma RangeSnoc(free: set<nat>, p: nat, i: nat)
    ensures free + Range(p, i + 1) == free + Range(p, i) + {p + i}
    ensures free - Range(p, i + 1) == free - Range(p, i) - {p + i}
  {
  }

  lemma RangeSplit(n: nat, m: nat)
    ensures Range(0, n + m) - Range(n, m) == Range(0, n)
  {
  }

  lemma FullRun(bytes: seq<bv8>, page: nat, npages: nat)
    requires page % 8 == 0 && npages <= 8 && page / 8 < |bytes| && bytes[page / 8] == 0xFF
    ensures RunAt(FreePages(bytes), npages, page)
  {
    forall i | page <= i < page + npages
      ensures i in FreePages(bytes)
    {
      FullByte(bytes, page / 8, i);
    }
  }

  datatype Result = Ok(offset: nat) | InvalidArg | NoMemory

  class BitmapAllocator {
    const totalBytes: nat
    const pageSize: nat
    const numPages: nat
    const bitmap: array<bv8>
    var freePages: nat

    /** The pages marked free. */
    ghost function Free(): set<nat>
      reads bitmap
    {
      FreePages(bitmap[..])
    }

    /** No bit past the last page is set, and the counter counts the set bits. */
    ghost predicate Valid()
      reads this, bitmap
    {
      && 0 < pageSize && 0 < numPages && bitmap.Length == (numPages + 7) / 8
      && (forall i :: i in Free() ==> i < numPages)
      && freePages == |Free()|
    }

    /** ba_create after its argument checks: every page free, the spare bits cleared. */
    constructor (totalBytes: nat, pageSize: nat)
      requires 0 < pageSize <= totalBytes && totalBytes + pageSize - 1 < WORD
      ensures Valid() && fresh(bitmap) && this.totalBytes == totalBytes && this.pageSize == pageSize
      ensures numPages == CeilDiv(totalBytes, pageSize) && Free() == Range(0, numPages)
    {
      hide CeilDiv, NumPages, FreePages, Bit;
      var n := NumPages(totalBytes, pageSize);
      var bits := new bv8[(n + 7) / 8](_ => 0xFF);
      this.totalBytes, this.pageSize, numPages, freePages, bitmap := totalBytes, pageSize, n, n, bits;
      new;
      AllFull(bitmap[..]);
      var spare := bitmap.Length * 8 - n;
      ClearSpare(n, spare);
      RangeCard(0, n);
    }

    /** Clear the bits past the last page. */
    method ClearSpare(n: nat, spare: nat)
      requires n + spare == 8 * bitmap.Length && Free() == Range(0, n + spare)
      modifies bitmap
      ensures Free() == Range(0, n)
    {
      Mark(n, spare, false);
      RangeSplit(n, spare);
    }

    /** bitmap_set and bitmap_clear. */
    method Write(page: nat, on: bool)
      requires page < 8 * bitmap.Length
      modifies bitmap
      ensures Free() == if on then old(Free()) + {page} else old(Free()) - {page}
    {
      hide SetBit, ClearBit, Bit;
      PutIs(bitmap[..], page, on);
      ghost var after := Put(bitmap[..], page, on);
      var b := bitmap[page / 8];
      bitmap[page / 8] := if on then SetBit(b, page % 8) else ClearBit(b, page % 8);
      assert bitmap[..] == after;
    }

    /** Mark n pages from page on. */
    method Mark(page: nat, n: nat, on: bool)
      requires page + n <= 8 * bitmap.Length
      modifies bitmap
      ensures Free() == if on then old(Free()) + Range(page, n) else old(Free()) - Range(page, n)
    {
      RangeEmpty(page);
      hide FreePages, Bit, Range;
      for i := 0 to n
        invariant Free() == if on then old(Free()) + Range(page, i) else old(Free()) - Range(page, i)
      {
        Write(page + i, on);
        RangeSnoc(old(Free()), page, i);
      }
    }

    /** ba_alloc: the lowest run of pages, or NO_MEMORY exactly when there is none. */
    method Alloc(numBytes: nat) returns (r: Result, ghost page: nat)
      requires Valid() && numBytes < WORD
      modifies this`freePages, bitmap
      ensures Valid()
      ensures numBytes == 0 <==> r == InvalidArg
      ensures r.Ok? ==> r.offset == page * pageSize
      ensures r.Ok? ==> LowestRun(old(Free()), numPages, PagesFor(numBytes, pageSize), page) &&
                        Free() == old(Free()) - Range(page, PagesFor(numBytes, pageSize))
      ensures r == NoMemory ==> NoRun(old(Free()), PagesFor(numBytes, pageSize))
      ensures !r.Ok? ==> Free() == old(Free())
    {
      hide PagesFor, NoRun, LowestRun, FreePages, Range;
      if numBytes == 0 {
        return InvalidArg, 0;
      }
      var found, first := AllocPages(PagesFor(numBytes, pageSize));
      if !found {
        return NoMemory, 0;
      }
      r, page := Ok(OffsetOf(first, pageSize)), first;
    }

    /** The size checks, the scan and the marking. */
    method AllocPages(npages: nat) returns (found: bool, page: nat)
      requires Valid()
      modifies this`freePages, bitmap
      ensures Valid()
      ensures found ==> LowestRun(old(Free()), numPages, npages, page) && Free() == old(Free()) - Range(page, npages)
      ensures !found ==> NoRun(old(Free()), npages) && Free() == old(Free())
    {
      hide FreePages, FirstRun, NoRun, Bit, SetBit, ClearBit, Range;
      ghost var free := Free();
      if npages > numPages || npages > freePages {
        TooMany(free, npages, numPages);
        return false, 0;
      }
      page := FindFreeRun(bitmap, numPages, 0, npages);
      RunsBelow(free, numPages, npages);
      if page >= numPages {
        return false, 0;
      }
      Take(page, npages);
      found := true;
    }

    /** Clear a free run's bits and count the pages out. */
    method Take(page: nat, npages: nat)
      requires Valid() && page + npages <= numPages && RunAt(Free(), npages, page)
      modifies this`freePages, bitmap
      ensures Valid() && Free() == old(Free()) - Range(page, npages)
    {
      TakeCounts(Free(), page, npages);
      Mark(page, npages, false);
      freePages := freePages - npages;
    }

    /** Set an allocated range's bits and count the pages in. */
    method Give(page: nat, npages: nat)
      requires Valid() && page + npages <= numPages && Range(page, npages) !! Free()
      modifies this`freePages, bitmap
      ensures Valid() && Free() == old(Free()) + Range(page, npages)
    {
      GiveCounts(Free(), page, npages);
      Mark(page, npages, true);
      freePages := freePages + npages;
    }

    /** The scan shared by ba_free and ba_is_allocated: is no page of the range free? */
    method NoneFree(page: nat, npages: nat) returns (b: bool)
      requires page + npages <= 8 * bitmap.Length
      ensures b <==> Range(page, npages) !! Free()
    {
      hide Bit;
      var i := 0;
      while i < npages
        invariant 0 <= i <= npages && Range(page, i) !! Free()
      {
        if Bit(bitmap[(page + i) / 8], (page + i) % 8) {
          assert BitAt(bitmap[..], page + i);
          assert page + i in Range(page, npages);
          return false;
        }
        assert !BitAt(bitmap[..], page + i);
        i := i + 1;
      }
      return true;
    }

    /** The argument checks of ba_free and ba_is_allocated. */
    predicate InBounds(offset: nat, numBytes: nat)
      requires 0 < pageSize
    {
      numBytes > 0 && offset < totalBytes && PageOf(offset, pageSize) + PagesFor(numBytes, pageSize) <= numPages
    }

    /** ba_free: accepted exactly when the range is in bounds and wholly allocated; a rejected free changes nothing. */
    method Release(offset: nat, numBytes: nat) returns (r: Result)
      requires Valid() && numBytes < WORD && PageOf(offset, pageSize) + PagesFor(numBytes, pageSize) < WORD
      modifies this`freePages, bitmap
      ensures Valid()
      ensures r == Ok(0) || r == InvalidArg
      ensures r.Ok? <==>
        (&& numBytes > 0 && offset < totalBytes
         && offset / pageSize + PagesFor(numBytes, pageSize) <= numPages
         && Range(offset / pageSize, PagesFor(numBytes, pageSize)) !! old(Free()))
      ensures r.Ok? ==> Free() == old(Free()) + Range(offset / pageSize, PagesFor(numBytes, pageSize))
      ensures !r.Ok? ==> Free() == old(Free()) && freePages == old(freePages) && bitmap[..] == old(bitmap[..])
    {
      hide FreePages, CeilDiv, PagesFor, Bit;
      if !InBounds(offset, numBytes) {
        return InvalidArg;
      }
      var page, npages := PageOf(offset, pageSize), PagesFor(numBytes, pageSize);
      var ok := NoneFree(page, npages);
      if !ok {
        return InvalidArg;
      }
      Give(page, npages);
      r := Ok(0);
    }

    /** ba_is_allocated answers exactly whether ba_free would accept. */
    method IsAllocated(offset: nat, numBytes: nat) returns (b: bool)
      requires Valid() && numBytes < WORD && PageOf(offset, pageSize) + PagesFor(numBytes, pageSize) < WORD
      ensures b <==>
        (&& numBytes > 0 && offset < totalBytes
         && offset / pageSize + PagesFor(numBytes, pageSize) <= numPages
         && Range(offset / pageSize, PagesFor(numBytes, pageSize)) !! Free())
    {
      hide FreePages, CeilDiv, PagesFor, Bit;
      if !InBounds(offset, numBytes) {
        return false;
      }
      b := NoneFree(PageOf(offset, pageSize), PagesFor(numBytes, pageSize));
    }
  }

  /** Every free page is below total, so FirstRun sees every run. */
  lemma RunsBelow(free: set<nat>, total: nat, n: nat)
    requires 0 < total && forall i :: i in free ==> i < total
    ensures var r := FirstRun(free, total, n, 0);
      && (r < total ==> LowestRun(free, total, n, r))
      && (r >= total ==> NoRun(free, n))
  {
    FirstRunIs(free, total, n, 0);
    var r := FirstRun(free, total, n, 0);
    forall q: nat | q + n > total && n > 0
      ensures !RunAt(free, n, q)
    {
      assert q + n - 1 !in free;
    }
  }

  lemma TooMany(free: set<nat>, n: nat, total: nat)
    requires (forall i :: i in free ==> i < total) && (n > total || n > |free|)
    ensures NoRun(free, n)
  {
    SubsetCard(free, Below(total));
    forall q: nat
      ensures !RunAt(free, n, q)
    {
      if RunAt(free, n, q) {
        RunNeedsPages(free, n, q);
        assert false;
      }
    }
  }

  lemma TakeCounts(free: set<nat>, page: nat, n: nat)
    requires RunAt(free, n, page)
    ensures Range(page, n) <= free && |free - Range(page, n)| == |free| - n
  {
    RangeCard(page, n);
  }

  lemma GiveCounts(free: set<nat>, page: nat, n: nat)
    requires Range(page, n) !! free
    ensures |free + Range(page, n)| == |free| + n
  {
    RangeCard(page, n);
  }

  /** ba_create with its argument checks. */
  method Create(totalBytes: nat, pageSize: nat) returns (ba: BitmapAllocator?)
    requires totalBytes + (if pageSize == 0 then DEFAULT_PAGE_SIZE else pageSize) - 1 < WORD
    ensures var size := if pageSize == 0 then DEFAULT_PAGE_SIZE else pageSize;
      && (ba == null <==> totalBytes < size)
      && (ba != null ==>
           ba.Valid() && fresh(ba) && fresh(ba.bitmap) && ba.pageSize == size && ba.totalBytes == totalBytes &&
                         ba.numPages == CeilDiv(totalBytes, size) && ba.Free() == Range(0, ba.numPages))
  {
    if totalBytes == 0 {
      return null;
    }
    var size := if pageSize == 0 then DEFAULT_PAGE_SIZE else pageSize;
    if totalBytes < size {
      return null;
    }
    ba := new BitmapAllocator(totalBytes, size);
  }
}
