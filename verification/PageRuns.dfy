/**
  Whole runs of the page allocator: live blocks never overlap, every page is free or in exactly one live block, and
  freeing everything restores the whole arena.
 */
module PageRuns {
  import opened Arith
  import opened Ownership
  import opened PageAllocator
  import opened Runs
  import opened Sums

  /** The arena: its bytes and page size, as ba_create fixes them. */
  datatype Arena = Arena(totalBytes: nat, pageSize: nat) {
    ghost predicate Ok() {
      0 < pageSize <= totalBytes < WORD
    }
    ghost function Pages(): nat
      requires Ok()
    {
      CeilDiv(totalBytes, pageSize)
    }
  }

  datatype Op = Alloc(numBytes: nat) | Release(offset: nat, numBytes: nat)

  /** ba_free's decision, as the methods' contracts state it. */
  ghost predicate Accepts(a: Arena, free: set<nat>, offset: nat, numBytes: nat)
    requires a.Ok()
  {
    && numBytes > 0 && offset < a.totalBytes && PageOf(offset, a.pageSize) + PagesFor(numBytes, a.pageSize) <= a.Pages()
    && Range(PageOf(offset, a.pageSize), PagesFor(numBytes, a.pageSize)) !! free
  }

  /** What one call does to the free pages and to the caller's live blocks. */
  ghost function Next(a: Arena, s: State, op: Op): State
    requires a.Ok()
  {
    match op
    case Alloc(numBytes) =>
      var n := PagesFor(numBytes, a.pageSize);
      var p := FirstRun(s.free, a.Pages(), n, 0);
      if numBytes == 0 || p >= a.Pages() || n == 0 then s else State(s.free - Range(p, n), s.live + {Block(p, n)})
    case Release(offset, numBytes) =>
      var b := Block(PageOf(offset, a.pageSize), PagesFor(numBytes, a.pageSize));
      if Accepts(a, s.free, offset, numBytes) then State(s.free + Owned(b), s.live - {b}) else s
  }

  /** What Alloc's contract promises is what Next describes. */
  lemma AllocIsNext(free: set<nat>, total: nat, n: nat, p: nat)
    requires 0 < total && forall i :: i in free ==> i < total
    ensures LowestRun(free, total, n, p) <==> p < total && FirstRun(free, total, n, 0) == p
    ensures NoRun(free, n) <==> FirstRun(free, total, n, 0) == total
  {
    RunsBelow(free, total, n);
    if LowestRun(free, total, n, p) {
      FirstRunUnique(free, total, n, 0, p);
    }
  }

  /** Callers free what they were given, or make a call that will be rejected. */
  ghost predicate Lawful(a: Arena, s: State, op: Op)
    requires a.Ok()
  {
    op.Release? && Accepts(a, s.free, op.offset, op.numBytes) ==>
      Block(PageOf(op.offset, a.pageSize), PagesFor(op.numBytes, a.pageSize)) in s.live
  }

  lemma StepKeeps(a: Arena, s: State, op: Op)
    requires a.Ok() && Inv(s, a.Pages()) && Lawful(a, s, op)
    ensures Inv(Next(a, s, op), a.Pages())
  {
    hide Inv, FirstRun, PagesFor, PageOf, CeilDiv;
    match op
    case Alloc(numBytes) =>
      var n := PagesFor(numBytes, a.pageSize);
      FirstRunIs(s.free, a.Pages(), n, 0);
      var p := FirstRun(s.free, a.Pages(), n, 0);
      if p < a.Pages() && n > 0 {
        AllocKeeps(s, a.Pages(), p, n);
      }
    case Release(offset, numBytes) =>
      if Accepts(a, s.free, offset, numBytes) {
        ReleaseKeeps(s, a.Pages(), Block(PageOf(offset, a.pageSize), PagesFor(numBytes, a.pageSize)));
      }
  }

  /** The states reached by n calls. */
  ghost function Run(a: Arena, s: State, ops: seq<Op>): State
    requires a.Ok()
    decreases |ops|
  {
    if ops == [] then s else Run(a, Next(a, s, ops[0]), ops[1..])
  }

  ghost predicate LawfulRun(a: Arena, s: State, ops: seq<Op>)
    requires a.Ok()
    decreases |ops|
  {
    ops == [] || (Lawful(a, s, ops[0]) && LawfulRun(a, Next(a, s, ops[0]), ops[1..]))
  }

  lemma {:induction false} RunKeeps(a: Arena, s: State, ops: seq<Op>)
    requires a.Ok() && Inv(s, a.Pages()) && LawfulRun(a, s, ops)
    ensures Inv(Run(a, s, ops), a.Pages())
    decreases |ops|
  {
    hide Inv, Next, Lawful, Arena.Pages;
    if ops != [] {
      StepKeeps(a, s, ops[0]);
      RunKeeps(a, Next(a, s, ops[0]), ops[1..]);
    }
  }

  /**
    After any lawful run from a new arena live blocks are disjoint, pages are conserved, and once nothing is live all
    is free.
   */
  lemma LiveDisjoint(a: Arena, ops: seq<Op>)
    requires a.Ok() && LawfulRun(a, Initial(a.Pages()), ops)
    ensures var s := Run(a, Initial(a.Pages()), ops);
      && Inv(s, a.Pages())
      && |s.free| + Sum(s.live, Size()) == a.Pages()
      && (s.live == {} ==> s == Initial(a.Pages()))
  {
    hide Run, LawfulRun, Arena.Pages;
    var s := Run(a, Initial(a.Pages()), ops);
    InitialInv(a.Pages());
    RunKeeps(a, Initial(a.Pages()), ops);
    Conserved(s, a.Pages());
    if s.live == {} {
      NothingLive(s, a.Pages());
    }
  }

  /**
    A live block handed back with the offset and size it was requested with is accepted, whatever happened in between.
   */
  lemma LiveFreeable(a: Arena, s: State, b: Block, numBytes: nat)
    requires a.Ok() && Inv(s, a.Pages()) && b in s.live && PagesFor(numBytes, a.pageSize) == b.n && numBytes > 0
    ensures Accepts(a, s.free, OffsetOf(b.start, a.pageSize), numBytes)
    ensures Lawful(a, s, Release(OffsetOf(b.start, a.pageSize), numBytes))
  {
    hide PagesFor;
    assert Placed(b, s.free, a.Pages());
    PageOfOffset(b.start, a.pageSize);
    OffsetInside(b.start, a);
  }

  lemma PageOfOffset(page: nat, pageSize: nat)
    requires 0 < pageSize
    ensures PageOf(OffsetOf(page, pageSize), pageSize) == page
  {
    DivUnique(page, 0, pageSize);
  }

  lemma OffsetInside(page: nat, a: Arena)
    requires a.Ok() && page < a.Pages()
    ensures OffsetOf(page, a.pageSize) < a.totalBytes
  {
    MulMono(page, a.Pages() - 1, a.pageSize);
  }

  /** A second free of the same range is rejected and changes nothing. */
  lemma DoubleFreeRejected(a: Arena, s: State, offset: nat, numBytes: nat)
    requires a.Ok() && Accepts(a, s.free, offset, numBytes) && PagesFor(numBytes, a.pageSize) > 0
    ensures var t := Next(a, s, Release(offset, numBytes)); Next(a, t, Release(offset, numBytes)) == t
  {
    var page := PageOf(offset, a.pageSize);
    assert page in Range(page, PagesFor(numBytes, a.pageSize));
  }

  /** What alloc hands out covers the requested bytes exactly when the rounding does not wrap. */
  lemma AllocCovers(numBytes: nat, pageSize: nat)
    requires 0 < numBytes < WORD && 0 < pageSize < WORD
    ensures PagesFor(numBytes, pageSize) * pageSize >= numBytes <==> numBytes + pageSize - 1 < WORD
  {
    PagesForExact(numBytes, pageSize);
  }

  /** Freeing what was just allocated restores the state. */
  lemma AllocThenFree(a: Arena, s: State, numBytes: nat)
    requires a.Ok() && Inv(s, a.Pages()) && numBytes > 0 && PagesFor(numBytes, a.pageSize) > 0
    requires FirstRun(s.free, a.Pages(), PagesFor(numBytes, a.pageSize), 0) < a.Pages()
    ensures var p := FirstRun(s.free, a.Pages(), PagesFor(numBytes, a.pageSize), 0);
      Next(a, Next(a, s, Alloc(numBytes)), Release(OffsetOf(p, a.pageSize), numBytes)) == s
  {
    hide PagesFor, FirstRun, Arena.Pages, PageOf, OffsetOf;
    var n := PagesFor(numBytes, a.pageSize);
    var p := FirstRun(s.free, a.Pages(), n, 0);
    FirstRunIs(s.free, a.Pages(), n, 0);
    StepKeeps(a, s, Alloc(numBytes));
    var t := Next(a, s, Alloc(numBytes));
    LiveFreeable(a, t, Block(p, n), numBytes);
    PageOfOffset(p, a.pageSize);
    RunInside(s.free, p, n);
    assert t.free + Range(p, n) == s.free;
    NotYetLive(s, a.Pages(), p, n);
    assert t.live - {Block(p, n)} == s.live;
  }
}
