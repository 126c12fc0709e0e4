/**
  Who holds what in an allocator's space: live blocks never overlap each other or the free units, and together with them
  make up the whole space.
 */
module Ownership {
  import opened Finite
  import opened Runs
  import opened Sums

  /** A live allocation: n units from start on. */
  datatype Block = Block(start: nat, n: nat)

  /** The free units and, as bookkeeping of the caller's side, the allocations not yet freed. */
  datatype State = State(free: set<nat>, live: set<Block>)

  ghost function Owned(b: Block): set<nat> {
    Range(b.start, b.n)
  }

  /** Blocks are non-empty, inside the arena, apart from each other and from the free units, and together cover it. */
  ghost predicate Inv(s: State, total: nat) {
    && (forall i :: i in s.free ==> i < total)
    && (forall b :: b in s.live ==> Placed(b, s.free, total))
    && (forall b, c :: b in s.live && c in s.live && b != c ==> Owned(b) !! Owned(c))
    && (forall i :: 0 <= i < total && i !in s.free ==> HasOwner(s.live, i))
  }

  ghost predicate Placed(b: Block, free: set<nat>, total: nat) {
    b.n > 0 && b.start + b.n <= total && Owned(b) !! free
  }

  ghost predicate HasOwner(live: set<Block>, i: nat) {
    exists b :: b in live && i in Owned(b)
  }

  ghost function Initial(total: nat): State {
    State(Range(0, total), {})
  }

  lemma AllocKeeps(s: State, total: nat, p: nat, n: nat)
    requires Inv(s, total) && n > 0 && p + n <= total && RunAt(s.free, n, p)
    ensures Inv(State(s.free - Range(p, n), s.live + {Block(p, n)}), total)
  {
    hide Range;
    var t := State(s.free - Range(p, n), s.live + {Block(p, n)});
    RunInside(s.free, p, n);
    forall i | 0 <= i < total && i !in t.free
      ensures HasOwner(t.live, i)
    {
      if i in Range(p, n) {
        assert Block(p, n) in t.live && i in Owned(Block(p, n));
      } else {
        assert HasOwner(s.live, i);
        var b :| b in s.live && i in Owned(b);
        assert b in t.live;
      }
    }
    forall b | b in t.live
      ensures Placed(b, t.free, total)
    {
      assert b == Block(p, n) || Placed(b, s.free, total);
    }
    forall b, c | b in t.live && c in t.live && b != c
      ensures Owned(b) !! Owned(c)
    {
      assert b != Block(p, n) ==> Placed(b, s.free, total);
      assert c != Block(p, n) ==> Placed(c, s.free, total);
    }
  }

  lemma RunInside(free: set<nat>, p: nat, n: nat)
    requires RunAt(free, n, p)
    ensures Range(p, n) <= free
  {
  }

  lemma ReleaseKeeps(s: State, total: nat, b: Block)
    requires Inv(s, total) && b in s.live
    ensures Inv(State(s.free + Owned(b), s.live - {b}), total)
  {
    var t := State(s.free + Owned(b), s.live - {b});
    assert Placed(b, s.free, total);
    InsideArena(b, total);
    hide Owned;
    forall i | 0 <= i < total && i !in t.free
      ensures HasOwner(t.live, i)
    {
      assert HasOwner(s.live, i);
      var c :| c in s.live && i in Owned(c);
      assert c in t.live;
    }
    forall c | c in t.live
      ensures Placed(c, t.free, total)
    {
      assert Placed(c, s.free, total) && Owned(c) !! Owned(b);
    }
  }

  lemma InsideArena(b: Block, total: nat)
    requires b.start + b.n <= total
    ensures forall i :: i in Owned(b) ==> i < total
  {
  }

  ghost function Size(): Block -> int {
    (b: Block) => b.n
  }

  lemma InitialInv(total: nat)
    ensures Inv(Initial(total), total)
  {
  }

  lemma NothingLive(s: State, total: nat)
    requires Inv(s, total) && s.live == {}
    ensures s == Initial(total)
  {
    forall i | 0 <= i < total
      ensures i in s.free
    {
      assert !HasOwner(s.live, i);
    }
  }

  /** Free units plus the sizes of the live blocks make up the arena. */
  lemma {:induction false} Conserved(s: State, total: nat)
    requires Inv(s, total)
    ensures |s.free| + Sum(s.live, Size()) == total
    decreases |s.live|
  {
    hide Inv;
    if s.live == {} {
      NothingLive(s, total);
      RangeCard(0, total);
    } else {
      var b := Pick(s.live);
      var t := State(s.free + Owned(b), s.live - {b});
      ReleaseKeeps(s, total, b);
      Conserved(t, total);
      SumRemove(s.live, Size(), b);
      OwnedApart(s, total, b);
      RangeCard(b.start, b.n);
    }
  }

  lemma OwnedApart(s: State, total: nat, b: Block)
    requires Inv(s, total) && b in s.live
    ensures |s.free + Owned(b)| == |s.free| + |Owned(b)|
  {
    assert Placed(b, s.free, total);
  }

  lemma NotYetLive(s: State, total: nat, p: nat, n: nat)
    requires Inv(s, total) && n > 0 && Range(p, n) <= s.free
    ensures Block(p, n) !in s.live
  {
    assert p in Range(p, n) && p in s.free;
    assert !Placed(Block(p, n), s.free, total);
  }
}
