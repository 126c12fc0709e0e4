/** The coalescing free list of one chunk (bmpclient/allocator.py, ChunkBuffer), on values. */
module FreeList {
  import opened Runs

  /** A free piece: size bytes from off on. */
  datatype Piece = Piece(off: nat, size: nat) {
    function End(): nat {
      off + size
    }
  }

  /** The bytes the pieces cover. */
  ghost function Bytes(fl: seq<Piece>): set<nat>
    decreases |fl|
  {
    if fl == [] then {} else Bytes(fl[..|fl| - 1]) + Range(fl[|fl| - 1].off, fl[|fl| - 1].size)
  }

  lemma BytesSnoc(fl: seq<Piece>, p: Piece)
    ensures Bytes(fl + [p]) == Bytes(fl) + Range(p.off, p.size)
  {
    assert (fl + [p])[..|fl|] == fl;
  }

  lemma {:induction false} BytesAppend(a: seq<Piece>, b: seq<Piece>)
    ensures Bytes(a + b) == Bytes(a) + Bytes(b)
    decreases |b|
  {
    if b == [] {
      assert a + b == a;
    } else {
      var front, p := b[..|b| - 1], b[|b| - 1];
      BytesAppend(a, front);
      BytesSnoc(a + front, p);
      BytesSnoc(front, p);
      assert b == front + [p] && a + b == a + front + [p];
    }
  }

  /** A byte is covered exactly by some piece. */
  lemma {:induction false} BytesIs(fl: seq<Piece>, x: nat)
    ensures x in Bytes(fl) <==> exists i :: 0 <= i < |fl| && fl[i].off <= x < fl[i].End()
    decreases |fl|
  {
    if fl != [] {
      BytesIs(fl[..|fl| - 1], x);
      var front := fl[..|fl| - 1];
      assert forall i :: 0 <= i < |front| ==> front[i] == fl[i];
      if x in Bytes(front) {
        var i :| 0 <= i < |front| && front[i].off <= x < front[i].End();
        assert fl[i].off <= x < fl[i].End();
      }
    }
  }

  /** Non-empty pieces in ascending order that do not overlap. */
  ghost predicate Spaced(fl: seq<Piece>) {
    && (forall i :: 0 <= i < |fl| ==> fl[i].size > 0)
    && (forall i, j :: 0 <= i < j < |fl| ==> fl[i].End() <= fl[j].off)
  }

  /** Spaced, and fully coalesced: no piece touches the next. */
  ghost predicate Normal(fl: seq<Piece>) {
    && (forall i :: 0 <= i < |fl| ==> fl[i].size > 0)
    && (forall i, j :: 0 <= i < j < |fl| ==> fl[i].End() < fl[j].off)
  }

  ghost predicate Inside(fl: seq<Piece>, total: nat) {
    forall i :: 0 <= i < |fl| ==> fl[i].End() <= total
  }

  // ---------- a normal list is determined by its bytes ----------

  /** Every run of free bytes lies inside one piece. */
  lemma {:induction false} RunInPiece(fl: seq<Piece>, n: nat, p: nat)
    requires Normal(fl) && n > 0 && RunAt(Bytes(fl), n, p)
    ensures exists i :: 0 <= i < |fl| && fl[i].off <= p && p + n <= fl[i].End()
    decreases n
  {
    assert p in Bytes(fl);
    BytesIs(fl, p);
    if n > 1 {
      RunInPiece(fl, n - 1, p);
      var i :| 0 <= i < |fl| && fl[i].off <= p && p + (n - 1) <= fl[i].End();
      var x := p + n - 1;
      assert x in Bytes(fl);
      BytesIs(fl, x);
      var j :| 0 <= j < |fl| && fl[j].off <= x < fl[j].End();
      SamePiece(fl, i, j, x);
    }
  }

  /** Pieces that share or touch a byte are one piece. */
  lemma SamePiece(fl: seq<Piece>, i: nat, j: nat, x: nat)
    requires Normal(fl) && i < |fl| && j < |fl| && fl[i].off <= x <= fl[i].End() && fl[j].off <= x < fl[j].End()
    ensures i == j
  {
    if i != j {
      assert false;
    }
  }

  lemma PieceIsRun(fl: seq<Piece>, i: nat, n: nat, p: nat)
    requires i < |fl| && fl[i].off <= p && p + n <= fl[i].End()
    ensures RunAt(Bytes(fl), n, p)
  {
    forall x | p <= x < p + n
      ensures x in Bytes(fl)
    {
      assert fl[i].off <= x < fl[i].End();
      BytesIs(fl, x);
    }
  }

  /** Two normal lists over the same bytes are the same list. */
  lemma {:induction false} NormalUnique(a: seq<Piece>, b: seq<Piece>)
    requires Normal(a) && Normal(b) && Bytes(a) == Bytes(b)
    ensures a == b
    decreases |a|
  {
    if a == [] || b == [] {
      EmptyBytes(a);
      EmptyBytes(b);
    } else {
      var x, y := a[|a| - 1], b[|b| - 1];
      LastPiece(a, b);
      LastPiece(b, a);
      assert x == y;
      BytesSnoc(a[..|a| - 1], x);
      BytesSnoc(b[..|b| - 1], y);
      FrontApart(a);
      FrontApart(b);
      NormalUnique(a[..|a| - 1], b[..|b| - 1]);
    }
  }

  lemma EmptyBytes(a: seq<Piece>)
    requires Normal(a)
    ensures Bytes(a) == {} <==> a == []
  {
    if a != [] {
      assert a[0].off <= a[0].off < a[0].End();
      BytesIs(a, a[0].off);
    }
  }

  /** The last piece of a lies inside the last piece of b. */
  lemma LastPiece(a: seq<Piece>, b: seq<Piece>)
    requires Normal(a) && Normal(b) && Bytes(a) == Bytes(b) && a != [] && b != []
    ensures b[|b| - 1].off <= a[|a| - 1].off && a[|a| - 1].End() <= b[|b| - 1].End()
  {
    var x, y := a[|a| - 1], b[|b| - 1];
    PieceIsRun(a, |a| - 1, x.size, x.off);
    RunInPiece(b, x.size, x.off);
    var i :| 0 <= i < |b| && b[i].off <= x.off && x.off + x.size <= b[i].End();
    assert y.off <= y.End() - 1 < y.End();
    BytesIs(b, y.End() - 1);
    BelowLast(a, y.End() - 1);
    if i < |b| - 1 {
      assert false;
    }
  }

  lemma BelowLast(a: seq<Piece>, x: nat)
    requires Normal(a) && x in Bytes(a)
    ensures a != [] && x < a[|a| - 1].End()
  {
    BytesIs(a, x);
    var j :| 0 <= j < |a| && a[j].off <= x < a[j].End();
    if j < |a| - 1 {
      assert a[j].End() < a[|a| - 1].off;
    }
  }

  lemma FrontApart(a: seq<Piece>)
    requires Normal(a) && a != []
    ensures Normal(a[..|a| - 1])
    ensures Bytes(a[..|a| - 1]) == Bytes(a) - Range(a[|a| - 1].off, a[|a| - 1].size)
  {
    var front, p := a[..|a| - 1], a[|a| - 1];
    BytesSnoc(front, p);
    assert a == front + [p];
    forall x | x in Bytes(front)
      ensures x !in Range(p.off, p.size)
    {
      BeforeLast(a, x);
    }
    hide Bytes, Range, Normal;
    TakeBack(Bytes(front), Range(p.off, p.size), Bytes(a));
  }

  lemma BeforeLast(a: seq<Piece>, x: nat)
    requires Normal(a) && a != [] && x in Bytes(a[..|a| - 1])
    ensures x < a[|a| - 1].off
  {
    hide Bytes;
    var front := a[..|a| - 1];
    BytesIs(front, x);
    var i :| 0 <= i < |front| && front[i].off <= x < front[i].End();
    assert a[i].End() < a[|a| - 1].off;
  }

  lemma TakeBack(rest: set<nat>, part: set<nat>, all: set<nat>)
    requires all == rest + part && rest !! part
    ensures rest == all - part
  {
  }

  /** The list of a chunk nothing of which is in use. */
  lemma WholeChunk(fl: seq<Piece>, total: nat)
    requires Normal(fl) && total > 0
    ensures fl == [Piece(0, total)] <==> Bytes(fl) == Range(0, total)
  {
    var whole := [Piece(0, total)];
    BytesSnoc([], Piece(0, total));
    assert [] + whole == whole && Bytes([]) == {};
    assert Bytes(whole) == Range(0, total);
    hide Bytes, Range;
    if Bytes(fl) == Range(0, total) {
      NormalUnique(fl, whole);
    }
  }

  // ---------- first fit ----------

  /** The list after cutting size bytes off the front of piece k. */
  function Cut(fl: seq<Piece>, k: nat, size: nat): seq<Piece>
    requires k < |fl| && size <= fl[k].size
  {
    if fl[k].size == size then fl[..k] + fl[k + 1..] else fl[k := Piece(fl[k].off + size, fl[k].size - size)]
  }

  lemma CutNormal(fl: seq<Piece>, k: nat, size: nat, total: nat)
    requires Normal(fl) && Inside(fl, total) && k < |fl| && 0 < size <= fl[k].size
    ensures Normal(Cut(fl, k, size)) && Inside(Cut(fl, k, size), total)
  {
    var r := Cut(fl, k, size);
    if fl[k].size == size {
      assert forall i :: 0 <= i < |r| ==> r[i] == if i < k then fl[i] else fl[i + 1];
    }
  }

  lemma CutBytes(fl: seq<Piece>, k: nat, size: nat)
    requires Normal(fl) && k < |fl| && 0 < size <= fl[k].size
    ensures Bytes(Cut(fl, k, size)) == Bytes(fl) - Range(fl[k].off, size)
  {
    PiecesApart(fl, k);
    hide Bytes, Normal, Range, Cut;
    var a, p, b := fl[..k], fl[k], fl[k + 1..];
    assert a + [p] + b == fl;
    if p.size == size {
      CutAll(a, p, b);
    } else {
      CutPart(a, p, b, size);
    }
  }

  lemma CutSplit(a: seq<Piece>, p: Piece, b: seq<Piece>, size: nat)
    requires size <= p.size
    ensures Cut(a + [p] + b, |a|, size) == if p.size ==
      size then a + b else a + [Piece(p.off + size, p.size - size)] + b
  {
  }

  lemma CutAll(a: seq<Piece>, p: Piece, b: seq<Piece>)
    requires Bytes(a) !! Range(p.off, p.size) && Bytes(b) !! Range(p.off, p.size)
    ensures Bytes(Cut(a + [p] + b, |a|, p.size)) == Bytes(a + [p] + b) - Range(p.off, p.size)
  {
    hide Bytes, Range, Cut;
    CutSplit(a, p, b, p.size);
    ThreeParts(a, p, b);
    BytesAppend(a, b);
  }

  lemma CutPart(a: seq<Piece>, p: Piece, b: seq<Piece>, size: nat)
    requires Bytes(a) !! Range(p.off, p.size) && Bytes(b) !! Range(p.off, p.size) && size < p.size
    ensures Bytes(Cut(a + [p] + b, |a|, size)) == Bytes(a + [p] + b) - Range(p.off, size)
  {
    hide Bytes, Range, Cut;
    CutSplit(a, p, b, size);
    var q := Piece(p.off + size, p.size - size);
    ThreeParts(a, p, b);
    ThreeParts(a, q, b);
    RangeCat(p.off, size, p.size - size);
    SetCut(Bytes(a), Range(p.off, size), Range(q.off, q.size), Bytes(b));
  }

  lemma ThreeParts(a: seq<Piece>, p: Piece, b: seq<Piece>)
    ensures Bytes(a + [p] + b) == Bytes(a) + Range(p.off, p.size) + Bytes(b)
  {
    BytesAppend(a + [p], b);
    BytesSnoc(a, p);
  }

  lemma RangeCat(p: nat, n: nat, m: nat)
    ensures Range(p, n + m) == Range(p, n) + Range(p + n, m) && Range(p, n) !! Range(p + n, m)
  {
  }

  lemma SetCut(a: set<nat>, x: set<nat>, y: set<nat>, b: set<nat>)
    requires a !! x + y && b !! x + y && x !! y
    ensures a + (x + y) + b - x == a + y + b
  {
  }

  /** The other pieces share no byte with piece k. */
  lemma PiecesApart(fl: seq<Piece>, k: nat)
    requires Normal(fl) && k < |fl|
    ensures Bytes(fl[..k]) !! Range(fl[k].off, fl[k].size) && Bytes(fl[k + 1..]) !! Range(fl[k].off, fl[k].size)
  {
    var a, b := fl[..k], fl[k + 1..];
    forall x | x in Bytes(a)
      ensures x < fl[k].off
    {
      BytesIs(a, x);
      var i :| 0 <= i < |a| && a[i].off <= x < a[i].End();
      assert a[i] == fl[i];
    }
    forall x | x in Bytes(b)
      ensures x >= fl[k].End()
    {
      BytesIs(b, x);
      var i :| 0 <= i < |b| && b[i].off <= x < b[i].End();
      assert b[i] == fl[k + 1 + i];
    }
  }

  /** The first piece that is large enough starts the lowest run of that many free bytes. */
  lemma FirstFitLowest(fl: seq<Piece>, k: nat, size: nat, total: nat)
    requires Normal(fl) && Inside(fl, total) && k < |fl| && 0 < size <= fl[k].size
    requires forall i :: 0 <= i < k ==> fl[i].size < size
    ensures LowestRun(Bytes(fl), total, size, fl[k].off)
  {
    PieceIsRun(fl, k, size, fl[k].off);
    forall q: nat | q < fl[k].off
      ensures !RunAt(Bytes(fl), size, q)
    {
      if RunAt(Bytes(fl), size, q) {
        RunsLater(fl, k, size, q);
        assert false;
      }
    }
  }

  lemma RunsLater(fl: seq<Piece>, k: nat, size: nat, q: nat)
    requires Normal(fl) && k < |fl| && 0 < size && RunAt(Bytes(fl), size, q)
    requires forall i :: 0 <= i < k ==> fl[i].size < size
    ensures fl[k].off <= q
  {
    RunInPiece(fl, size, q);
    var i :| 0 <= i < |fl| && fl[i].off <= q && q + size <= fl[i].End();
    assert k <= i;
    if k < i {
      assert fl[k].End() < fl[i].off;
    }
  }

  lemma NoneFits(fl: seq<Piece>, size: nat)
    requires Normal(fl) && size > 0 && forall i :: 0 <= i < |fl| ==> fl[i].size < size
    ensures NoRun(Bytes(fl), size)
  {
    forall q: nat
      ensures !RunAt(Bytes(fl), size, q)
    {
      if RunAt(Bytes(fl), size, q) {
        RunInPiece(fl, size, q);
        assert false;
      }
    }
  }

  // ---------- giving a range back ----------

  /** The freed piece put in its place by offset. */
  function Inserted(fl: seq<Piece>, k: nat, p: Piece): seq<Piece>
    requires k <= |fl|
  {
    fl[..k] + [p] + fl[k..]
  }

  lemma InsertedSpaced(fl: seq<Piece>, k: nat, p: Piece)
    requires Normal(fl) && k <= |fl| && p.size > 0 && Range(p.off, p.size) !! Bytes(fl)
    requires (forall i :: 0 <= i < k ==> fl[i].off <= p.off) && (forall i :: k <= i < |fl| ==> p.off < fl[i].off)
    ensures Spaced(Inserted(fl, k, p)) && Bytes(Inserted(fl, k, p)) == Bytes(fl) + Range(p.off, p.size)
  {
    hide Bytes, Range;
    var r := Inserted(fl, k, p);
    forall i | 0 <= i < |fl|
      ensures (i < k ==> fl[i].End() <= p.off) && (i >= k ==> p.End() <= fl[i].off)
    {
      PiecesDisjoint(fl, i, p);
    }
    InsertedBytes(fl, k, p);
    InsertedOrder(fl, k, p);
  }

  lemma InsertedOrder(fl: seq<Piece>, k: nat, p: Piece)
    requires Normal(fl) && k <= |fl| && p.size > 0
    requires (forall i :: 0 <= i < k ==> fl[i].End() <= p.off) && (forall i :: k <= i < |fl| ==> p.End() <= fl[i].off)
    ensures Spaced(Inserted(fl, k, p))
  {
    hide Inserted;
    var r := Inserted(fl, k, p);
    InsertedAt(fl, k, p);
    forall i, j | 0 <= i < j < |r|
      ensures r[i].End() <= r[j].off
    {
      if i < k && j < k {
        assert r[i] == fl[i] && r[j] == fl[j];
      } else if i < k && j == k {
        assert r[i] == fl[i] && r[j] == p;
      } else if i < k {
        assert r[i] == fl[i] && r[j] == fl[j - 1];
      } else if i == k {
        assert r[i] == p && r[j] == fl[j - 1];
      } else {
        assert r[i] == fl[i - 1] && r[j] == fl[j - 1];
      }
    }
  }

  lemma InsertedAt(fl: seq<Piece>, k: nat, p: Piece)
    requires k <= |fl|
    ensures var r := Inserted(fl, k, p);
      && |r| == |fl| + 1 && r[k] == p
      && (forall i :: 0 <= i < k ==> r[i] == fl[i])
      && (forall i :: k < i < |r| ==> r[i] == fl[i - 1])
  {
  }

  lemma InsertedBytes(fl: seq<Piece>, k: nat, p: Piece)
    requires k <= |fl|
    ensures Bytes(Inserted(fl, k, p)) == Bytes(fl) + Range(p.off, p.size)
  {
    hide Bytes, Range;
    ThreeParts(fl[..k], p, fl[k..]);
    BytesAppend(fl[..k], fl[k..]);
    assert fl == fl[..k] + fl[k..];
  }

  lemma PiecesDisjoint(fl: seq<Piece>, i: nat, p: Piece)
    requires i < |fl| && fl[i].size > 0 && p.size > 0 && Range(p.off, p.size) !! Bytes(fl)
    ensures fl[i].End() <= p.off || p.End() <= fl[i].off
  {
    var x := if fl[i].off <= p.off then p.off else fl[i].off;
    if fl[i].off <= x < fl[i].End() {
      BytesIs(fl, x);
      assert x !in Range(p.off, p.size);
    }
  }

  /** One step of the merge loop. */
  function Join(merged: seq<Piece>, p: Piece): seq<Piece> {
    if merged != [] && merged[|merged| - 1].End() == p.off
    then merged[|merged| - 1 := Piece(merged[|merged| - 1].off, merged[|merged| - 1].size + p.size)]
    else merged + [p]
  }

  lemma JoinKeeps(merged: seq<Piece>, p: Piece)
    requires Normal(merged) && p.size > 0 && (merged != [] ==> merged[|merged| - 1].End() <= p.off)
    ensures Normal(Join(merged, p)) && Join(merged, p) != [] && Join(merged, p)[|Join(merged, p)| - 1].End() == p.End()
    ensures Bytes(Join(merged, p)) == Bytes(merged) + Range(p.off, p.size)
  {
    hide Bytes, Range;
    var r := Join(merged, p);
    if merged != [] && merged[|merged| - 1].End() == p.off {
      var front, last := merged[..|merged| - 1], merged[|merged| - 1];
      var q := Piece(last.off, last.size + p.size);
      assert merged == front + [last] && r == front + [q];
      BytesSnoc(front, last);
      BytesSnoc(front, q);
      RangeCat(last.off, last.size, p.size);
      assert forall i :: 0 <= i < |front| ==> front[i] == merged[i];
    } else {
      BytesSnoc(merged, p);
      assert forall i :: 0 <= i < |r| ==> r[i] == if i < |merged| then merged[i] else p;
    }
  }

  lemma InsideByBytes(fl: seq<Piece>, total: nat)
    requires (forall i :: 0 <= i < |fl| ==> fl[i].size > 0) && forall x :: x in Bytes(fl) ==> x < total
    ensures Inside(fl, total)
  {
    forall i | 0 <= i < |fl|
      ensures fl[i].End() <= total
    {
      var x := fl[i].End() - 1;
      assert fl[i].off <= x < fl[i].End();
      BytesIs(fl, x);
    }
  }
}
