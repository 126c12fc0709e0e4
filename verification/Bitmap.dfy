/** The bytes of a page bitmap, one bit per page, and the set of pages they mark free. */
module Bitmap {

  /** bitmap_get on one byte. */
  function Bit(b: bv8, k: nat): bool
    requires k < 8
  {
    (b >> k) & 1 == 1
  }

  /** bitmap_set on one byte. */
  function SetBit(b: bv8, k: nat): (r: bv8)
    requires k < 8
  {
    b | (1 << k)
  }

  /** bitmap_clear on one byte. */
  function ClearBit(b: bv8, k: nat): (r: bv8)
    requires k < 8
  {
    b & !(1 << k)
  }

  lemma SetBitIs(b: bv8, k: nat, j: nat)
    requires k < 8 && j < 8
    ensures Bit(SetBit(b, k), j) <==> j == k || Bit(b, j)
  {
    if k == 0 {} else if k == 1 {} else if k == 2 {} else if k == 3 {} else if k == 4 {}
    else if k == 5 {} else if k == 6 {} else {}
  }

  lemma ClearBitIs(b: bv8, k: nat, j: nat)
    requires k < 8 && j < 8
    ensures Bit(ClearBit(b, k), j) <==> j != k && Bit(b, j)
  {
    if k == 0 {} else if k == 1 {} else if k == 2 {} else if k == 3 {} else if k == 4 {}
    else if k == 5 {} else if k == 6 {} else {}
  }

  lemma AllOnes(j: nat)
    requires j < 8
    ensures Bit(0xFF, j)
  {
    if j == 0 {} else if j == 1 {} else if j == 2 {} else if j == 3 {} else if j == 4 {}
    else if j == 5 {} else if j == 6 {} else {}
  }

  /** Bit of page i in a run of bytes. */
  ghost predicate BitAt(bytes: seq<bv8>, i: nat)
    requires i < 8 * |bytes|
  {
    Bit(bytes[i / 8], i % 8)
  }

  /** The pages marked free. */
  ghost function FreePages(bytes: seq<bv8>): (r: set<nat>)
    ensures forall i :: i in r <==> 0 <= i < 8 * |bytes| && BitAt(bytes, i)
  {
    set i: nat | 0 <= i < 8 * |bytes| && BitAt(bytes, i)
  }

  ghost function Put(bytes: seq<bv8>, i: nat, on: bool): (r: seq<bv8>)
    requires i < 8 * |bytes|
    ensures |r| == |bytes|
  {
    var b := bytes[i / 8];
    bytes[i / 8 := if on then SetBit(b, i % 8) else ClearBit(b, i % 8)]
  }

  /** Setting a bit adds exactly its page, clearing it removes exactly that page. */
  lemma PutIs(bytes: seq<bv8>, i: nat, on: bool)
    requires i < 8 * |bytes|
    ensures FreePages(Put(bytes, i, on)) == if on then FreePages(bytes) + {i} else FreePages(bytes) - {i}
  {
    hide Bit, SetBit, ClearBit;
    var after := Put(bytes, i, on);
    forall j: nat | j < 8 * |bytes|
      ensures BitAt(after, j) <==> if j == i then on else BitAt(bytes, j)
    {
      if j / 8 == i / 8 {
        SetBitIs(bytes[i / 8], i % 8, j % 8);
        ClearBitIs(bytes[i / 8], i % 8, j % 8);
      }
    }
  }

  /** A full byte marks its eight pages free. */
  lemma FullByte(bytes: seq<bv8>, m: nat, i: nat)
    requires m < |bytes| && bytes[m] == 0xFF && 8 * m <= i < 8 * m + 8
    ensures i in FreePages(bytes)
  {
    AllOnes(i % 8);
  }
}
