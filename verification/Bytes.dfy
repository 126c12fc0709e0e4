/** Byte strings: in-place overwriting of a range, and what a later read of a range sees. */
module Bytes {

  type byte = x: int | 0 <= x < 256

  /** s with the bytes from position at on replaced by data. */
  function Splice(s: seq<byte>, at: nat, data: seq<byte>): (r: seq<byte>)
    requires at + |data| <= |s|
    ensures |r| == |s|
  {
    s[..at] + data + s[at + |data|..]
  }

  /** Reading back a range inside the overwritten one gives the new data. */
  lemma SpliceInside(s: seq<byte>, at: nat, data: seq<byte>, from: nat, n: nat)
    requires at + |data| <= |s|
    requires at <= from && from + n <= at + |data|
    ensures Splice(s, at, data)[from..from + n] == data[from - at..from - at + n]
  {
  }

  /** Reading a range disjoint from the overwritten one gives the old bytes. */
  lemma SpliceOutside(s: seq<byte>, at: nat, data: seq<byte>, from: nat, n: nat)
    requires at + |data| <= |s| && from + n <= |s|
    requires from + n <= at || at + |data| <= from
    ensures Splice(s, at, data)[from..from + n] == s[from..from + n]
  {
    var r := Splice(s, at, data);
    assert forall i :: from <= i < from + n ==> r[i] == s[i];
  }

  function Zeros(n: nat): (r: seq<byte>)
    ensures |r| == n
  {
    seq(n, i => 0)
  }
}
