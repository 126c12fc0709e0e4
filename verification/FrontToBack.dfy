/** A device that releases nothing fills its extent front to back: unit k goes to byte k * unit. */
module FrontToBack {
  import opened Arith
  import opened Bytes
  import opened Segment

  /** The free stack holds segments s and up, the lowest on top. */
  ghost predicate FreeFrom(d: Device, s: nat) {
    |d.free| + s == d.geo.segments && forall i :: 0 <= i < |d.free| ==> d.free[i] == d.geo.segments - 1 - i
  }

  /** Segments below s are full and written; s holds the last units, its counter says how many. */
  ghost predicate Front(d: Device, s: nat, fill: nat) {
    && WellFormed(d) && d.buf.Filling? && d.buf.seg == s && d.buf.fill == fill && 0 < fill && s < d.geo.segments
    && FreeFrom(d, s + 1) && d.refs[s] == fill
    && (forall j :: s < j < d.geo.segments ==> d.refs[j] == 0)
  }

  /** n units were appended to a new device. */
  ghost predicate Filled(d: Device, n: nat) {
    if n == 0 then
      WellFormed(d) && d.buf.NoBuffer? && FreeFrom(d, 0) && forall j :: 0 <= j < |d.refs| ==> d.refs[j] == 0
    else exists s: nat, fill: nat :: Front(d, s, fill) && s * d.geo.slots + fill == n
  }

  lemma UnitsBefore(g: Geometry, s: nat, fill: nat)
    requires g.Ok()
    ensures s * g.sp + fill * g.unit == (s * g.slots + fill) * g.unit
  {
    assert (s * g.slots) * g.unit == s * (g.slots * g.unit);
  }

  /** Room in the open segment: its next slot. */
  lemma NextSlot(d: Device, data: seq<byte>, s: nat, fill: nat)
    requires Front(d, s, fill) && fill < d.geo.slots && |data| == d.geo.unit
    ensures Append(d, data).1 == Ok(s * d.geo.sp + fill * d.geo.unit) && Front(Append(d, data).0, s, fill + 1)
  {
    SlotInSegment(d.geo, fill);
  }

  /** No room: the next segment, at its start. */
  lemma NextSegment(d: Device, data: seq<byte>, s: nat)
    requires Front(d, s, d.geo.slots) && s + 1 < d.geo.segments && |data| == d.geo.unit
    ensures Append(d, data).1 == Ok((s + 1) * d.geo.sp) && Front(Append(d, data).0, s + 1, 1)
  {
    var flushed := FlushBuffer(d);
    assert flushed.free == d.free;
    SlotInSegment(d.geo, 0);
    var room := StartSegment(flushed);
    assert room.buf.seg == s + 1;
  }

  lemma FirstSegment(d: Device, data: seq<byte>)
    requires Filled(d, 0) && 0 < d.geo.segments && |data| == d.geo.unit
    ensures Append(d, data).1 == Ok(0) && Front(Append(d, data).0, 0, 1)
  {
    SlotInSegment(d.geo, 0);
    assert StartSegment(d).buf.seg == 0;
  }

  /** What appending unit n does. */
  ghost predicate Takes(d: Device, data: seq<byte>, n: nat)
    requires WellFormed(d)
  {
    var (e, out) := Append(d, data);
    && e.geo == d.geo
    && (n < d.geo.segments * d.geo.slots ==> out == Ok(n * d.geo.unit) && Filled(e, n + 1))
    && (n >= d.geo.segments * d.geo.slots ==> out == Err(SegmentFull))
  }

  lemma TakesFirst(d: Device, data: seq<byte>)
    requires Filled(d, 0) && |data| == d.geo.unit
    ensures Takes(d, data, 0)
  {
    if 0 < d.geo.segments {
      MulMono(1, d.geo.segments, d.geo.slots);
      FirstSegment(d, data);
      Witness(Append(d, data).0, 0, 1, 1);
    }
  }

  lemma TakesSlot(d: Device, data: seq<byte>, s: nat, fill: nat)
    requires Front(d, s, fill) && fill < d.geo.slots && |data| == d.geo.unit
    ensures Takes(d, data, s * d.geo.slots + fill)
  {
    var n := s * d.geo.slots + fill;
    NextSlot(d, data, s, fill);
    UnitsBefore(d.geo, s, fill);
    Below(d.geo, s, fill);
    Witness(Append(d, data).0, s, fill + 1, n + 1);
    hide Append, Front, Filled;
  }

  lemma TakesSegment(d: Device, data: seq<byte>, s: nat)
    requires Front(d, s, d.geo.slots) && s + 1 < d.geo.segments && |data| == d.geo.unit
    ensures Takes(d, data, (s + 1) * d.geo.slots)
  {
    var n := (s + 1) * d.geo.slots;
    NextSegment(d, data, s);
    UnitsBefore(d.geo, s + 1, 0);
    Below(d.geo, s + 1, 0);
    Witness(Append(d, data).0, s + 1, 1, n + 1);
    hide Append, Front, Filled;
  }

  lemma Below(g: Geometry, s: nat, fill: nat)
    requires s < g.segments && fill < g.slots
    ensures s * g.slots + fill < g.segments * g.slots
  {
    MulMono(s + 1, g.segments, g.slots);
  }

  /** Append n goes to byte n * unit, and fails once the extent is full. */
  lemma AppendNext(d: Device, data: seq<byte>, n: nat)
    requires Filled(d, n) && WellFormed(d) && |data| == d.geo.unit
    ensures Takes(d, data, n)
  {
    if n == 0 {
      TakesFirst(d, data);
    } else {
      var s: nat, fill: nat :| Front(d, s, fill) && s * d.geo.slots + fill == n;
      assert fill <= d.geo.slots;
      hide Takes;
      if fill < d.geo.slots {
        TakesSlot(d, data, s, fill);
      } else {
        assert n == (s + 1) * d.geo.slots;
        if s + 1 < d.geo.segments {
          TakesSegment(d, data, s);
        } else {
          TakesNone(d, data, s);
        }
      }
    }
  }

  lemma TakesNone(d: Device, data: seq<byte>, s: nat)
    requires Front(d, s, d.geo.slots) && s + 1 == d.geo.segments && |data| == d.geo.unit
    ensures Takes(d, data, (s + 1) * d.geo.slots)
  {
    LastIsFull(d, data, s);
    hide Append, Front, Filled;
  }

  lemma Witness(d: Device, s: nat, fill: nat, n: nat)
    requires Front(d, s, fill) && s * d.geo.slots + fill == n
    ensures Filled(d, n)
  {
  }

  lemma LastIsFull(d: Device, data: seq<byte>, s: nat)
    requires Front(d, s, d.geo.slots) && s + 1 == d.geo.segments && |data| == d.geo.unit
    ensures Append(d, data).1 == Err(SegmentFull)
    ensures Append(d, data).0.geo == d.geo
  {
    assert FlushBuffer(d).free == d.free;
  }

  /** The offsets handed out for units appended one after the other, up to the first refusal. */
  ghost function Offsets(d: Device, units: seq<seq<byte>>): seq<nat>
    requires WellFormed(d)
    decreases |units|
  {
    if units == [] then []
    else
      var (e, out) := Append(d, units[0]);
      if out.Err? then [] else
        Shape(d, units[0]);
        [out.value] + Offsets(e, units[1..])
  }

  lemma Shape(d: Device, data: seq<byte>)
    requires WellFormed(d)
    ensures WellFormed(Append(d, data).0)
  {
    if |data| == d.geo.unit && MakeRoom(d).1 {
      SlotInSegment(d.geo, MakeRoom(d).0.buf.fill);
    }
  }

  lemma {:induction false} FillsFrom(d: Device, n: nat, units: seq<seq<byte>>)
    requires Filled(d, n) && WellFormed(d) && forall k :: 0 <= k < |units| ==> |units[k]| == d.geo.unit
    ensures forall k :: 0 <= k < |Offsets(d, units)| ==> Offsets(d, units)[k] == (n + k) * d.geo.unit
    ensures n + |units| <= d.geo.segments * d.geo.slots ==> |Offsets(d, units)| == |units|
    ensures n <= d.geo.segments * d.geo.slots <= n + |units| ==> n + |Offsets(d, units)| == d.geo.segments * d.geo.slots
    decreases |units|
  {
    hide Filled;
    if units != [] {
      AppendNext(d, units[0], n);
      var (e, out) := Append(d, units[0]);
      Shape(d, units[0]);
      hide Append, WellFormed;
      if out.Ok? {
        FillsFrom(e, n + 1, units[1..]);
      }
    }
  }

  lemma FreshFilled(geo: Geometry, disk: seq<byte>)
    requires geo.Ok() && 0 < geo.sp && |disk| == geo.segments * geo.sp
    ensures Filled(Fresh(geo, disk), 0)
  {
  }

  /**
    Units appended to a new device, with nothing released, stand in its extent one after the other from byte 0, and
    it takes exactly as many as the extent holds.
   */
  lemma FreshFillsInOrder(geo: Geometry, disk: seq<byte>, units: seq<seq<byte>>)
    requires geo.Ok() && 0 < geo.sp && |disk| == geo.segments * geo.sp
    requires forall k :: 0 <= k < |units| ==> |units[k]| == geo.unit
    ensures WellFormed(Fresh(geo, disk))
    ensures var offs := Offsets(Fresh(geo, disk), units); var room := geo.segments * geo.slots;
      && |offs| == (if |units| <= room then |units| else room)
      && forall k :: 0 <= k < |offs| ==> offs[k] == k * geo.unit
  {
    FreshFilled(geo, disk);
    FillsFrom(Fresh(geo, disk), 0, units);
    MulMono(0, geo.segments, geo.slots);
  }

  /** The free stack is last in, first out: the segment a release just emptied is the next one filled. */
  lemma RecycledIsNext(d: Device, off: nat, data: seq<byte>)
    requires WellFormed(d) && d.buf.NoBuffer? && off / d.geo.sp < d.geo.segments && d.refs[off / d.geo.sp] == 1
    requires |data| == d.geo.unit
    ensures var e := Release(d, off).0;
      Release(d, off).1.Ok? && WellFormed(e) && Append(e, data).1 == Ok(off / d.geo.sp * d.geo.sp)
  {
    var e := Release(d, off).0;
    SlotInSegment(e.geo, 0);
    assert StartSegment(e).buf.seg == off / d.geo.sp;
  }
}
