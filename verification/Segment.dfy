/**
  One device's segment log (bmpclient/_vm_segment.py) as a value: the free-segment stack, the per-segment
  counts of live units, the segment being filled in memory, and the bytes on the device.
  Offsets are byte offsets inside the device's extent.
 */
module Segment {
  import opened Bytes
  import opened Arith
  import opened Finite

  /** sp is the segment length in bytes and slots the number of fixed-size units that fill it. */
  datatype Geometry = Geometry(sp: nat, unit: nat, slots: nat, segments: nat) {
    ghost predicate Ok() {
      && 0 < unit && 0 < slots && sp == slots * unit
    }

    /** Byte offset of a slot of a segment. */
    function OffsetOf(seg: nat, slot: nat): nat {
      seg * sp + slot * unit
    }

    function SegmentOf(off: nat): (r: nat)
      requires 0 < sp
    {
      off / sp
    }

    /** off starts a whole unit of some segment. */
    ghost predicate IsUnit(off: nat)
      requires 0 < sp && 0 < unit
    {
      off / sp < segments && (off % sp) % unit == 0
    }
  }

  datatype GeometryError = BadSegmentSize | BadUnitSize | UnitDoesNotDivideSegment | SegmentDoesNotDivideExtent

  datatype Checked = Accepted(geo: Geometry) | Rejected(reason: GeometryError)

  /** Validation done when a device manager is built. */
  function CheckGeometry(sp: int, unit: int, extent: nat): (r: Checked)
    ensures r.Accepted? <==>
      0 < sp && sp % 4096 == 0 && 0 < unit && unit % 4096 == 0 && sp % unit == 0 && extent % sp == 0
    ensures r.Accepted? ==> r.geo.Ok() && r.geo.sp == sp && r.geo.unit == unit && r.geo.segments * sp == extent
  {
    if sp <= 0 || sp % 4096 != 0 then Rejected(BadSegmentSize)
    else if unit <= 0 || unit % 4096 != 0 then Rejected(BadUnitSize)
    else if sp % unit != 0 then Rejected(UnitDoesNotDivideSegment)
    else if extent % sp != 0 then Rejected(SegmentDoesNotDivideExtent)
    else Accepted(Geometry(sp, unit, sp / unit, extent / sp))
  }

  datatype Buffer = NoBuffer | Filling(seg: nat, fill: nat, bytes: seq<byte>)

  datatype Device = Device(geo: Geometry, free: seq<nat>, refs: seq<int>, buf: Buffer, disk: seq<byte>)

  /** What a call reports: a value, or the exception it raises. */
  datatype Error = BadLength | SegmentFull | BadRelease | OutOfRange
  datatype Outcome<+T> = Ok(value: T) | Err(error: Error)

  /** s is the segment being filled. */
  predicate IsOpen(d: Device, s: nat) {
    d.buf.Filling? && d.buf.seg == s
  }

  predicate InBuffer(d: Device, off: nat)
    requires 0 < d.geo.sp
  {
    IsOpen(d, d.geo.SegmentOf(off))
  }

  /** The shape every device keeps; says nothing about live data. */
  ghost predicate WellFormed(d: Device) {
    && d.geo.Ok()
    && 0 < d.geo.sp
    && |d.refs| == d.geo.segments
    && |d.disk| == d.geo.segments * d.geo.sp
    && (forall i :: 0 <= i < |d.free| ==> d.free[i] < d.geo.segments)
    && (d.buf.Filling? ==>
          d.buf.seg < d.geo.segments && d.buf.fill <= d.geo.slots && |d.buf.bytes| == d.geo.sp)
  }

  /** A fresh device: every segment free, lowest number on top of the stack. */
  function Fresh(geo: Geometry, disk: seq<byte>): Device {
    Device(geo, seq(geo.segments, i => var s: nat := if i < geo.segments then geo.segments - 1 - i else 0; s),
           seq(geo.segments, i => 0), NoBuffer, disk)
  }

  /** Pop a free segment and start filling it. */
  function StartSegment(d: Device): (r: Device)
    requires WellFormed(d) && d.free != []
    ensures WellFormed(r)
  {
    var seg, rest := d.free[|d.free| - 1], d.free[..|d.free| - 1];
    d.(free := rest, buf := Filling(seg, 0, Zeros(d.geo.sp)))
  }

  /** Write the whole buffered segment to the device; recycle it at once if nothing in it is live. */
  function FlushBuffer(d: Device): (r: Device)
    requires WellFormed(d) && d.buf.Filling?
    ensures WellFormed(r) && r.buf.NoBuffer?
  {
    SegmentInDisk(d.geo, d.buf.seg);
    var seg := d.buf.seg;
    d.(disk := Splice(d.disk, seg * d.geo.sp, d.buf.bytes),
       buf := NoBuffer,
       free := if d.refs[seg] == 0 then d.free + [seg] else d.free)
  }

  /** Put a unit into the next slot of the open buffer. */
  function Put(d: Device, data: seq<byte>): (r: Device)
    requires WellFormed(d) && d.buf.Filling? && d.buf.fill < d.geo.slots && |data| == d.geo.unit
  {
    SlotInSegment(d.geo, d.buf.fill);
    var b := d.buf;
    d.(buf := Filling(b.seg, b.fill + 1, Splice(b.bytes, b.fill * d.geo.unit, data)),
       refs := d.refs[b.seg := d.refs[b.seg] + 1])
  }

  predicate NoRoom(d: Device) {
    d.buf.NoBuffer? || d.buf.fill == d.geo.slots
  }

  /** The device just before the unit is stored: a buffer with room, if one can be had. */
  function MakeRoom(d: Device): (r: (Device, bool))
    requires WellFormed(d)
    ensures WellFormed(r.0) && r.0.geo == d.geo
    ensures r.1 ==> r.0.buf.Filling? && r.0.buf.fill < d.geo.slots
  {
    if !NoRoom(d) then (d, true)
    else
      var flushed := if d.buf.Filling? then FlushBuffer(d) else d;
      if flushed.free == [] then (flushed, false) else (StartSegment(flushed), true)
  }

  /** append: the new device and either the unit's offset or the exception raised. */
  function Append(d: Device, data: seq<byte>): (r: (Device, Outcome<nat>))
    requires WellFormed(d)
  {
    if |data| != d.geo.unit then (d, Err(BadLength))
    else
      var (room, ok) := MakeRoom(d);
      if !ok then (room, Err(SegmentFull))
      else (Put(room, data), Ok(d.geo.OffsetOf(room.buf.seg, room.buf.fill)))
  }

  function Flush(d: Device): (r: Device)
    requires WellFormed(d)
  {
    if d.buf.Filling? && 0 < d.buf.fill then FlushBuffer(d) else d
  }

  /** release: give back one unit; a segment left with none is recycled unless it is still being filled. */
  function Release(d: Device, off: nat): (r: (Device, Outcome<()>))
    requires WellFormed(d)
  {
    var seg := d.geo.SegmentOf(off);
    if seg >= d.geo.segments then (d, Err(OutOfRange))
    else if InBuffer(d, off) then (d.(refs := d.refs[seg := d.refs[seg] - 1]), Ok(()))
    else if d.refs[seg] <= 0 then (d, Err(BadRelease))
    else
      var left := d.refs[seg] - 1;
      (d.(refs := d.refs[seg := left], free := if left == 0 then d.free + [seg] else d.free), Ok(()))
  }

  /** The unit read at off: from the buffer while its segment is being filled, from the device otherwise. */
  function Read(d: Device, off: nat): (r: seq<byte>)
    requires WellFormed(d) && d.geo.IsUnit(off)
    ensures |r| == d.geo.unit
  {
    UnitFits(d.geo, off);
    if InBuffer(d, off) then d.buf.bytes[off % d.geo.sp..off % d.geo.sp + d.geo.unit]
    else d.disk[off..off + d.geo.unit]
  }

  // ---------- offsets ----------

  lemma SegmentInDisk(g: Geometry, seg: nat)
    requires g.Ok() && seg < g.segments
    ensures seg * g.sp + g.sp <= g.segments * g.sp
  {
    MulMono(seg + 1, g.segments, g.sp);
  }

  lemma SlotInSegment(g: Geometry, slot: nat)
    requires g.Ok() && slot < g.slots
    ensures slot * g.unit + g.unit <= g.sp
  {
    MulMono(slot + 1, g.slots, g.unit);
  }

  /** The offset handed out for a slot leads back to its segment and slot. */
  lemma OffsetRoundTrip(g: Geometry, seg: nat, slot: nat)
    requires g.Ok() && seg < g.segments && slot < g.slots
    ensures 0 < g.sp
    ensures g.OffsetOf(seg, slot) / g.sp == seg
    ensures g.OffsetOf(seg, slot) % g.sp == slot * g.unit
    ensures g.IsUnit(g.OffsetOf(seg, slot))
  {
    SlotInSegment(g, slot);
    assert 0 <= slot * g.unit;
    DivUnique(seg, slot * g.unit, g.sp);
    DivUnique(slot, 0, g.unit);
  }

  /** A unit lies inside one segment and inside the extent. */
  lemma UnitFits(g: Geometry, off: nat)
    requires g.Ok() && 0 < g.sp && g.IsUnit(off)
    ensures off % g.sp + g.unit <= g.sp
    ensures off + g.unit <= g.segments * g.sp
    ensures off == (off / g.sp) * g.sp + off % g.sp
    ensures off % g.sp == ((off % g.sp) / g.unit) * g.unit
  {
    var slot := (off % g.sp) / g.unit;
    assert off % g.sp == slot * g.unit;
    MultiplesApart(slot, g.slots, g.unit);
    MulMono(off / g.sp + 1, g.segments, g.sp);
  }

  // ---------- live units ----------

  /** The live units of one segment. */
  ghost function LiveIn(g: Geometry, live: set<nat>, s: nat): set<nat>
    requires 0 < g.sp
  {
    set o | o in live && o / g.sp == s
  }

  /** A live unit has been written: in the open segment only slots below the fill mark are. */
  ghost predicate Written(d: Device, off: nat)
    requires WellFormed(d)
  {
    d.geo.IsUnit(off) && (InBuffer(d, off) ==> off % d.geo.sp + d.geo.unit <= d.buf.fill * d.geo.unit)
  }

  /** Free exactly when nothing in it is live and it is not the segment being filled. */
  ghost predicate FreeStackExact(d: Device)
    requires WellFormed(d)
  {
    && NoDuplicates(d.free)
    && forall s: nat :: s < d.geo.segments ==>
         (s in d.free <==> d.refs[s] == 0 && !IsOpen(d, s))
  }

  ghost predicate CountsExact(d: Device, live: set<nat>)
    requires WellFormed(d)
  {
    forall s: nat :: s < d.geo.segments ==> d.refs[s] == |LiveIn(d.geo, live, s)|
  }

  /** Every live unit has been written and reads back as the bytes it was given. */
  ghost predicate Holds(d: Device, live: map<nat, seq<byte>>)
    requires WellFormed(d)
  {
    forall o :: o in live ==> Written(d, o) && Read(d, o) == live[o]
  }

  /** The device invariant, relative to the units a client still owns and their bytes. */
  ghost predicate Inv(d: Device, live: map<nat, seq<byte>>) {
    WellFormed(d) && FreeStackExact(d) && CountsExact(d, live.Keys) && Holds(d, live)
  }

  /** Units on the device stay there: no step brings a live unit back into the buffer. */
  ghost predicate SettledStay(d: Device, e: Device, live: map<nat, seq<byte>>)
    requires 0 < d.geo.sp && e.geo == d.geo
  {
    forall o :: o in live && !InBuffer(d, o) ==> !InBuffer(e, o)
  }

  lemma FreshInv(geo: Geometry, disk: seq<byte>)
    requires geo.Ok() && |disk| == geo.segments * geo.sp
    ensures Inv(Fresh(geo, disk), map[])
  {
    MulMono(1, geo.slots, geo.unit);
    var d := Fresh(geo, disk);
    forall s: nat | s < geo.segments
      ensures s in d.free
      ensures d.refs[s] == |LiveIn(geo, {}, s)|
    {
      assert d.free[geo.segments - 1 - s] == s;
      assert LiveIn(geo, {}, s) == {};
    }
  }

  /** Flushing moves the open segment to the device without changing what any live unit reads as. */
  lemma FlushBufferKeeps(d: Device, live: map<nat, seq<byte>>)
    requires Inv(d, live) && d.buf.Filling?
    ensures Inv(FlushBuffer(d), live)
    ensures SettledStay(d, FlushBuffer(d), live)
  {
    forall o | o in live
      ensures Written(FlushBuffer(d), o) && Read(FlushBuffer(d), o) == live[o]
    {
      FlushedUnit(d, o);
    }
    RecycleExact(d, FlushBuffer(d), d.buf.seg);
  }

  /** A written unit reads the same before and after its device's buffer goes to disk. */
  lemma FlushedUnit(d: Device, o: nat)
    requires WellFormed(d) && d.buf.Filling? && d.geo.IsUnit(o)
    ensures Read(FlushBuffer(d), o) == Read(d, o)
  {
    var g, at := d.geo, d.buf.seg * d.geo.sp;
    SegmentInDisk(g, d.buf.seg);
    UnitFits(g, o);
    if InBuffer(d, o) {
      assert o - at == o % g.sp;
      SpliceInside(d.disk, at, d.buf.bytes, o, g.unit);
    } else {
      OtherSegment(g, o, d.buf.seg);
      SpliceOutside(d.disk, at, d.buf.bytes, o, g.unit);
    }
  }

  /** Pushing a segment exactly when its count is zero, as it stops being the open one or loses a unit. */
  lemma RecycleExact(d: Device, e: Device, seg: nat)
    requires WellFormed(d) && WellFormed(e) && FreeStackExact(d) && e.geo == d.geo
    requires seg < d.geo.segments && seg !in d.free
    requires forall s: nat :: s < d.geo.segments && s != seg ==> e.refs[s] == d.refs[s]
    requires e.free == if e.refs[seg] == 0 then d.free + [seg] else d.free
    requires forall s: nat :: s != seg ==> (IsOpen(d, s) <==> IsOpen(e, s))
    requires !IsOpen(e, seg)
    ensures FreeStackExact(e)
  {
    forall s: nat | s < d.geo.segments
      ensures s in e.free <==> e.refs[s] == 0 && !IsOpen(e, s)
    {
      assert s in d.free <==> d.refs[s] == 0 && !IsOpen(d, s);
    }
  }

  /** A unit of one segment does not overlap the bytes of another. */
  lemma OtherSegment(g: Geometry, off: nat, seg: nat)
    requires g.Ok() && 0 < g.sp && g.IsUnit(off) && off / g.sp != seg
    ensures off + g.unit <= seg * g.sp || seg * g.sp + g.sp <= off
  {
    UnitFits(g, off);
    BlocksApart(off / g.sp, off % g.sp, g.unit, seg, g.sp);
  }

  lemma BlocksApart(mine: nat, local: nat, len: nat, other: nat, size: nat)
    requires mine != other && local + len <= size
    ensures mine * size + local + len <= other * size || other * size + size <= mine * size + local
  {
    if mine < other {
      MulMono(mine + 1, other, size);
    } else {
      MulMono(other + 1, mine, size);
    }
  }

  /** Opening a free segment hides no live unit. */
  lemma StartSegmentKeeps(d: Device, live: map<nat, seq<byte>>)
    requires Inv(d, live) && d.buf.NoBuffer? && d.free != []
    ensures Inv(StartSegment(d), live)
    ensures SettledStay(d, StartSegment(d), live)
  {
    var e := StartSegment(d);
    PopExact(d, e);
    EmptySegment(d, live, e.buf.seg);
    forall o | o in live
      ensures Written(e, o) && Read(e, o) == live[o]
    {
      OpenedElsewhere(d, e, o);
    }
  }

  lemma OpenedElsewhere(d: Device, e: Device, o: nat)
    requires WellFormed(d) && d.buf.NoBuffer? && d.free != [] && e == StartSegment(d)
    requires Written(d, o) && o / d.geo.sp != e.buf.seg
    ensures Written(e, o) && Read(e, o) == Read(d, o)
  {
  }

  lemma PopExact(d: Device, e: Device)
    requires WellFormed(d) && FreeStackExact(d) && d.buf.NoBuffer? && d.free != [] && e == StartSegment(d)
    ensures FreeStackExact(e) && d.refs[e.buf.seg] == 0
  {
    assert d.free == e.free + [e.buf.seg];
    forall s: nat | s < d.geo.segments
      ensures s in e.free <==> e.refs[s] == 0 && !IsOpen(e, s)
    {
      assert s in d.free <==> s in e.free || s == e.buf.seg;
    }
  }

  /** A segment whose count is zero holds no live unit. */
  lemma EmptySegment(d: Device, live: map<nat, seq<byte>>, s: nat)
    requires Inv(d, live) && s < d.geo.segments && d.refs[s] == 0
    ensures forall o :: o in live ==> o / d.geo.sp != s
  {
    var here := LiveIn(d.geo, live.Keys, s);
    assert here == {};
    assert forall o :: o in live && o / d.geo.sp == s <==> o in here;
  }

  lemma MakeRoomKeeps(d: Device, live: map<nat, seq<byte>>)
    requires Inv(d, live)
    ensures Inv(MakeRoom(d).0, live)
    ensures SettledStay(d, MakeRoom(d).0, live)
    ensures MakeRoom(d).1 <==> !(NoRoom(d) && forall s: nat :: s < d.geo.segments ==> LiveIn(d.geo, live.Keys, s) != {})
  {
    if NoRoom(d) {
      var flushed := if d.buf.Filling? then FlushBuffer(d) else d;
      if d.buf.Filling? {
        FlushBufferKeeps(d, live);
      }
      AnyFreeIff(flushed, live);
      if flushed.free != [] {
        StartSegmentKeeps(flushed, live);
      }
    }
  }

  /** With no segment open, none is free exactly when every segment holds a live unit. */
  lemma AnyFreeIff(d: Device, live: map<nat, seq<byte>>)
    requires Inv(d, live) && d.buf.NoBuffer?
    ensures d.free == [] <==> forall s: nat :: s < d.geo.segments ==> LiveIn(d.geo, live.Keys, s) != {}
  {
    if d.free == [] {
      forall s: nat | s < d.geo.segments
        ensures LiveIn(d.geo, live.Keys, s) != {}
      {
        assert s !in d.free;
      }
    } else {
      var s := d.free[|d.free| - 1];
      assert s in d.free;
      assert LiveIn(d.geo, live.Keys, s) == {};
    }
  }

  /** Storing a unit in the next slot adds exactly that unit. */
  lemma PutKeeps(d: Device, live: map<nat, seq<byte>>, data: seq<byte>)
    requires Inv(d, live) && d.buf.Filling? && d.buf.fill < d.geo.slots && |data| == d.geo.unit
    ensures var off := d.geo.OffsetOf(d.buf.seg, d.buf.fill);
            && off !in live
            && Inv(Put(d, data), live[off := data])
            && InBuffer(Put(d, data), off)
  {
    var g, seg, fill := d.geo, d.buf.seg, d.buf.fill;
    var off := g.OffsetOf(seg, fill);
    var e := Put(d, data);
    OffsetRoundTrip(g, seg, fill);
    SlotInSegment(g, fill);
    assert off !in live;
    forall o | o in live[off := data]
      ensures Written(e, o) && Read(e, o) == live[off := data][o]
    {
      if o == off {
        PutUnit(d, data, off);
      } else {
        PutOther(d, data, o);
      }
    }
    PutCounts(d, live, off, data);
  }

  lemma PutUnit(d: Device, data: seq<byte>, off: nat)
    requires WellFormed(d) && d.buf.Filling? && d.buf.fill < d.geo.slots && |data| == d.geo.unit
    requires d.geo.IsUnit(off) && off / d.geo.sp == d.buf.seg && off % d.geo.sp == d.buf.fill * d.geo.unit
    ensures WellFormed(Put(d, data)) && Written(Put(d, data), off) && Read(Put(d, data), off) == data
  {
    var at := d.buf.fill * d.geo.unit;
    SlotInSegment(d.geo, d.buf.fill);
    assert (d.buf.fill + 1) * d.geo.unit == at + d.geo.unit;
    SpliceInside(d.buf.bytes, at, data, at, d.geo.unit);
  }

  lemma PutOther(d: Device, data: seq<byte>, o: nat)
    requires WellFormed(d) && d.buf.Filling? && d.buf.fill < d.geo.slots && |data| == d.geo.unit && Written(d, o)
    ensures WellFormed(Put(d, data)) && Written(Put(d, data), o) && Read(Put(d, data), o) == Read(d, o)
  {
    var g, fill := d.geo, d.buf.fill;
    UnitFits(g, o);
    SlotInSegment(g, fill);
    assert (fill + 1) * g.unit == fill * g.unit + g.unit;
    if InBuffer(d, o) {
      SpliceOutside(d.buf.bytes, fill * g.unit, data, o % g.sp, g.unit);
    }
  }

  lemma PutCounts(d: Device, live: map<nat, seq<byte>>, off: nat, data: seq<byte>)
    requires WellFormed(d) && CountsExact(d, live.Keys)
    requires d.buf.Filling? && d.buf.fill < d.geo.slots && |data| == d.geo.unit
    requires off !in live && off / d.geo.sp == d.buf.seg
    ensures WellFormed(Put(d, data)) && CountsExact(Put(d, data), live[off := data].Keys)
  {
    SlotInSegment(d.geo, d.buf.fill);
    forall s: nat | s < d.geo.segments
      ensures Put(d, data).refs[s] == |LiveIn(d.geo, live[off := data].Keys, s)|
    {
      var before, after := LiveIn(d.geo, live.Keys, s), LiveIn(d.geo, live[off := data].Keys, s);
      if s == d.buf.seg {
        assert after == before + {off};
      } else {
        assert after == before;
      }
    }
  }

  // ---------- the three operations ----------

  /**
    append keeps the invariant in every outcome. It reports a full device exactly when the buffer has no room
    and every segment holds a live unit; otherwise the unit gets an offset no live unit has, and sits in the buffer.
   */
  lemma AppendKeeps(d: Device, live: map<nat, seq<byte>>, data: seq<byte>)
    requires Inv(d, live)
    ensures var (e, r) := Append(d, data);
      && e.geo == d.geo && SettledStay(d, e, live)
      && (r == Err(BadLength) <==> |data| != d.geo.unit)
      && (r == Err(SegmentFull) <==>
            (|data| == d.geo.unit && NoRoom(d) &&
             forall s: nat :: s < d.geo.segments ==> LiveIn(d.geo, live.Keys, s) != {}))
      && (r.Err? ==> Inv(e, live))
      && (r.Ok? ==> r.value !in live && Inv(e, live[r.value := data]) && InBuffer(e, r.value))
  {
    if |data| == d.geo.unit {
      MakeRoomKeeps(d, live);
      var (room, ok) := MakeRoom(d);
      if ok {
        PutKeeps(room, live, data);
      }
    }
  }

  lemma FlushKeeps(d: Device, live: map<nat, seq<byte>>)
    requires Inv(d, live)
    ensures Inv(Flush(d), live) && Flush(d).geo == d.geo
    ensures SettledStay(d, Flush(d), live)
    ensures forall o :: o in live ==> !InBuffer(Flush(d), o)
  {
    if d.buf.Filling? && 0 < d.buf.fill {
      FlushBufferKeeps(d, live);
    } else {
      forall o | o in live
        ensures !InBuffer(d, o)
      {
        UnitFits(d.geo, o);
      }
    }
  }

  /** Releasing a live unit always succeeds and removes exactly that unit. */
  lemma ReleaseKeeps(d: Device, live: map<nat, seq<byte>>, off: nat)
    requires Inv(d, live) && off in live
    ensures var (e, r) := Release(d, off);
      r.Ok? && e.geo == d.geo && Inv(e, live - {off}) && SettledStay(d, e, live)
  {
    var (e, r) := Release(d, off);
    var seg := off / d.geo.sp;
    assert Written(d, off);
    assert off in LiveIn(d.geo, live.Keys, seg);
    ReleaseCounts(d, live, off);
    if !InBuffer(d, off) {
      RecycleExact(d, e, seg);
    }
    SameDataHolds(d, e, live);
  }

  /** Counts and the free stack do not affect what is read. */
  lemma SameDataHolds(d: Device, e: Device, live: map<nat, seq<byte>>)
    requires WellFormed(d) && WellFormed(e) && Holds(d, live)
    requires e.geo == d.geo && e.buf == d.buf && e.disk == d.disk
    ensures Holds(e, live)
  {
    forall o | o in live
      ensures Written(e, o) && Read(e, o) == live[o]
    {
      assert Written(d, o);
    }
  }

  lemma ReleaseCounts(d: Device, live: map<nat, seq<byte>>, off: nat)
    requires WellFormed(d) && CountsExact(d, live.Keys) && off in live && off / d.geo.sp < d.geo.segments
    ensures forall s: nat :: s < d.geo.segments ==>
      |LiveIn(d.geo, (live - {off}).Keys, s)| == d.refs[s] - (if s == off / d.geo.sp then 1 else 0)
  {
    forall s: nat | s < d.geo.segments
      ensures |LiveIn(d.geo, (live - {off}).Keys, s)| == d.refs[s] - (if s == off / d.geo.sp then 1 else 0)
    {
      var before, after := LiveIn(d.geo, live.Keys, s), LiveIn(d.geo, (live - {off}).Keys, s);
      if s == off / d.geo.sp {
        assert off in before && after == before - {off};
      } else {
        assert after == before;
      }
    }
  }

  // ---------- runs ----------

  datatype Op = AppendOp(data: seq<byte>) | FlushOp | ReleaseOp(off: nat)

  /** A device together with the units its clients still own. */
  datatype Owned = Owned(dev: Device, live: map<nat, seq<byte>>)

  /** Clients release only units they own. */
  ghost predicate Allowed(s: Owned, op: Op) {
    op.ReleaseOp? ==> op.off in s.live
  }

  ghost function Step(s: Owned, op: Op): Owned
    requires WellFormed(s.dev)
  {
    match op
    case AppendOp(data) =>
      var (e, r) := Append(s.dev, data);
      Owned(e, if r.Ok? then s.live[r.value := data] else s.live)
    case FlushOp => Owned(Flush(s.dev), s.live)
    case ReleaseOp(off) => Owned(Release(s.dev, off).0, s.live - {off})
  }

  /** t is reached from s by a run of allowed operations. */
  ghost predicate Reaches(s: Owned, ops: seq<Op>, t: Owned)
    decreases ops
  {
    if ops == [] then t == s
    else WellFormed(s.dev) && Allowed(s, ops[0]) && Reaches(Step(s, ops[0]), ops[1..], t)
  }

  lemma StepKeeps(s: Owned, op: Op)
    requires Inv(s.dev, s.live) && Allowed(s, op)
    ensures Inv(Step(s, op).dev, Step(s, op).live)
    ensures Step(s, op).dev.geo == s.dev.geo && SettledStay(s.dev, Step(s, op).dev, s.live)
  {
    match op
    case AppendOp(data) => AppendKeeps(s.dev, s.live, data);
    case FlushOp => FlushKeeps(s.dev, s.live);
    case ReleaseOp(off) => ReleaseKeeps(s.dev, s.live, off);
  }

  /** The invariant holds in every state a device reaches from new, whatever its clients do. */
  lemma {:induction false} ReachableInv(s: Owned, ops: seq<Op>, t: Owned)
    requires Inv(s.dev, s.live) && Reaches(s, ops, t)
    ensures Inv(t.dev, t.live)
    decreases ops
  {
    if ops != [] {
      StepKeeps(s, ops[0]);
      ReachableInv(Step(s, ops[0]), ops[1..], t);
    }
  }

  /** With nothing live and the buffer written out, every segment is free again. */
  lemma AllReclaimed(d: Device)
    requires Inv(d, map[]) && d.buf.NoBuffer?
    ensures |d.free| == d.geo.segments
  {
    forall s: nat | s < d.geo.segments
      ensures s in d.free
    {
      var none: map<nat, seq<byte>> := map[];
      assert LiveIn(d.geo, none.Keys, s) == {};
    }
    assert Elements(d.free) == Below(d.geo.segments);
    NoDuplicatesCard(d.free);
  }
}
