/** The mutable device manager of bmpclient/_vm_segment.py, proved against the functions of module Segment. */
module SegmentManager {
  import opened Bytes
  import opened Segment

  class DeviceSegmentManager {
    const geo: Geometry
    var free: seq<nat>
    var refcount: seq<int>
    var buf: array?<byte>   // the segment being filled, if any
    var bufSeg: int
    var bufFill: nat
    var disk: seq<byte>     // the bytes of this device's extent

    ghost predicate Shape()
      reads this
    {
      if buf == null then bufSeg == -1 && bufFill == 0 else 0 <= bufSeg
    }

    /** The value this object stands for. */
    ghost function View(): Device
      requires Shape()
      reads this, buf
    {
      Device(geo, free, refcount, if buf == null then NoBuffer else Filling(bufSeg, bufFill, buf[..]), disk)
    }

    ghost predicate Valid()
      reads this, buf
    {
      Shape() && WellFormed(View())
    }

    constructor (geo: Geometry, disk: seq<byte>)
      requires geo.Ok() && |disk| == geo.segments * geo.sp
      ensures Valid() && View() == Fresh(geo, disk) && buf == null
    {
      FreshInv(geo, disk);
      this.geo := geo;
      free := Fresh(geo, disk).free;
      refcount := Fresh(geo, disk).refs;
      buf, bufSeg, bufFill := null, -1, 0;
      this.disk := disk;
    }

    method Append(data: seq<byte>) returns (r: Outcome<nat>)
      requires Valid()
      modifies this, buf
      ensures Valid() && (buf == null || buf == old(buf) || fresh(buf))
      ensures (View(), r) == Segment.Append(old(View()), data)
    {
      if |data| != geo.unit {
        return Err(BadLength);
      }
      if buf == null {
        var ok := StartSegment();
        if !ok {
          return Err(SegmentFull);
        }
      }
      if bufFill == geo.slots {
        FlushLocked();
        var ok := StartSegment();
        if !ok {
          return Err(SegmentFull);
        }
      }
      assert (View(), true) == MakeRoom(old(View()));
      var offset := Put(data);
      return Ok(offset);
    }

    /** Copies a unit into the next slot of the open buffer and counts it. */
    method Put(data: seq<byte>) returns (offset: nat)
      requires Valid() && buf != null && bufFill < geo.slots && |data| == geo.unit
      modifies this, buf
      ensures Valid() && buf == old(buf)
      ensures View() == Segment.Put(old(View()), data)
      ensures offset == geo.OffsetOf(old(bufSeg), old(bufFill))
    {
      SlotInSegment(geo, bufFill);
      offset := bufSeg * geo.sp + bufFill * geo.unit;
      var start := bufFill * geo.unit;
      forall i | 0 <= i < geo.unit {
        buf[start + i] := data[i];
      }
      assert buf[..] == Splice(old(buf[..]), start, data);
      bufFill := bufFill + 1;
      refcount := refcount[bufSeg := refcount[bufSeg] + 1];
    }

    method Flush()
      requires Valid()
      modifies this
      ensures Valid() && (buf == old(buf) || buf == null)
      ensures View() == Segment.Flush(old(View()))
    {
      if buf != null && bufFill > 0 {
        FlushLocked();
      }
    }

    /** Opens a new segment; false when none is free (the caller raises SegmentFullError). */
    method StartSegment() returns (ok: bool)
      requires Valid() && buf == null
      modifies this
      ensures Valid() && (buf == null || fresh(buf))
      ensures ok <==> old(free) != []
      ensures View() == if ok then Segment.StartSegment(old(View())) else old(View())
    {
      if |free| == 0 {
        return false;
      }
      bufSeg := free[|free| - 1];
      free := free[..|free| - 1];
      buf := new byte[geo.sp](_ => 0);
      bufFill := 0;
      assert buf[..] == Zeros(geo.sp);
      return true;
    }

    method FlushLocked()
      requires Valid() && buf != null
      modifies this
      ensures Valid() && buf == null
      ensures View() == FlushBuffer(old(View()))
    {
      SegmentInDisk(geo, bufSeg);
      var seg := bufSeg;
      disk := Splice(disk, seg * geo.sp, buf[..]);
      buf, bufSeg, bufFill := null, -1, 0;
      if refcount[seg] == 0 {
        free := free + [seg];
      }
    }

    method IsBuffered(offset: nat) returns (b: bool)
      requires Valid()
      ensures b <==> InBuffer(View(), offset)
    {
      b := buf != null && geo.SegmentOf(offset) == bufSeg;
    }

    /** The buffered unit at an offset, or nothing when its segment is not the one being filled. */
    method ReadBuffer(offset: nat) returns (found: bool, data: seq<byte>)
      requires Valid() && geo.IsUnit(offset)
      ensures found <==> InBuffer(View(), offset)
      ensures found ==> data == Read(View(), offset)
    {
      UnitFits(geo, offset);
      if buf == null || geo.SegmentOf(offset) != bufSeg {
        return false, [];
      }
      var local := offset - bufSeg * geo.sp;
      assert local == offset % geo.sp;
      return true, buf[local..local + geo.unit];
    }

    method Release(offset: nat) returns (r: Outcome<()>)
      requires Valid()
      modifies this
      ensures Valid() && buf == old(buf)
      ensures (View(), r) == Segment.Release(old(View()), offset)
    {
      var seg := geo.SegmentOf(offset);
      if seg >= geo.segments {
        return Err(OutOfRange);
      }
      if seg == bufSeg {
        refcount := refcount[seg := refcount[seg] - 1];
        return Ok(());
      }
      if refcount[seg] <= 0 {
        return Err(BadRelease);
      }
      refcount := refcount[seg := refcount[seg] - 1];
      if refcount[seg] == 0 {
        free := free + [seg];
      }
      return Ok(());
    }
  }
}
