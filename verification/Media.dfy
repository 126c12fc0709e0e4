/** The media layer over all devices (bmpclient/virtual_media.py): placement, appends, and merged batch reads. */
module Media {
  import opened Bytes
  import opened Finite
  import opened Placement
  import opened Segment
  import opened SegmentManager
  import opened BatchRead

  /** A unit on a device. */
  datatype Address = Address(device: nat, off: nat)

  /** Bytes fetched with one read, and where its units go: output position and offset inside the bytes. */
  datatype Staged = Staged(bytes: seq<byte>, pieces: seq<Piece>)

  ghost predicate WellFormedAll(devs: seq<Device>, unit: nat) {
    forall d :: 0 <= d < |devs| ==> WellFormed(devs[d]) && devs[d].geo.unit == unit
  }

  ghost predicate Addressable(devs: seq<Device>, a: Address) {
    a.device < |devs| && WellFormed(devs[a.device]) && devs[a.device].geo.IsUnit(a.off)
  }

  /** One-by-one reading: what a single unit read returns. */
  ghost function ReadAt(devs: seq<Device>, a: Address): seq<byte>
    requires Addressable(devs, a)
  {
    Read(devs[a.device], a.off)
  }

  /** The output buffer after its first unit bytes are overwritten by the unit at a. */
  ghost function Filled(devs: seq<Device>, a: Address, out: seq<byte>): seq<byte>
    requires Addressable(devs, a) && devs[a.device].geo.unit <= |out|
  {
    ReadAt(devs, a) + out[devs[a.device].geo.unit..]
  }

  /** A bucket lists pending reads of one device that are not served from its buffer. */
  ghost predicate BucketOk(devs: seq<Device>, items: seq<Address>, d: nat, group: seq<Piece>) {
    forall p :: p in group ==>
      p.pos < |items| && items[p.pos] == Address(d, p.off) && Addressable(devs, items[p.pos]) &&
      !InBuffer(devs[d], p.off)
  }

  ghost predicate PieceOk(devs: seq<Device>, items: seq<Address>, bytes: seq<byte>, p: Piece, unit: nat) {
    && p.pos < |items| && Addressable(devs, items[p.pos])
    && p.off + unit <= |bytes| && bytes[p.off..p.off + unit] == ReadAt(devs, items[p.pos])
  }

  ghost predicate StagedOk(devs: seq<Device>, items: seq<Address>, s: Staged, unit: nat) {
    forall p :: p in s.pieces ==> PieceOk(devs, items, s.bytes, p, unit)
  }

  ghost predicate Feeds(s: Staged, pos: nat) {
    exists p :: p in s.pieces && p.pos == pos
  }

  ghost predicate FeedsRun(s: Staged, run: seq<Piece>) {
    forall p :: p in run ==> Feeds(s, p.pos)
  }

  ghost predicate FedBy(staged: seq<Staged>, pos: nat) {
    exists k :: 0 <= k < |staged| && Feeds(staged[k], pos)
  }

  /** The pieces of a run, addressed relative to its first byte. */
  method Relative(run: seq<Piece>, start: nat) returns (r: seq<Piece>)
    requires forall i :: 0 <= i < |run| ==> start <= run[i].off
    ensures |r| == |run|
    ensures forall i :: 0 <= i < |run| ==> r[i] == Piece(run[i].pos, run[i].off - start)
  {
    r := [];
    for i := 0 to |run|
      invariant |r| == i
      invariant forall j :: 0 <= j < i ==> r[j] == Piece(run[j].pos, run[j].off - start)
    {
      r := r + [Piece(run[i].pos, run[i].off - start)];
    }
  }

  /** Each unit of a run is found in the run's bytes at its relative offset. */
  lemma RunPieceOk(devs: seq<Device>, items: seq<Address>, run: seq<Piece>, unit: nat, d: nat, i: nat)
    requires d < |devs| && WellFormed(devs[d]) && devs[d].geo.unit == unit && i < |run|
    requires Contiguous(run, unit) && BucketOk(devs, items, d, run) && run[|run| - 1].off + unit <= |devs[d].disk|
    ensures run[0].off <= run[i].off
    ensures PieceOk(devs, items, devs[d].disk[run[0].off..run[|run| - 1].off + unit],
                    Piece(run[i].pos, run[i].off - run[0].off), unit)
  {
    assert run[i] in run;
    RunHoldsUnit(devs[d].disk, run, unit, i);
  }

  /** Fetches one contiguous run with a single device read. */
  method StageRun(ghost devs: seq<Device>, ghost items: seq<Address>, disk: seq<byte>, run: seq<Piece>, unit: nat,
                  ghost d: nat)
    returns (s: Staged)
    requires d < |devs| && WellFormed(devs[d]) && devs[d].disk == disk && devs[d].geo.unit == unit
    requires Contiguous(run, unit) && BucketOk(devs, items, d, run)
    ensures StagedOk(devs, items, s, unit)
    ensures FeedsRun(s, run)
  {
    var start, last := run[0].off, run[|run| - 1];
    assert last in run;
    UnitFits(devs[d].geo, last.off);
    forall i | 0 <= i < |run|
      ensures start <= run[i].off
    {
      RunPieceOk(devs, items, run, unit, d, i);
    }
    RunPieceOk(devs, items, run, unit, d, |run| - 1);
    var bytes := disk[start..last.off + unit];
    var pieces := Relative(run, start);
    s := Staged(bytes, pieces);
    forall p | p in pieces
      ensures PieceOk(devs, items, bytes, p, unit)
    {
      var i :| 0 <= i < |pieces| && pieces[i] == p;
      RunPieceOk(devs, items, run, unit, d, i);
    }
    forall p | p in run
      ensures Feeds(s, p.pos)
    {
      var i :| 0 <= i < |run| && run[i] == p;
      assert pieces[i] in s.pieces;
    }
  }

  /** Sorts a device's pending reads, merges neighbours and fetches each run. */
  method StageDevice(ghost devs: seq<Device>, ghost items: seq<Address>, disk: seq<byte>, group: seq<Piece>,
                     merge: bool,
                     unit: nat, limit: Limit, ghost d: nat)
    returns (staged: seq<Staged>)
    requires d < |devs| && WellFormed(devs[d]) && devs[d].disk == disk && devs[d].geo.unit == unit
    requires limit.AtMost? ==> unit <= limit.bytes
    requires BucketOk(devs, items, d, group)
    ensures forall k :: 0 <= k < |staged| ==> StagedOk(devs, items, staged[k], unit)
    ensures forall p :: p in group ==> FedBy(staged, p.pos)
  {
    var sorted := SortByOffset(group);
    var runs := MergeRuns(sorted, merge, unit, limit);
    forall k | 0 <= k < |runs|
      ensures BucketOk(devs, items, d, runs[k])
    {
      RunOfBucket(devs, items, d, group, sorted, runs, k);
    }
    staged := [];
    for k := 0 to |runs|
      invariant |staged| == k
      invariant forall j :: 0 <= j < k ==> StagedOk(devs, items, staged[j], unit)
      invariant forall j :: 0 <= j < k ==> FeedsRun(staged[j], runs[j])
    {
      var s := StageRun(devs, items, disk, runs[k], unit, d);
      staged := staged + [s];
    }
    forall p | p in group
      ensures FedBy(staged, p.pos)
    {
      BucketInRuns(group, sorted, runs, staged, p);
    }
  }

  lemma RunOfBucket(devs: seq<Device>, items: seq<Address>, d: nat, group: seq<Piece>, sorted: seq<Piece>,
                    runs: seq<seq<Piece>>, k: nat)
    requires BucketOk(devs, items, d, group) && multiset(sorted) == multiset(group) && Flatten(runs) == sorted
    requires k < |runs|
    ensures BucketOk(devs, items, d, runs[k])
  {
    forall p | p in runs[k]
      ensures p in group
    {
      InSomeRun(runs, p);
      assert p in multiset(sorted);
    }
  }

  lemma BucketInRuns(group: seq<Piece>, sorted: seq<Piece>, runs: seq<seq<Piece>>, staged: seq<Staged>, p: Piece)
    requires multiset(sorted) == multiset(group) && Flatten(runs) == sorted && p in group && |staged| == |runs|
    requires forall j :: 0 <= j < |runs| ==> FeedsRun(staged[j], runs[j])
    ensures FedBy(staged, p.pos)
  {
    assert p in multiset(group);
    InSomeRun(runs, p);
    var k :| 0 <= k < |runs| && p in runs[k];
    assert FeedsRun(staged[k], runs[k]);
  }

  /** The outputs a batch read must end with. */
  ghost function Finals(devs: seq<Device>, items: seq<Address>, before: seq<seq<byte>>): (final: seq<seq<byte>>)
    requires |before| == |items|
    requires forall i :: 0 <= i < |items| ==>
      Addressable(devs, items[i]) && devs[items[i].device].geo.unit <= |before[i]|
    ensures |final| == |items| && forall i :: 0 <= i < |items| ==> final[i] == Filled(devs, items[i], before[i])
  {
    seq(|items|, i requires 0 <= i < |items| => Filled(devs, items[i], before[i]))
  }

  /** A unit waiting to be copied to its output agrees with the output it must give. */
  ghost predicate PieceFits(p: Piece, bytes: seq<byte>, final: seq<seq<byte>>, unit: nat) {
    && p.pos < |final| && unit <= |final[p.pos]|
    && p.off + unit <= |bytes| && bytes[p.off..p.off + unit] == final[p.pos][..unit]
  }

  ghost predicate StagedFits(s: Staged, final: seq<seq<byte>>, unit: nat) {
    forall p :: p in s.pieces ==> PieceFits(p, s.bytes, final, unit)
  }

  /** An output not yet written: everything past its first unit bytes is already as it must be. */
  ghost predicate Fillable(out: seq<byte>, final: seq<byte>, unit: nat) {
    unit <= |out| && unit <= |final| && out[unit..] == final[unit..]
  }

  lemma StagedOkFits(devs: seq<Device>, items: seq<Address>, s: Staged, unit: nat, before: seq<seq<byte>>,
                     final: seq<seq<byte>>)
    requires StagedOk(devs, items, s, unit) && |before| == |items| && WellFormedAll(devs, unit)
    requires forall i :: 0 <= i < |items| ==> Addressable(devs, items[i]) && unit <= |before[i]|
    requires final == Finals(devs, items, before)
    ensures StagedFits(s, final, unit)
  {
    forall p | p in s.pieces
      ensures PieceFits(p, s.bytes, final, unit)
    {
      assert PieceOk(devs, items, s.bytes, p, unit);
    }
  }

  /** Copies every staged unit to its output position. */
  method Scatter(staged: seq<Staged>, outs: array<seq<byte>>, unit: nat, ghost final: seq<seq<byte>>)
    requires outs.Length == |final|
    requires forall k :: 0 <= k < |staged| ==> StagedFits(staged[k], final, unit)
    requires forall i :: 0 <= i < |final| ==> Fillable(outs[i], final[i], unit)
    modifies outs
    ensures forall i :: 0 <= i < |final| ==> outs[i] == old(outs[i]) || outs[i] == final[i]
    ensures forall i :: 0 <= i < |final| && FedBy(staged, i) ==> outs[i] == final[i]
  {
    for k := 0 to |staged|
      invariant forall i :: 0 <= i < |final| ==> outs[i] == old(outs[i]) || outs[i] == final[i]
      invariant forall i, j :: 0 <= i < |final| && 0 <= j < k && Feeds(staged[j], i) ==> outs[i] == final[i]
    {
      ScatterRun(staged[k], outs, unit, final);
    }
  }

  method ScatterRun(s: Staged, outs: array<seq<byte>>, unit: nat, ghost final: seq<seq<byte>>)
    requires outs.Length == |final|
    requires StagedFits(s, final, unit)
    requires forall i :: 0 <= i < |final| ==> Fillable(outs[i], final[i], unit)
    modifies outs
    ensures forall i :: 0 <= i < |final| ==> outs[i] == old(outs[i]) || outs[i] == final[i]
    ensures forall i :: 0 <= i < |final| && Feeds(s, i) ==> outs[i] == final[i]
  {
    for n := 0 to |s.pieces|
      invariant forall i :: 0 <= i < |final| ==> outs[i] == old(outs[i]) || outs[i] == final[i]
      invariant forall m :: 0 <= m < n ==> s.pieces[m].pos < |final| && outs[s.pieces[m].pos] == final[s.pieces[m].pos]
    {
      var p := s.pieces[n];
      assert PieceFits(p, s.bytes, final, unit);
      assert Fillable(outs[p.pos], final[p.pos], unit);
      outs[p.pos] := s.bytes[p.off..p.off + unit] + outs[p.pos][unit..];
      assert outs[p.pos] == final[p.pos][..unit] + final[p.pos][unit..];
    }
  }

  class VirtualMedia {
    const home: Key -> nat  // the placement strategy
    const unit: nat
    const mgrs: seq<DeviceSegmentManager>
    const merge: bool
    const limit: Limit

    ghost function Repr(): set<object>
      reads mgrs
    {
      (set m | m in mgrs :: m as object) + (set m | m in mgrs && m.buf != null :: m.buf as object)
    }

    ghost predicate Valid()
      reads mgrs, Repr()
    {
      && (forall k :: home(k) < |mgrs|)
      && (limit.AtMost? ==> unit <= limit.bytes)
      && (forall i, j :: 0 <= i < j < |mgrs| ==>
            mgrs[i] != mgrs[j] && (mgrs[i].buf == null || mgrs[i].buf != mgrs[j].buf))
      && (forall i :: 0 <= i < |mgrs| ==> mgrs[i].Valid() && mgrs[i].geo.unit == unit)
    }

    lemma InRepr(d: nat)
      requires d < |mgrs|
      ensures mgrs[d] in Repr() && (mgrs[d].buf != null ==> mgrs[d].buf in Repr())
    {
      assert mgrs[d] in mgrs;
    }

    /** The devices as values. */
    ghost function Views(): (devs: seq<Device>)
      requires Valid()
      reads mgrs, Repr()
      ensures |devs| == |mgrs| && forall i :: 0 <= i < |mgrs| ==> devs[i] == mgrs[i].View()
    {
      seq(|mgrs|, i requires 0 <= i < |mgrs| && Valid() reads mgrs, Repr() => mgrs[i].View())
    }

    constructor (home: Key -> nat, unit: nat, mgrs: seq<DeviceSegmentManager>, merge: bool, limit: Limit)
      requires forall k :: home(k) < |mgrs|
      requires limit.AtMost? ==> 0 < unit <= limit.bytes && limit.bytes % unit == 0
      requires forall i, j :: 0 <= i < j < |mgrs| ==>
        mgrs[i] != mgrs[j] && (mgrs[i].buf == null || mgrs[i].buf != mgrs[j].buf)
      requires forall i :: 0 <= i < |mgrs| ==> mgrs[i].Valid() && mgrs[i].geo.unit == unit
      ensures Valid() && this.mgrs == mgrs && this.home == home && this.unit == unit
    {
      this.home := home;
      this.unit := unit;
      this.mgrs := mgrs;
      this.merge := merge;
      this.limit := limit;
    }

    lemma ViewsShape()
      requires Valid()
      ensures |Views()| == |mgrs| && WellFormedAll(Views(), unit) && forall k :: home(k) < |mgrs|
    {
    }

    /** write: the key's device takes the unit; no other device changes. */
    method Write(k: Key, data: seq<byte>) returns (r: Outcome<nat>)
      requires Valid()
      modifies Repr()
      ensures Valid() && fresh(Repr() - old(Repr()))
      ensures var d := home(k);
              var (e, out) := Append(old(Views())[d], data);
              Views() == old(Views())[d := e] && r == out
    {
      r := AppendTo(home(k), data);
    }

    method AppendTo(d: nat, data: seq<byte>) returns (r: Outcome<nat>)
      requires Valid() && d < |mgrs|
      modifies Repr()
      ensures Valid() && fresh(Repr() - old(Repr()))
      ensures var (e, out) := Append(old(Views())[d], data); Views() == old(Views())[d := e] && r == out
    {
      InRepr(d);
      r := mgrs[d].Append(data);
      forall i | 0 <= i < |mgrs| && i != d
        ensures mgrs[i].buf == old(mgrs[i].buf) && mgrs[i].Valid() && mgrs[i].View() == old(mgrs[i].View())
      {
      }
    }

    /** flush: every device writes out its partly filled segment. */
    method Flush()
      requires Valid()
      modifies Repr()
      ensures Valid() && fresh(Repr() - old(Repr()))
      ensures forall i :: 0 <= i < |mgrs| ==> Views()[i] == Segment.Flush(old(Views())[i])
    {
      ghost var before := Views();
      for k := 0 to |mgrs|
        invariant Valid() && Repr() <= old(Repr())
        invariant forall i :: 0 <= i < k ==> Views()[i] == Segment.Flush(before[i])
        invariant forall i :: k <= i < |mgrs| ==> Views()[i] == before[i]
      {
        FlushDevice(k);
      }
    }

    method FlushDevice(k: nat)
      requires Valid() && k < |mgrs|
      modifies Repr()
      ensures Valid() && Repr() <= old(Repr())
      ensures Views() == old(Views())[k := Segment.Flush(old(Views())[k])]
    {
      InRepr(k);
      mgrs[k].Flush();
      assert forall i :: 0 <= i < |mgrs| && i != k ==> mgrs[i].View() == old(mgrs[i].View());
      assert forall i :: 0 <= i < |mgrs| ==> mgrs[i].buf == null || mgrs[i].buf == old(mgrs[i].buf);
    }

    method IsBuffered(a: Address) returns (b: bool)
      requires Valid() && a.device < |mgrs|
      ensures b <==> InBuffer(Views()[a.device], a.off)
    {
      b := mgrs[a.device].IsBuffered(a.off);
    }

    method ReadBuffered(a: Address) returns (found: bool, data: seq<byte>)
      requires Valid() && Addressable(Views(), a)
      ensures found <==> InBuffer(Views()[a.device], a.off)
      ensures found ==> data == ReadAt(Views(), a)
    {
      found, data := mgrs[a.device].ReadBuffer(a.off);
    }

    method Release(a: Address) returns (r: Outcome<()>)
      requires Valid()
      modifies Repr()
      ensures Valid() && fresh(Repr() - old(Repr()))
      ensures a.device >= |mgrs| ==> r == Err(OutOfRange) && Views() == old(Views())
      ensures a.device < |mgrs| ==>
        var (e, out) := Segment.Release(old(Views())[a.device], a.off);
        Views() == old(Views())[a.device := e] && r == out
    {
      if a.device >= |mgrs| {
        return Err(OutOfRange);
      }
      InRepr(a.device);
      r := mgrs[a.device].Release(a.off);
      forall i | 0 <= i < |mgrs| && i != a.device
        ensures mgrs[i].buf == old(mgrs[i].buf) && mgrs[i].Valid() && mgrs[i].View() == old(mgrs[i].View())
      {
      }
      assert Repr() == old(Repr());
    }

    /** Whether a batch passes the argument checks. */
    ghost predicate GoodBatch(items: seq<Address>, outs: seq<seq<byte>>) {
      |outs| == |items| && forall i :: 0 <= i < |items| ==> items[i].device < |mgrs| && unit <= |outs[i]|
    }

    /** Serves buffered units at once and sorts the rest into per-device buckets; stops at the first bad argument. */
    method Collect(items: seq<Address>, outs: array<seq<byte>>, ghost devs: seq<Device>, ghost before: seq<seq<byte>>)
      returns (ok: bool, buckets: map<nat, seq<Piece>>)
      requires Valid() && outs !in Repr() && outs.Length == |items| && devs == Views() && before == outs[..]
      requires forall i :: 0 <= i < |items| && items[i].device < |mgrs| ==> Addressable(devs, items[i])
      modifies outs
      ensures ok <==> GoodBatch(items, before)
      ensures BucketsOk(devs, items, buckets)
      ensures ok ==> forall i :: 0 <= i < |items| ==> Placed(devs, items, i, outs[i], before[i], buckets)
    {
      buckets := map[];
      for pos := 0 to |items|
        invariant Valid() && Views() == devs
        invariant forall i :: 0 <= i < pos ==> items[i].device < |mgrs| && unit <= |before[i]|
        invariant forall i :: pos <= i < |items| ==> outs[i] == before[i]
        invariant BucketsOk(devs, items, buckets)
        invariant forall i :: 0 <= i < pos ==> Placed(devs, items, i, outs[i], before[i], buckets)
      {
        if items[pos].device >= |mgrs| || |outs[pos]| < unit {
          return false, buckets;
        }
        buckets := CollectOne(items, pos, outs, buckets, devs, before);
      }
      return true, buckets;
    }

    method CollectOne(items: seq<Address>, pos: nat, outs: array<seq<byte>>, buckets: map<nat, seq<Piece>>,
                      ghost devs: seq<Device>, ghost before: seq<seq<byte>>)
      returns (more: map<nat, seq<Piece>>)
      requires Valid() && outs !in Repr() && outs.Length == |items| == |before| && devs == Views()
      requires pos < |items| && outs[pos] == before[pos] && Addressable(devs, items[pos]) && unit <= |before[pos]|
      requires BucketsOk(devs, items, buckets)
      requires forall i :: 0 <= i < pos ==> Placed(devs, items, i, outs[i], before[i], buckets)
      modifies outs
      ensures Valid() && devs == Views()
      ensures forall i :: pos < i < |items| ==> outs[i] == old(outs[i])
      ensures BucketsOk(devs, items, more)
      ensures forall i :: 0 <= i <= pos ==> Placed(devs, items, i, outs[i], before[i], more)
    {
      var found, data := ReadBuffered(items[pos]);
      if found {
        outs[pos] := data + outs[pos][unit..];
        more := buckets;
      } else {
        var d := items[pos].device;
        AddToBucket(devs, items, buckets, pos);
        more := buckets[d := (if d in buckets then buckets[d] else []) + [Piece(pos, items[pos].off)]];
      }
    }

    /** Fetches everything the buckets list, device by device. */
    method StageAll(items: seq<Address>, buckets: map<nat, seq<Piece>>, ghost devs: seq<Device>)
      returns (staged: seq<Staged>)
      requires Valid() && devs == Views() && BucketsOk(devs, items, buckets)
      ensures forall k :: 0 <= k < |staged| ==> StagedOk(devs, items, staged[k], unit)
      ensures forall d, p: Piece :: d in buckets && p in buckets[d] ==> FedBy(staged, p.pos)
    {
      staged := [];
      for d := 0 to |mgrs|
        invariant forall k :: 0 <= k < |staged| ==> StagedOk(devs, items, staged[k], unit)
        invariant forall e, p: Piece :: e in buckets && e < d && p in buckets[e] ==> FedBy(staged, p.pos)
      {
        if d in buckets {
          var more := StageDevice(devs, items, mgrs[d].disk, buckets[d], merge, unit, limit, d);
          FedByMore(staged, more);
          staged := staged + more;
        }
      }
    }

    /** read_batch: any items, in any order and with repeats, give what reading them one by one gives. */
    method ReadBatch(items: seq<Address>, outs: array<seq<byte>>) returns (ok: bool)
      requires Valid() && outs !in Repr()
      requires forall i :: 0 <= i < |items| && items[i].device < |mgrs| ==> Addressable(Views(), items[i])
      modifies outs
      ensures ok <==> GoodBatch(items, old(outs[..]))
      ensures ok ==> forall i :: 0 <= i < |items| ==> outs[i] == Filled(old(Views()), items[i], old(outs[i]))
    {
      if outs.Length != |items| {
        return false;
      }
      ghost var before := outs[..];
      ghost var devs := Views();
      var buckets;
      ok, buckets := Collect(items, outs, devs, before);
      if !ok {
        return;
      }
      var staged := StageAll(items, buckets, devs);
      ghost var final := Finals(devs, items, before);
      forall k | 0 <= k < |staged|
        ensures StagedFits(staged[k], final, unit)
      {
        StagedOkFits(devs, items, staged[k], unit, before, final);
      }
      Scatter(staged, outs, unit, final);
    }
  }

  ghost predicate BucketsOk(devs: seq<Device>, items: seq<Address>, buckets: map<nat, seq<Piece>>) {
    forall d :: d in buckets ==> d < |devs| && BucketOk(devs, items, d, buckets[d])
  }

  /** Position i has its unit already, or still its old content and a place in a bucket. */
  ghost predicate Placed(devs: seq<Device>, items: seq<Address>, i: nat, out: seq<byte>, before: seq<byte>,
                         buckets: map<nat, seq<Piece>>) {
    && i < |items| && Addressable(devs, items[i]) && devs[items[i].device].geo.unit <= |before|
    && (|| out == Filled(devs, items[i], before)
        || (out == before && items[i].device in buckets && Piece(i, items[i].off) in buckets[items[i].device]))
  }

  lemma AddToBucket(devs: seq<Device>, items: seq<Address>, buckets: map<nat, seq<Piece>>, pos: nat)
    requires BucketsOk(devs, items, buckets) && pos < |items| && Addressable(devs, items[pos])
    requires !InBuffer(devs[items[pos].device], items[pos].off)
    ensures var d := items[pos].device;
            var more := buckets[d := (if d in buckets then buckets[d] else []) + [Piece(pos, items[pos].off)]];
            && BucketsOk(devs, items, more)
            && Piece(pos, items[pos].off) in more[d]
            && forall e :: e in buckets ==> e in more && forall p :: p in buckets[e] ==> p in more[e]
  {
  }

  lemma FedByMore(a: seq<Staged>, b: seq<Staged>)
    ensures forall pos :: FedBy(a, pos) || FedBy(b, pos) ==> FedBy(a + b, pos)
  {
    forall pos | FedBy(a, pos) || FedBy(b, pos)
      ensures FedBy(a + b, pos)
    {
      if FedBy(a, pos) {
        var k :| 0 <= k < |a| && Feeds(a[k], pos);
        assert Feeds((a + b)[k], pos);
      } else {
        var k :| 0 <= k < |b| && Feeds(b[k], pos);
        assert Feeds((a + b)[|a| + k], pos);
      }
    }
  }
}
