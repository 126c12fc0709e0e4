/**
  Readers racing with writers on one device, as interleaved lock-atomic steps. A reader holds an offset it found in
  the slot table, asks whether the unit is still buffered, may then ask for the buffered bytes and be told they are
  gone, and in the end either has buffered bytes or reads the device without any lock.
 */
module Readers {
  import opened Bytes
  import opened Segment

  datatype Phase = Start | SawBuffered | OnDisk | Done(got: seq<byte>)

  /** want is what the unit held when the reader picked up its offset. */
  datatype Reader = Reader(off: nat, want: seq<byte>, phase: Phase)

  datatype System = System(owned: Owned, readers: map<nat, Reader>)

  datatype Action =
    | Writer(op: Op)              // append, flush or release, each inside the device lock
    | Begin(id: nat, off: nat)    // slot-table lookup
    | AskBuffered(id: nat)        // is_buffered
    | TryBuffer(id: nat)          // read_buffered / read_buffer
    | ReadDisk(id: nat)           // direct or merged device read

  /** A unit is released only after every reader that holds its offset has finished. */
  ghost predicate Enabled(s: System, a: Action) {
    match a
    case Writer(op) =>
      && Allowed(s.owned, op)
      && (op.ReleaseOp? ==> forall id :: id in s.readers && !s.readers[id].phase.Done? ==> s.readers[id].off != op.off)
    case Begin(id, off) => id !in s.readers && off in s.owned.live
    case AskBuffered(id) => id in s.readers && s.readers[id].phase.Start?
    case TryBuffer(id) => id in s.readers && (s.readers[id].phase.Start? || s.readers[id].phase.SawBuffered?)
    case ReadDisk(id) => id in s.readers && s.readers[id].phase.OnDisk?
  }

  ghost predicate Addresses(d: Device, off: nat) {
    WellFormed(d) && d.geo.IsUnit(off)
  }

  /** The bytes on the device at off, whatever the buffer holds. */
  ghost function DiskBytes(d: Device, off: nat): seq<byte>
    requires Addresses(d, off)
  {
    UnitFits(d.geo, off);
    d.disk[off..off + d.geo.unit]
  }

  ghost predicate CanStep(s: System, a: Action) {
    && WellFormed(s.owned.dev)
    && Enabled(s, a)
    && (a.AskBuffered? || a.TryBuffer? || a.ReadDisk? ==> Addresses(s.owned.dev, s.readers[a.id].off))
  }

  ghost function Next(s: System, a: Action): System
    requires CanStep(s, a)
  {
    var d := s.owned.dev;
    match a
    case Writer(op) => s.(owned := Segment.Step(s.owned, op))
    case Begin(id, off) => s.(readers := s.readers[id := Reader(off, s.owned.live[off], Start)])
    case AskBuffered(id) =>
      var r := s.readers[id];
      s.(readers := s.readers[id := r.(phase := if InBuffer(d, r.off) then SawBuffered else OnDisk)])
    case TryBuffer(id) =>
      var r := s.readers[id];
      s.(readers := s.readers[id := r.(phase := if InBuffer(d, r.off) then Done(Read(d, r.off)) else OnDisk)])
    case ReadDisk(id) =>
      var r := s.readers[id];
      s.(readers := s.readers[id := r.(phase := Done(DiskBytes(d, r.off)))])
  }

  ghost predicate ReaderOk(o: Owned, r: Reader)
    requires WellFormed(o.dev)
  {
    match r.phase
    case Done(got) => got == r.want
    case OnDisk => r.off in o.live && o.live[r.off] == r.want && !InBuffer(o.dev, r.off)
    case _ => r.off in o.live && o.live[r.off] == r.want
  }

  ghost predicate SystemInv(s: System) {
    && Inv(s.owned.dev, s.owned.live)
    && forall id :: id in s.readers ==> ReaderOk(s.owned, s.readers[id])
  }

  lemma NextKeeps(s: System, a: Action)
    requires SystemInv(s) && CanStep(s, a)
    ensures SystemInv(Next(s, a))
  {
    match a {
      case Writer(op) =>
        StepKeeps(s.owned, op);
        forall id | id in s.readers
          ensures ReaderOk(Next(s, a).owned, s.readers[id])
        {
          WriterKeepsReader(s.owned, op, s.readers[id]);
        }
      case _ =>
    }
  }

  /** In these states every step a thread may want to take is well defined. */
  lemma EnabledCanStep(s: System, a: Action)
    requires SystemInv(s) && Enabled(s, a)
    ensures CanStep(s, a)
  {
    if a.AskBuffered? || a.TryBuffer? || a.ReadDisk? {
      var r := s.readers[a.id];
      assert ReaderOk(s.owned, r);
      assert Written(s.owned.dev, r.off);
    }
  }

  lemma WriterKeepsReader(o: Owned, op: Op, r: Reader)
    requires Inv(o.dev, o.live) && Allowed(o, op) && ReaderOk(o, r)
    requires op.ReleaseOp? && !r.phase.Done? ==> r.off != op.off
    ensures WellFormed(Segment.Step(o, op).dev) && ReaderOk(Segment.Step(o, op), r)
  {
    StepKeeps(o, op);
    if op.AppendOp? {
      AppendKeeps(o.dev, o.live, op.data);
    }
  }

  ghost predicate Interleaving(s: System, actions: seq<Action>, t: System)
    decreases actions
  {
    if actions == [] then t == s
    else CanStep(s, actions[0]) && Interleaving(Next(s, actions[0]), actions[1..], t)
  }

  /**
    Under every interleaving, every finished reader has the unit's bytes, and every reader that was sent to the
    device, even after being told the unit was buffered, finds them already there.
   */
  lemma {:induction false} ReadersSafe(s: System, actions: seq<Action>, t: System)
    requires SystemInv(s) && Interleaving(s, actions, t)
    ensures SystemInv(t)
    ensures forall id :: id in t.readers && t.readers[id].phase.Done? ==> t.readers[id].phase.got == t.readers[id].want
    ensures forall id :: id in t.readers && t.readers[id].phase.OnDisk? ==>
      Addresses(t.owned.dev, t.readers[id].off) && DiskBytes(t.owned.dev, t.readers[id].off) == t.readers[id].want
    decreases actions
  {
    if actions != [] {
      NextKeeps(s, actions[0]);
      ReadersSafe(Next(s, actions[0]), actions[1..], t);
    } else {
      forall id | id in t.readers && t.readers[id].phase.OnDisk?
        ensures Addresses(t.owned.dev, t.readers[id].off)
        ensures DiskBytes(t.owned.dev, t.readers[id].off) == t.readers[id].want
      {
        assert Written(t.owned.dev, t.readers[id].off);
      }
    }
  }
}
