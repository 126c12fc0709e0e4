/**
  When the I/O engine stops short of its work. Permits are taken one by one while a batch is collected, so batches can
  block each other; a callback that submits can block the worker it runs on.
 */
module EngineStops {
  import opened Engine
  import opened EngineHandles
  import opened EngineLedger
  import opened EngineOrder
  import opened EngineRuns
  import opened Finite
  import opened Grouping
  import opened Sums

  /** Steps of submitters and workers, as opposed to new calls. */
  predicate Work(step: Step) {
    !step.Submit? && !step.Close? && !step.Shutdown? && !step.AddCallback? && !step.RunCallback?
  }

  ghost predicate NoWork(cfg: Config, s: State)
    requires cfg.Ok()
  {
    forall step :: Work(step) ==> !Enabled(cfg, s, step)
  }

  // ---------- stopped states ----------

  /** The submitter waits for a permit and there is none. */
  predicate Waits(cfg: Config, s: State, b: Batch) {
    cfg.limited && s.permits <= 0 && b.phase.Acquiring? && !b.phase.holding && b.phase.n < |b.items|
  }

  /** The group is finished, or its worker is inside a submission, or all workers of its queue are busy. */
  ghost predicate Halted(cfg: Config, s: State, t: nat)
    requires t < |s.tasks|
  {
    || s.tasks[t].progress.Finished?
    || (s.tasks[t].progress.Calling? && Blocked(s, t))
    || (s.tasks[t].progress.Queued? && |Active(s, s.tasks[t].queue)| >= cfg.Slots())
  }

  ghost predicate AllStopped(cfg: Config, s: State) {
    && (forall t :: 0 <= t < |s.tasks| ==> Halted(cfg, s, t))
    && (forall h :: 0 <= h < |s.batches| ==> s.batches[h].phase.Returned? || Waits(cfg, s, s.batches[h]))
  }

  /** A group that is not halted has a step, its own or that of a group before it. */
  lemma {:induction false} TaskProgress(cfg: Config, s: State, t: nat) returns (step: Step)
    requires cfg.Ok() && Shape(cfg, s) && t < |s.tasks| && !Halted(cfg, s, t)
    ensures Work(step) && Enabled(cfg, s, step)
    decreases t
  {
    hide Groups, IsGroup, Blocked;
    var x := s.tasks[t];
    assert TaskOk(cfg, s, x);
    if x.progress.Executing? {
      step := if |x.progress.oks| < |x.group| then Execute(t, true) else Tally(t);
    } else if x.progress.Releasing? {
      step := if x.progress.j < |x.group| then Release(t) else Deliver(t);
    } else if x.progress.Calling? {
      step := CallProgress(cfg, s, t);
    } else if i :| 0 <= i < t && s.tasks[i].queue == x.queue && s.tasks[i].progress.Queued? {
      step := TaskProgress(cfg, s, i);
    } else {
      step := Take(t);
    }
  }

  lemma CallProgress(cfg: Config, s: State, t: nat) returns (step: Step)
    requires cfg.Ok() && CallingFree(s, t)
    ensures Work(step) && Enabled(cfg, s, step)
  {
    hide Groups, Blocked;
    var calls := s.batches[s.tasks[t].batch].handle.calls;
    if calls == multiset{} {
      step := Leave(t);
    } else {
      var id :| id in calls;
      step := Call(t, id);
    }
  }

  lemma BatchProgress(cfg: Config, s: State, h: nat) returns (step: Step)
    requires cfg.Ok() && Shape(cfg, s) && h < |s.batches| && !s.batches[h].phase.Returned?
    requires !Waits(cfg, s, s.batches[h])
    ensures Work(step) && Enabled(cfg, s, step)
  {
    hide Groups, TaskOk;
    var b := s.batches[h];
    assert BatchOk(cfg, b);
    match b.phase
    case Acquiring(n, holding) => step := if holding then Count(h) else if n < |b.items| then Acquire(h) else Start(h);
    case Scheduling(p) => step := if p < |Gs(cfg, b)| then Schedule(h) else Return(h);
    case Failing(_, _, stage) =>
      step := match stage case GivingBack => GiveBack(h) case Uncounting => Uncount(h) case Setting => SetFailed(h);
  }

  /** Submitters and workers can do nothing exactly in these states. */
  lemma StuckIff(cfg: Config, s: State)
    requires cfg.Ok() && Shape(cfg, s)
    ensures NoWork(cfg, s) <==> AllStopped(cfg, s)
  {
    if NoWork(cfg, s) {
      hide Enabled, Shape, Halted;
      forall t | 0 <= t < |s.tasks|
        ensures Halted(cfg, s, t)
      {
        if !Halted(cfg, s, t) {
          var step := TaskProgress(cfg, s, t);
          assert false;
        }
      }
      forall h | 0 <= h < |s.batches|
        ensures s.batches[h].phase.Returned? || Waits(cfg, s, s.batches[h])
      {
        if !s.batches[h].phase.Returned? && !Waits(cfg, s, s.batches[h]) {
          var step := BatchProgress(cfg, s, h);
          assert false;
        }
      }
    }
    if AllStopped(cfg, s) {
      hide Shape;
      forall step | Work(step)
        ensures !Enabled(cfg, s, step)
      {
        StoppedStep(cfg, s, step);
      }
    }
  }

  lemma StoppedStep(cfg: Config, s: State, step: Step)
    requires cfg.Ok() && AllStopped(cfg, s) && Work(step)
    ensures !Enabled(cfg, s, step)
  {
    hide Groups, Active;
    match step
    case Take(t) => assert t < |s.tasks| ==> Halted(cfg, s, t);
    case Execute(t, _) => assert t < |s.tasks| ==> Halted(cfg, s, t);
    case Tally(t) => assert t < |s.tasks| ==> Halted(cfg, s, t);
    case Release(t) => assert t < |s.tasks| ==> Halted(cfg, s, t);
    case Deliver(t) => assert t < |s.tasks| ==> Halted(cfg, s, t);
    case Call(t, _) => assert t < |s.tasks| ==> Halted(cfg, s, t);
    case Leave(t) => assert t < |s.tasks| ==> Halted(cfg, s, t);
    case _ =>
  }

  // ---------- callbacks that do not submit ----------

  /** No batch was submitted from inside a callback on a worker. */
  ghost predicate NoNested(s: State) {
    forall h :: 0 <= h < |s.batches| ==> s.batches[h].origin.Outside?
  }

  /** Then workers are never blocked, so a stop leaves no group unfinished. */
  lemma StoppedFinished(cfg: Config, s: State, t: nat)
    requires cfg.Ok() && AllStopped(cfg, s) && NoNested(s) && t < |s.tasks|
    ensures s.tasks[t].progress.Finished?
  {
    hide Groups;
    forall i | 0 <= i < |s.tasks|
      ensures !Busy(s.tasks[i]) && Halted(cfg, s, i)
    {
      assert Halted(cfg, s, i) && !Blocked(s, i);
    }
    assert Active(s, s.tasks[t].queue) == {};
  }

  /** Requests short of the last one: what a batch can hold while it still waits. */
  ghost function ShortB(): Batch -> int {
    (b: Batch) => Short(b.items)
  }

  function Short(items: seq<nat>): int {
    if items == [] then 0 else |items| - 1
  }

  ghost function ShortItems(): seq<nat> -> int {
    (items: seq<nat>) => Short(items)
  }

  lemma {:induction false} ShortTotal(batches: seq<Batch>, bs: seq<seq<nat>>)
    requires |batches| == |bs| && forall h :: 0 <= h < |bs| ==> batches[h].items == bs[h]
    ensures Total(batches, ShortB()) == Total(bs, ShortItems())
    decreases |bs|
  {
    if bs != [] {
      var n := |bs| - 1;
      ShortTotal(batches[..n], bs[..n]);
    }
  }

  /** A stop with a submitter waiting: the batches' sizes, one request less each, add up to the limit. */
  lemma StopNeeds(cfg: Config, s: State, h: nat)
    requires cfg.Ok() && Inv(cfg, s) && NoWork(cfg, s) && NoNested(s) && h < |s.batches|
    requires !s.batches[h].phase.Returned?
    ensures cfg.limited && Total(s.batches, ShortB()) >= cfg.limit
  {
    hide Delivery, Fifo, Fits, Callers, Groups, NoWork, Held, Enabled;
    StuckIff(cfg, s);
    forall t | 0 <= t < |s.tasks|
      ensures HeldT()(s.tasks[t]) == 0
    {
      StoppedFinished(cfg, s, t);
    }
    HeldParts(cfg, s);
    forall i | 0 <= i < |s.batches|
      ensures HeldB(cfg)(s.batches[i]) <= ShortB()(s.batches[i])
    {
      assert BatchOk(cfg, s.batches[i]);
    }
    TotalMono(s.batches, HeldB(cfg), ShortB());
  }

  lemma HeldParts(cfg: Config, s: State)
    requires cfg.Ok() && forall t :: 0 <= t < |s.tasks| ==> HeldT()(s.tasks[t]) == 0
    ensures Held(cfg, s) == Total(s.batches, HeldB(cfg))
  {
    AllZero(s.tasks, HeldT());
  }

  /** Without a limit nothing stops. */
  lemma UnlimitedNeverStops(cfg: Config, s: State)
    requires cfg.Ok() && Shape(cfg, s) && !cfg.limited && NoWork(cfg, s) && NoNested(s)
    ensures Quiet(s)
  {
    hide Groups, NoWork, Enabled;
    StuckIff(cfg, s);
    forall t | 0 <= t < |s.tasks|
      ensures s.tasks[t].progress.Finished?
    {
      StoppedFinished(cfg, s, t);
    }
  }

  // ---------- reaching a stop ----------

  lemma {:induction false} ReachesTrans(cfg: Config, s: State, a: seq<Step>, m: State, b: seq<Step>, r: State)
    requires cfg.Ok() && Reaches(cfg, s, a, m) && Reaches(cfg, m, b, r)
    ensures Reaches(cfg, s, a + b, r)
    decreases |a|
  {
    hide Next, Enabled;
    if a == [] {
      assert a + b == b;
    } else {
      ReachesTrans(cfg, Next(cfg, s, a[0]), a[1..], m, b, r);
      assert (a + b)[1..] == a[1..] + b;
    }
  }

  lemma ReachOne(cfg: Config, s: State, step: Step)
    requires cfg.Ok() && Enabled(cfg, s, step)
    ensures Reaches(cfg, s, [step], Next(cfg, s, step))
  {
    hide Next, Enabled;
    assert Reaches(cfg, Next(cfg, s, step), [], Next(cfg, s, step));
    assert [step][1..] == [];
  }

  lemma Reach(cfg: Config, s: State, a: seq<Step>, m: State, step: Step) returns (steps: seq<Step>)
    requires cfg.Ok() && Reaches(cfg, s, a, m) && Enabled(cfg, m, step)
    ensures Reaches(cfg, s, steps, Next(cfg, m, step))
  {
    ReachOne(cfg, m, step);
    ReachesTrans(cfg, s, a, m, [step], Next(cfg, m, step));
    steps := a + [step];
  }

  /** Batch h after k more requests were permitted and counted. */
  ghost function Collected(s: State, h: nat, k: nat): State
    requires h < |s.batches| && s.batches[h].phase.Acquiring?
  {
    s.At(h, Acquiring(s.batches[h].phase.n + k, false)).(
      permits := s.permits - k, submitted := s.submitted + k, inflight := s.inflight + k)
  }

  lemma {:induction false} Collect(cfg: Config, s: State, h: nat, k: nat) returns (steps: seq<Step>)
    requires cfg.Ok() && h < |s.batches| && s.batches[h].phase.Acquiring? && !s.batches[h].phase.holding
    requires s.batches[h].phase.n + k <= |s.batches[h].items| && (cfg.limited ==> k <= s.permits)
    ensures Reaches(cfg, s, steps, Collected(s, h, k))
    decreases k
  {
    hide Next, Enabled;
    if k == 0 {
      steps := [];
      CollectedNone(s, h);
    } else {
      steps := Collect(cfg, s, h, k - 1);
      hide Reaches;
      CollectedMore(s, h, k);
      steps := CollectOne(cfg, s, steps, Collected(s, h, k - 1), h);
    }
  }

  lemma CollectedNone(s: State, h: nat)
    requires h < |s.batches| && s.batches[h].phase.Acquiring? && !s.batches[h].phase.holding
    ensures Collected(s, h, 0) == s
  {
  }

  lemma CollectedMore(s: State, h: nat, k: nat)
    requires h < |s.batches| && s.batches[h].phase.Acquiring? && 0 < k
    ensures var m := Collected(s, h, k - 1);
      && h < |m.batches| && m.batches[h].items == s.batches[h].items && m.permits == s.permits - (k - 1)
      && m.batches[h].phase == Acquiring(s.batches[h].phase.n + (k - 1), false)
      && Collected(m, h, 1) == Collected(s, h, k)
  {
  }

  lemma CollectOne(cfg: Config, s: State, before: seq<Step>, m: State, h: nat) returns (steps: seq<Step>)
    requires cfg.Ok() && Reaches(cfg, s, before, m) && h < |m.batches|
    requires m.batches[h].phase.Acquiring? && !m.batches[h].phase.holding
    requires m.batches[h].phase.n < |m.batches[h].items| && (cfg.limited ==> 0 < m.permits)
    ensures Reaches(cfg, s, steps, Collected(m, h, 1))
  {
    hide Reaches, Groups;
    steps := Reach(cfg, s, before, m, Acquire(h));
    var next := Next(cfg, m, Acquire(h));
    steps := Reach(cfg, s, steps, next, Count(h));
    assert Next(cfg, next, Count(h)).batches == Collected(m, h, 1).batches;
  }

  /** What is left of the limit after batches of these sizes took all but one of their permits. */
  ghost function Left(cfg: Config, bs: seq<seq<nat>>): nat {
    if Total(bs, ShortItems()) <= cfg.limit then cfg.limit - Total(bs, ShortItems()) else 0
  }

  /** Every batch submitted; the nonempty ones wait short of their last permit, holding as much as the limit allows. */
  ghost predicate Parked(cfg: Config, bs: seq<seq<nat>>, s: State) {
    && s.tasks == [] && !s.closed && |s.batches| == |bs| && s.permits == Left(cfg, bs)
    && forall h :: 0 <= h < |bs| ==> ParkedBatch(s.batches[h], bs[h])
  }

  ghost predicate ParkedBatch(b: Batch, items: seq<nat>) {
    && b.items == items && b.origin.Outside?
    && if items == [] then b.phase.Returned? else b.phase.Acquiring? && !b.phase.holding && b.phase.n < |items|
  }

  lemma NoGroups(cfg: Config, b: Batch)
    requires cfg.Ok() && b.items == []
    ensures Gs(cfg, b) == []
  {
  }

  /** An empty batch needs no permit and returns at once. */
  lemma PassEmpty(cfg: Config, s: State, h: nat) returns (steps: seq<Step>)
    requires cfg.Ok() && h < |s.batches| && s.batches[h].items == [] && s.batches[h].phase == Acquiring(0, false)
    ensures Reaches(cfg, s, steps, s.At(h, Returned))
  {
    hide Groups;
    NoGroups(cfg, s.batches[h]);
    ReachOne(cfg, s, Start(h));
    var m := Next(cfg, s, Start(h));
    NoGroups(cfg, m.batches[h]);
    steps := Reach(cfg, s, [Start(h)], m, Return(h));
    assert Next(cfg, m, Return(h)) == s.At(h, Returned);
  }

  lemma Min(a: int, b: int) returns (m: int)
    ensures m <= a && m <= b && (m == a || m == b)
  {
    m := if a <= b then a else b;
  }

  lemma ParkNext(cfg: Config, bs: seq<seq<nat>>, s: State, items: seq<nat>) returns (steps: seq<Step>, r: State)
    requires cfg.Ok() && cfg.limited && Parked(cfg, bs, s)
    ensures Reaches(cfg, s, steps, r) && Parked(cfg, bs + [items], r)
  {
    hide Groups, Reaches, Left;
    var step, h, k := Submit(items, Outside), |bs|, 0;
    ReachOne(cfg, s, step);
    var m := Next(cfg, s, step);
    if items == [] {
      steps := PassEmpty(cfg, m, h);
      r := m.At(h, Returned);
    } else {
      k := Min(|items| - 1, s.permits);
      steps := Collect(cfg, m, h, k);
      r := Collected(m, h, k);
    }
    ReachesTrans(cfg, s, [step], m, steps, r);
    steps := [step] + steps;
    ParkedMore(cfg, bs, s, items, r, k);
  }

  /** One more batch parked: it took k permits, as many as it may. */
  lemma ParkedMore(cfg: Config, bs: seq<seq<nat>>, s: State, items: seq<nat>, r: State, k: int)
    requires Parked(cfg, bs, s) && r.tasks == [] && !r.closed && |r.batches| == |bs| + 1
    requires (forall i :: 0 <= i < |bs| ==> r.batches[i] == s.batches[i]) && ParkedBatch(r.batches[|bs|], items)
    requires r.permits == s.permits - k
    requires if items == [] then k == 0 else k <= |items| - 1 && k <= s.permits && (k == |items| - 1 || k == s.permits)
    ensures Parked(cfg, bs + [items], r)
  {
    TotalSnoc(bs, items, ShortItems());
    forall i | 0 <= i < |bs + [items]|
      ensures ParkedBatch(r.batches[i], (bs + [items])[i])
    {
      assert i < |bs| ==> ParkedBatch(s.batches[i], bs[i]);
    }
  }

  lemma {:induction false} Park(cfg: Config, bs: seq<seq<nat>>) returns (steps: seq<Step>, s: State)
    requires cfg.Ok() && cfg.limited
    ensures Reaches(cfg, Initial(cfg), steps, s) && Parked(cfg, bs, s)
    decreases |bs|
  {
    hide Groups, Next, Enabled;
    if bs == [] {
      steps, s := [], Initial(cfg);
    } else {
      var n := |bs| - 1;
      var before, m := Park(cfg, bs[..n]);
      steps, s := ParkNext(cfg, bs[..n], m, bs[n]);
      ReachesTrans(cfg, Initial(cfg), before, m, steps, s);
      steps := before + steps;
      assert bs == bs[..n] + [bs[n]];
    }
  }

  /** A run that submits exactly these batches, from outside, and stops with a submitter waiting. */
  ghost predicate StopAt(cfg: Config, bs: seq<seq<nat>>, steps: seq<Step>, s: State)
    requires cfg.Ok()
  {
    && Reaches(cfg, Initial(cfg), steps, s) && NoNested(s) && NoWork(cfg, s)
    && |s.batches| == |bs| && (forall h :: 0 <= h < |bs| ==> s.batches[h].items == bs[h])
    && exists h :: 0 <= h < |s.batches| && !s.batches[h].phase.Returned?
  }

  /**
    The exact condition, when callbacks do not submit: some run of these batches stops for good if and only if their
    sizes, one request less each, add up to max_inflight. A single batch larger than max_inflight is the smallest case.
   */
  lemma StopIff(cfg: Config, bs: seq<seq<nat>>)
    requires cfg.Ok() && cfg.limited
    ensures (exists steps, s :: StopAt(cfg, bs, steps, s)) <==> Total(bs, ShortItems()) >= cfg.limit
  {
    hide Groups, Next, Enabled, NoWork, Inv, Reaches;
    if steps, s :| StopAt(cfg, bs, steps, s) {
      var h :| 0 <= h < |s.batches| && !s.batches[h].phase.Returned?;
      InitialInv(cfg);
      EngineRuns.RunKeeps(cfg, Initial(cfg), steps, s);
      StopNeeds(cfg, s, h);
      ShortTotal(s.batches, bs);
    }
    if Total(bs, ShortItems()) >= cfg.limit {
      var steps, s := Park(cfg, bs);
      ParkedStops(cfg, bs, steps, s);
      assert StopAt(cfg, bs, steps, s);
    }
  }

  lemma ParkedStops(cfg: Config, bs: seq<seq<nat>>, steps: seq<Step>, s: State)
    requires cfg.Ok() && cfg.limited && Total(bs, ShortItems()) >= cfg.limit
    requires Reaches(cfg, Initial(cfg), steps, s) && Parked(cfg, bs, s)
    ensures StopAt(cfg, bs, steps, s)
  {
    hide Groups, Next, Enabled, NoWork, Reaches;
    InitialInv(cfg);
    EngineRuns.RunKeeps(cfg, Initial(cfg), steps, s);
    assert forall h :: 0 <= h < |bs| ==> ParkedBatch(s.batches[h], bs[h]);
    StuckIff(cfg, s);
    if forall h :: 0 <= h < |bs| ==> bs[h] == [] {
      AllZero(bs, ShortItems());
      assert false;
    }
  }

  // ---------- stops are final ----------

  /** No permit is free and nobody who could return one is left; empty batches need none. */
  ghost predicate Jam(cfg: Config, s: State) {
    && cfg.limited && s.permits <= 0 && (forall t :: 0 <= t < |s.tasks| ==> s.tasks[t].progress.Finished?)
    && (forall h :: 0 <= h < |s.batches| ==> JammedBatch(cfg, s, s.batches[h]))
  }

  ghost predicate JammedBatch(cfg: Config, s: State, b: Batch) {
    b.phase.Returned? || Waits(cfg, s, b) || (b.items == [] && !b.phase.Failing?)
  }

  lemma StopIsJam(cfg: Config, bs: seq<seq<nat>>, steps: seq<Step>, s: State)
    requires cfg.Ok() && cfg.limited && StopAt(cfg, bs, steps, s)
    ensures Jam(cfg, s) && Shape(cfg, s)
  {
    hide Groups, Next, Enabled, NoWork, Reaches;
    InitialInv(cfg);
    EngineRuns.RunKeeps(cfg, Initial(cfg), steps, s);
    StuckIff(cfg, s);
    forall t | 0 <= t < |s.tasks|
      ensures s.tasks[t].progress.Finished?
    {
      StoppedFinished(cfg, s, t);
    }
    var h :| 0 <= h < |s.batches| && !s.batches[h].phase.Returned?;
    assert Waits(cfg, s, s.batches[h]);
  }

  lemma JamKept(cfg: Config, s: State, step: Step)
    requires cfg.Ok() && Shape(cfg, s) && Jam(cfg, s) && Enabled(cfg, s, step)
    ensures Jam(cfg, Next(cfg, s, step)) && Next(cfg, s, step).permits == s.permits
    ensures forall h :: 0 <= h < |s.batches| && Waits(cfg, s, s.batches[h]) ==>
      h < |Next(cfg, s, step).batches| && Next(cfg, s, step).batches[h].phase == s.batches[h].phase
  {
    hide Next, Enabled, Shape, JammedBatch, Waits;
    JamStep(cfg, s, step);
    forall h | 0 <= h < |Next(cfg, s, step).batches|
      ensures JammedBatch(cfg, Next(cfg, s, step), Next(cfg, s, step).batches[h])
    {
      JammedKept(cfg, s, step, h);
    }
    forall h | 0 <= h < |s.batches| && Waits(cfg, s, s.batches[h])
      ensures h < |Next(cfg, s, step).batches| && Next(cfg, s, step).batches[h].phase == s.batches[h].phase
    {
      ItemsKept(cfg, s, step, h);
      JammedKept(cfg, s, step, h);
    }
  }

  /** Only calls from outside, and empty batches, still move. */
  lemma JamStep(cfg: Config, s: State, step: Step)
    requires cfg.Ok() && Shape(cfg, s) && Jam(cfg, s) && Enabled(cfg, s, step)
    ensures !Work(step) || step.Start? || step.Return?
    ensures Next(cfg, s, step).permits == s.permits && Next(cfg, s, step).tasks == s.tasks
  {
    hide Groups, Blocked, TaskOk, Active;
    if OnSubmitter(step) && step.h < |s.batches| {
      assert JammedBatch(cfg, s, s.batches[step.h]) && BatchOk(cfg, s.batches[step.h]);
      if s.batches[step.h].items == [] {
        NoGroups(cfg, s.batches[step.h]);
      }
    }
  }

  predicate OnSubmitter(step: Step) {
    step.Acquire? || step.Count? || step.Start? || step.Schedule? || step.GiveBack? || step.Uncount? ||
    step.SetFailed? || step.Return?
  }

  lemma JammedKept(cfg: Config, s: State, step: Step, h: nat)
    requires cfg.Ok() && Shape(cfg, s) && Jam(cfg, s) && Enabled(cfg, s, step) && h < |Next(cfg, s, step).batches|
    ensures JammedBatch(cfg, Next(cfg, s, step), Next(cfg, s, step).batches[h])
    ensures h < |s.batches| && Waits(cfg, s, s.batches[h]) ==> Next(cfg, s, step).batches[h].phase == s.batches[h].phase
  {
    JamStep(cfg, s, step);
    if h >= |s.batches| {
      NewBatch(cfg, s, step, h);
      hide Next;
    } else if OnBatch(s, step, h) {
      hide Groups, Blocked;
      assert JammedBatch(cfg, s, s.batches[h]);
    } else {
      OtherBatch(cfg, s, step, h);
      hide Next;
      assert JammedBatch(cfg, s, s.batches[h]);
    }
  }

  /** From a jam on, a waiting submitter waits in every continuation. */
  lemma {:induction false} JamForever(cfg: Config, s: State, steps: seq<Step>, r: State, h: nat)
    requires cfg.Ok() && Shape(cfg, s) && Jam(cfg, s) && Reaches(cfg, s, steps, r) && h < |s.batches|
    requires Waits(cfg, s, s.batches[h])
    ensures h < |r.batches| && r.batches[h].phase == s.batches[h].phase
    decreases |steps|
  {
    hide Next, Enabled, Shape, Jam;
    if steps != [] {
      var next := Next(cfg, s, steps[0]);
      JamKept(cfg, s, steps[0]);
      ShapeKept(cfg, s, steps[0]);
      ItemsKept(cfg, s, steps[0], h);
      JamForever(cfg, next, steps[1..], r, h);
    }
  }

  // ---------- callbacks that submit ----------

  ghost predicate Zeros(items: seq<nat>) {
    items != [] && forall i :: 0 <= i < |items| ==> items[i] == 0
  }

  /** Requests of one chunk form one group, in queue 0. */
  lemma OneGroup(cfg: Config, b: Batch)
    requires cfg.Ok() && cfg.Slots() == 1 && Zeros(b.items)
    ensures |Gs(cfg, b)| == 1 && |Gs(cfg, b)[0]| == |b.items| && QueueOf(cfg, b, 0) == 0
  {
    var gs, n := Gs(cfg, b), |b.items|;
    forall i | 0 <= i < n
      ensures cfg.Key(b.items, i) == 0
    {
    }
    hide Config.Key;
    assert InSome(gs, 0);
    var last := |gs| - 1;
    assert GoodGroup(gs[0], cfg, b.items, n) && GoodGroup(gs[last], cfg, b.items, n);
    assert cfg.Key(b.items, gs[0][0]) == cfg.Key(b.items, gs[last][0]);
    if 0 < last {
      assert false;
    }
    SizeAll(cfg, b.items, n);
    assert SizeFrom(gs, 1) == 0;
  }

  /** A batch of one chunk with enough permits is queued as one group and its submitter returns. */
  ghost function Passed(s: State, h: nat, g: seq<nat>): State
    requires h < |s.batches|
  {
    var n := |s.batches[h].items|;
    s.At(h, Returned).(
      tasks := s.tasks + [Task(h, g, 0, Queued)],
      permits := s.permits - n, submitted := s.submitted + n, inflight := s.inflight + n)
  }

  lemma Pass(cfg: Config, s: State, h: nat) returns (steps: seq<Step>, g: seq<nat>)
    requires cfg.Ok() && cfg.Slots() == 1 && h < |s.batches| && Zeros(s.batches[h].items) && s.shut == {}
    requires s.batches[h].phase == Acquiring(0, false) && (cfg.limited ==> |s.batches[h].items| <= s.permits)
    ensures Reaches(cfg, s, steps, Passed(s, h, g)) && |g| == |s.batches[h].items|
  {
    hide Reaches, Groups, Zeros, QueueOf;
    var n := |s.batches[h].items|;
    steps := Collect(cfg, s, h, n);
    var a := Collected(s, h, n);
    steps := Reach(cfg, s, steps, a, Start(h));
    var b := Next(cfg, a, Start(h));
    OneGroup(cfg, b.batches[h]);
    steps := Reach(cfg, s, steps, b, Schedule(h));
    var c := Next(cfg, b, Schedule(h));
    OneGroup(cfg, c.batches[h]);
    steps := Reach(cfg, s, steps, c, Return(h));
    var d := Next(cfg, c, Return(h));
    g := Gs(cfg, b.batches[h])[0];
    assert d.batches == Passed(s, h, g).batches;
  }

  /** The worker of a one-request group, with one callback waiting, up to running that callback. */
  lemma Serve(cfg: Config, s: State, g: seq<nat>) returns (steps: seq<Step>, r: State)
    requires cfg.Ok() && |s.tasks| == 1 && s.tasks[0] == Task(0, g, 0, Queued) && |g| == 1 && |s.batches| == 1
    requires s.batches[0].handle.(ran := multiset{}) ==
      Handle(1, [], 1, multiset{0}, multiset{}, multiset{}, multiset{})
    ensures Reaches(cfg, s, steps, r) && |r.tasks| == 1 && r.tasks[0] == Task(0, g, 0, Calling)
    ensures |r.batches| == 1 && r.batches[0] == s.batches[0].(handle := r.batches[0].handle)
    ensures r.batches[0].handle.calls == multiset{0}
    ensures r.permits == s.permits + 1 && r.closed == s.closed && r.shut == s.shut
  {
    hide Reaches, Groups, Trues, Blocked;
    assert Active(s, 0) == {};
    ReachOne(cfg, s, Take(0));
    var a := Next(cfg, s, Take(0));
    steps := Reach(cfg, s, [Take(0)], a, Execute(0, true));
    var b := Next(cfg, a, Execute(0, true));
    steps := Reach(cfg, s, steps, b, Tally(0));
    var c := Next(cfg, b, Tally(0));
    steps := Reach(cfg, s, steps, c, Release(0));
    var d := Next(cfg, c, Release(0));
    steps := Reach(cfg, s, steps, d, Deliver(0));
    r := Next(cfg, d, Deliver(0));
  }

  function ZeroItems(n: nat): (r: seq<nat>)
    requires 0 < n
    ensures |r| == n && Zeros(r)
  {
    seq(n, i => 0)
  }

  /** A group's callback is running; nothing else is going on. */
  ghost predicate InCallback(cfg: Config, s: State) {
    && |s.batches| == 1 && s.batches[0].phase.Returned? && s.batches[0].origin.Outside? && |s.batches[0].items| == 1
    && s.batches[0].handle.calls == multiset{0} && |s.tasks| == 1 && s.tasks[0].progress.Calling?
    && s.tasks[0].batch == 0
    && s.tasks[0].queue == 0 && s.permits == cfg.limit && !s.closed && s.shut == {}
  }

  lemma ReachCallback(cfg: Config) returns (steps: seq<Step>, r: State)
    requires cfg.Ok() && cfg.limited && cfg.Slots() == 1
    ensures Reaches(cfg, Initial(cfg), steps, r) && InCallback(cfg, r)
  {
    hide Reaches, Groups, Zeros;
    var s := Initial(cfg);
    var step := Submit(ZeroItems(1), Outside);
    ReachOne(cfg, s, step);
    var a := Next(cfg, s, step);
    var more, g := Pass(cfg, a, 0);
    ReachesTrans(cfg, s, [step], a, more, Passed(a, 0, g));
    var b := Passed(a, 0, g);
    steps := Reach(cfg, s, [step] + more, b, AddCallback(0));
    var c := Next(cfg, b, AddCallback(0));
    more, r := Serve(cfg, c, g);
    ReachesTrans(cfg, s, steps, c, more, r);
    steps := steps + more;
  }

  /**
    With a callback that submits, the engine stops although the batches, one request less each, stay below max_inflight:
    the callback's one-request batch waits for a permit on the only worker that could free one.
   */
  lemma CallbackStops(cfg: Config) returns (steps: seq<Step>, s: State)
    requires cfg.Ok() && cfg.limited && cfg.Slots() == 1
    ensures Reaches(cfg, Initial(cfg), steps, s) && NoWork(cfg, s) && !Quiet(s)
    ensures Total(s.batches, ShortB()) < cfg.limit
    ensures forall h :: 0 <= h < |s.batches| ==> |s.batches[h].items| <= cfg.limit
  {
    hide Reaches, Groups, Zeros, NoWork;
    var before, a := ReachCallback(cfg);
    var step := Submit(ZeroItems(cfg.limit), Outside);
    steps := Reach(cfg, Initial(cfg), before, a, step);
    var b := Next(cfg, a, step);
    var more, g := Pass(cfg, b, 1);
    var c := Passed(b, 1, g);
    ReachesTrans(cfg, Initial(cfg), steps, b, more, c);
    NotBlocked(c);
    steps := Reach(cfg, Initial(cfg), steps + more, c, Submit([0], OnWorker(0)));
    s := Next(cfg, c, Submit([0], OnWorker(0)));
    CallbackStopped(cfg, steps, s);
    ThreeShort(s.batches, cfg.limit);
  }

  lemma NotBlocked(s: State)
    requires forall h :: 0 <= h < |s.batches| ==> s.batches[h].origin.Outside?
    ensures !Blocked(s, 0)
  {
  }

  lemma CallbackStopped(cfg: Config, steps: seq<Step>, s: State)
    requires cfg.Ok() && cfg.limited && cfg.Slots() == 1 && Reaches(cfg, Initial(cfg), steps, s)
    requires |s.tasks| == 2 && s.tasks[0].progress.Calling? && s.tasks[1].progress.Queued?
    requires s.tasks[0].queue == s.tasks[1].queue
    requires |s.batches| == 3 && s.batches[0].phase.Returned? && s.batches[1].phase.Returned?
    requires s.batches[2].origin == OnWorker(0) && s.batches[2].phase == Acquiring(0, false) && s.batches[2].items != []
    requires s.permits == 0
    ensures NoWork(cfg, s)
  {
    hide Reaches, Groups, NoWork, Inv;
    InitialInv(cfg);
    EngineRuns.RunKeeps(cfg, Initial(cfg), steps, s);
    InvShape(cfg, s);
    var active := Active(s, s.tasks[0].queue);
    assert 0 in active;
    SubsetCard({0}, active);
    StuckIff(cfg, s);
  }

  lemma InvShape(cfg: Config, s: State)
    requires cfg.Ok() && Inv(cfg, s)
    ensures Shape(cfg, s)
  {
  }

  lemma ThreeShort(batches: seq<Batch>, n: nat)
    requires |batches| == 3 && 0 < n && |batches[0].items| == 1 && |batches[1].items| == n && |batches[2].items| == 1
    ensures Total(batches, ShortB()) == n - 1
  {
    var a, b, c := batches[0], batches[1], batches[2];
    TotalSnoc([], a, ShortB());
    TotalSnoc([a], b, ShortB());
    TotalSnoc([a, b], c, ShortB());
    assert [] + [a] == [a] && [a] + [b] == [a, b] && [a, b] + [c] == batches;
  }
}
