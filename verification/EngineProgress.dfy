/** The I/O engine finishes: every step of a submitter or worker brings it nearer the end, whatever the schedule. */
module EngineProgress {
  import opened Engine
  import opened EngineHandles
  import opened EngineLedger
  import opened EngineOrder
  import opened EngineRuns
  import opened EngineStops
  import opened Finite
  import opened Grouping
  import opened Sums

  function StageNumber(stage: Stage): int {
    match stage
    case GivingBack => 0
    case Uncounting => 1
    case Setting => 2
  }

  /** Steps a submitter and the groups it will hand over still need, at most. */
  ghost function PhaseWeight(cfg: Config, b: Batch): int
    requires cfg.Ok()
  {
    if !BatchOk(cfg, b) then 0
    else match b.phase
      case Acquiring(n, holding) => 10 * |b.items| + 2 * (|b.items| - n) + 2 - (if holding then 1 else 0)
      case Scheduling(p) => 10 * SizeFrom(Gs(cfg, b), p) + 1
      case Failing(p, j, stage) => 10 * SizeFrom(Gs(cfg, b), p) - 3 * j - StageNumber(stage)
      case Returned => 0
  }

  /** Callbacks a worker will run or is running. */
  ghost function CallWeight(hd: Handle): int {
    if hd.remaining > 0 then |hd.waiting| else |hd.calls|
  }

  ghost function WeightB(cfg: Config): Batch -> int
    requires cfg.Ok()
  {
    b => PhaseWeight(cfg, b) + CallWeight(b.handle)
  }

  ghost function WeightT(): Task -> int {
    (t: Task) => match t.progress
      case Queued => 2 * |t.group| + 5
      case Executing(oks) => 2 * |t.group| + 4 - |oks|
      case Releasing(_, j) => |t.group| - j + 3
      case Calling => 2
      case Finished => 0
  }

  /** Steps left, at most. */
  ghost function Measure(cfg: Config, s: State): int
    requires cfg.Ok()
  {
    Total(s.batches, WeightB(cfg)) + Total(s.tasks, WeightT())
  }

  lemma MeasureBatch(cfg: Config, s: State, r: State, h: nat)
    requires cfg.Ok() && h < |s.batches| && h < |r.batches| && r.batches == s.batches[h := r.batches[h]]
    requires r.tasks == s.tasks
    ensures Measure(cfg, r) == Measure(cfg, s) - WeightB(cfg)(s.batches[h]) + WeightB(cfg)(r.batches[h])
  {
    TotalUpdate(s.batches, h, r.batches[h], WeightB(cfg));
  }

  lemma MeasureTask(cfg: Config, s: State, r: State, t: nat)
    requires cfg.Ok() && t < |s.tasks| && t < |r.tasks| && r.tasks == s.tasks[t := r.tasks[t]] && r.batches == s.batches
    ensures Measure(cfg, r) == Measure(cfg, s) - WeightT()(s.tasks[t]) + WeightT()(r.tasks[t])
  {
    TotalUpdate(s.tasks, t, r.tasks[t], WeightT());
  }

  lemma MeasureNewTask(cfg: Config, s: State, t: Task)
    requires cfg.Ok()
    ensures Measure(cfg, s.(tasks := s.tasks + [t])) == Measure(cfg, s) + WeightT()(t)
  {
    TotalSnoc(s.tasks, t, WeightT());
  }

  // ---------- each step ----------

  lemma TakingFalls(cfg: Config, s: State, step: Step)
    requires cfg.Ok() && Shape(cfg, s) && Enabled(cfg, s, step)
    requires (step.Acquire? || step.Count? || step.Start? || step.Return?)
    ensures Measure(cfg, Next(cfg, s, step)) < Measure(cfg, s)
  {
    hide Measure, Groups, TaskOk, CallWeight;
    var h, r := step.h, Next(cfg, s, step);
    assert BatchOk(cfg, s.batches[h]);
    if step.Start? {
      SizeAll(cfg, s.batches[h].items, |s.batches[h].items|);
    }
    MeasureBatch(cfg, s, r, h);
  }

  lemma HandingFalls(cfg: Config, s: State, h: nat)
    requires cfg.Ok() && Shape(cfg, s) && Enabled(cfg, s, Schedule(h))
    ensures Measure(cfg, Next(cfg, s, Schedule(h))) < Measure(cfg, s)
  {
    hide Measure, Groups, Config.Key, Config.Queue, TaskOk, CallWeight;
    var b, p, r := s.batches[h], s.batches[h].phase.p, Next(cfg, s, Schedule(h));
    assert BatchOk(cfg, b);
    GroupNonempty(cfg, b, p);
    if QueueOf(cfg, b, p) in s.shut {
      MeasureBatch(cfg, s, r, h);
    } else {
      var mid, t := s.At(h, Scheduling(p + 1)), Task(h, Gs(cfg, b)[p], QueueOf(cfg, b, p), Queued);
      MeasureBatch(cfg, s, mid, h);
      MeasureNewTask(cfg, mid, t);
      assert r == mid.(tasks := mid.tasks + [t]);
    }
  }

  lemma FailingFalls(cfg: Config, s: State, step: Step)
    requires cfg.Ok() && Shape(cfg, s) && Enabled(cfg, s, step) && (step.GiveBack? || step.Uncount?)
    ensures Measure(cfg, Next(cfg, s, step)) < Measure(cfg, s)
  {
    hide Measure, Groups, TaskOk, CallWeight;
    assert BatchOk(cfg, s.batches[step.h]);
    MeasureBatch(cfg, s, Next(cfg, s, step), step.h);
  }

  /** Setting results hands callbacks on but adds none. */
  lemma SetWeight(hd: Handle, ws: seq<Write>)
    requires hd.remaining > 0 && hd.calls == multiset{}
    ensures CallWeight(hd.SetMany(ws)) == CallWeight(hd)
  {
    assert hd.calls + hd.waiting == hd.waiting;
  }

  lemma CalledWeight(hd: Handle, n: nat, id: nat)
    requires HandleOk(hd, n) && id in hd.calls
    ensures CallWeight(hd.Called(id)) == CallWeight(hd) - 1
  {
  }

  lemma SettingFalls(cfg: Config, s: State, h: nat)
    requires cfg.Ok() && Inv(cfg, s) && Enabled(cfg, s, SetFailed(h))
    ensures Measure(cfg, Next(cfg, s, SetFailed(h))) < Measure(cfg, s)
  {
    hide Measure, Groups, TaskOk, Ledger, Fifo, Fits, CallWeight, Owns, CallerOk, Handle.SetMany;
    var b := s.batches[h];
    assert BatchOk(cfg, b) && Owns(cfg, s, h) && CallerOk(s, h);
    NoEarlyCallbacks(cfg, s, h);
    StillOwes(cfg, s, h);
    SetWeight(b.handle, [Write(Gs(cfg, b)[b.phase.p][b.phase.j], false)]);
    FailedPhase(cfg, b);
    hide Delivery, Callers, PhaseWeight;
    MeasureBatch(cfg, s, Next(cfg, s, SetFailed(h)), h);
  }

  lemma FailedPhase(cfg: Config, b: Batch)
    requires cfg.Ok() && BatchOk(cfg, b) && b.phase.Failing? && b.phase.stage == Setting
    ensures PhaseWeight(cfg, FailedOne(cfg, b)) < PhaseWeight(cfg, b)
  {
    hide Groups, Handle.SetMany;
    var gs, p, j := Gs(cfg, b), b.phase.p, b.phase.j;
    assert Gs(cfg, FailedOne(cfg, b)) == gs;
    assert SizeFrom(gs, p) == |gs[p]| + SizeFrom(gs, p + 1);
  }

  lemma WorkingFalls(cfg: Config, s: State, step: Step)
    requires cfg.Ok() && Enabled(cfg, s, step)
    requires (step.Take? || step.Execute? || step.Tally? || step.Release? || step.Leave?)
    ensures Measure(cfg, Next(cfg, s, step)) < Measure(cfg, s)
  {
    hide Measure, Groups, Trues, Blocked, Active;
    MeasureTask(cfg, s, Next(cfg, s, step), step.t);
  }

  lemma DeliveringFalls(cfg: Config, s: State, t: nat)
    requires cfg.Ok() && Inv(cfg, s) && Enabled(cfg, s, Deliver(t))
    ensures Measure(cfg, Next(cfg, s, Deliver(t))) < Measure(cfg, s)
  {
    hide Measure, Groups, Ledger, Fifo, Fits, Callers, Pairs, PhaseWeight, CallWeight, Owns;
    var h, r := s.tasks[t].batch, Next(cfg, s, Deliver(t));
    assert Owns(cfg, s, h);
    DeliverCalls(cfg, s, t, h);
    SetWeight(s.batches[h].handle, Pairs(s.tasks[t].group, s.tasks[t].progress.oks));
    hide Delivery, Handle.SetMany;
    var mid := s.To(t, r.tasks[t].progress);
    MeasureTask(cfg, s, mid, t);
    HandlePhase(cfg, s.batches[h], r.batches[h].handle);
    MeasureBatch(cfg, mid, r, h);
  }

  lemma HandlePhase(cfg: Config, b: Batch, hd: Handle)
    requires cfg.Ok()
    ensures PhaseWeight(cfg, b.(handle := hd)) == PhaseWeight(cfg, b)
  {
  }

  lemma CallingFalls(cfg: Config, s: State, t: nat, id: nat)
    requires cfg.Ok() && Inv(cfg, s) && Enabled(cfg, s, Call(t, id))
    ensures Measure(cfg, Next(cfg, s, Call(t, id))) < Measure(cfg, s)
  {
    hide Measure, Groups, Ledger, Fifo, Fits, Callers, PhaseWeight, CallWeight, Blocked, Handle.Called, HandleOk, Split;
    var h, r := s.tasks[t].batch, Next(cfg, s, Call(t, id));
    assert Owns(cfg, s, h);
    CalledWeight(s.batches[h].handle, |s.batches[h].items|, id);
    HandlePhase(cfg, s.batches[h], r.batches[h].handle);
    MeasureBatch(cfg, s, r, h);
  }

  /** Every step of a submitter or worker lowers the measure. */
  lemma WorkFalls(cfg: Config, s: State, step: Step)
    requires cfg.Ok() && Inv(cfg, s) && Enabled(cfg, s, step) && Work(step)
    ensures Measure(cfg, Next(cfg, s, step)) < Measure(cfg, s)
  {
    InvShape(cfg, s);
    hide Next, Enabled, Inv, Measure, Shape;
    match step
    case Acquire(_) => TakingFalls(cfg, s, step);
    case Count(_) => TakingFalls(cfg, s, step);
    case Start(_) => TakingFalls(cfg, s, step);
    case Return(_) => TakingFalls(cfg, s, step);
    case Schedule(h) => HandingFalls(cfg, s, h);
    case GiveBack(_) => FailingFalls(cfg, s, step);
    case Uncount(_) => FailingFalls(cfg, s, step);
    case SetFailed(h) => SettingFalls(cfg, s, h);
    case Deliver(t) => DeliveringFalls(cfg, s, t);
    case Call(t, id) => CallingFalls(cfg, s, t, id);
    case _ => WorkingFalls(cfg, s, step);
  }

  lemma MeasurePositive(cfg: Config, s: State)
    requires cfg.Ok() && Shape(cfg, s)
    ensures 0 <= Measure(cfg, s)
  {
    hide Groups, IsGroup;
    forall h | 0 <= h < |s.batches|
      ensures 0 <= WeightB(cfg)(s.batches[h])
    {
      assert BatchOk(cfg, s.batches[h]);
      FailingWeight(cfg, s.batches[h]);
    }
    forall t | 0 <= t < |s.tasks|
      ensures 0 <= WeightT()(s.tasks[t])
    {
      assert TaskOk(cfg, s, s.tasks[t]);
    }
    TotalMono(s.batches, Zero(), WeightB(cfg));
    TotalMono(s.tasks, Zero(), WeightT());
    TotalZero(s.batches);
    TotalZero(s.tasks);
  }

  lemma FailingWeight(cfg: Config, b: Batch)
    requires cfg.Ok() && BatchOk(cfg, b)
    ensures 0 <= PhaseWeight(cfg, b)
  {
    hide Groups;
    if b.phase.Failing? {
      assert SizeFrom(Gs(cfg, b), b.phase.p) >= |Gs(cfg, b)[b.phase.p]|;
    }
  }

  // ---------- whole runs ----------

  ghost predicate AllWork(steps: seq<Step>) {
    forall i :: 0 <= i < |steps| ==> Work(steps[i])
  }

  /** From any state submitters and workers take only so many steps. */
  lemma {:induction false} WorkEnds(cfg: Config, s: State, steps: seq<Step>, r: State)
    requires cfg.Ok() && Inv(cfg, s) && Reaches(cfg, s, steps, r) && AllWork(steps)
    ensures |steps| + Measure(cfg, r) <= Measure(cfg, s) && 0 <= Measure(cfg, r)
    decreases |steps|
  {
    hide Next, Enabled, Inv, Measure, Work;
    if steps == [] {
      InvShape(cfg, s);
      MeasurePositive(cfg, s);
    } else {
      assert Work(steps[0]) && AllWork(steps[1..]);
      WorkFalls(cfg, s, steps[0]);
      StepKeeps(cfg, s, steps[0]);
      WorkEnds(cfg, Next(cfg, s, steps[0]), steps[1..], r);
    }
  }

  /**
    Every schedule finishes: if callbacks do not submit and the batches, one request less each, stay below max_inflight,
    a run of submitters and workers that cannot go on has set every index of every batch exactly once.
   */
  lemma EveryScheduleFinishes(cfg: Config, s: State)
    requires cfg.Ok() && Inv(cfg, s) && NoWork(cfg, s) && NoNested(s)
    requires cfg.limited ==> Total(s.batches, ShortB()) < cfg.limit
    ensures Quiet(s) && forall h :: 0 <= h < |s.batches| ==> Complete(s.batches[h])
    ensures s.permits == cfg.limit && s.inflight == 0 && s.submitted == s.completed + s.failed
  {
    InvShape(cfg, s);
    hide Inv, NoWork, Groups, Enabled, Shape, Complete, ShortB;
    StuckIff(cfg, s);
    forall h | 0 <= h < |s.batches|
      ensures s.batches[h].phase.Returned?
    {
      if !s.batches[h].phase.Returned? {
        StopNeeds(cfg, s, h);
        assert false;
      }
    }
    forall t | 0 <= t < |s.tasks|
      ensures s.tasks[t].progress.Finished?
    {
      StoppedFinished(cfg, s, t);
    }
    QuietMeansDone(cfg, s);
  }
}
