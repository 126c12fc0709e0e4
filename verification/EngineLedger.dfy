/**
  Permits and counters of the I/O engine: each counter is the sum of what every submitter and every task accounts for.
 */
module EngineLedger {
  import opened Engine
  import opened Finite
  import opened Grouping
  import opened Sums

  /** Permits a submitter still holds for requests it has not handed over. */
  ghost function HeldBy(cfg: Config, b: Batch): int
    requires cfg.Ok()
  {
    if !BatchOk(cfg, b) then 0
    else match b.phase
      case Acquiring(n, holding) => n + if holding then 1 else 0
      case Scheduling(p) => SizeFrom(Gs(cfg, b), p)
      case Failing(p, j, stage) => SizeFrom(Gs(cfg, b), p) - j - if stage == GivingBack then 0 else 1
      case Returned => 0
  }

  /** Requests a submitter has counted in flight and not handed over. */
  ghost function CountedBy(cfg: Config, b: Batch): int
    requires cfg.Ok()
  {
    if !BatchOk(cfg, b) then 0
    else match b.phase
      case Acquiring(n, _) => n
      case Scheduling(p) => SizeFrom(Gs(cfg, b), p)
      case Failing(p, j, stage) => SizeFrom(Gs(cfg, b), p) - j - if stage == Setting then 1 else 0
      case Returned => 0
  }

  ghost function HeldB(cfg: Config): Batch -> int
    requires cfg.Ok()
  {
    b => HeldBy(cfg, b)
  }

  ghost function CountedB(cfg: Config): Batch -> int
    requires cfg.Ok()
  {
    b => CountedBy(cfg, b)
  }

  ghost function HeldT(): Task -> int {
    (t: Task) => match t.progress
      case Releasing(_, j) => |t.group| - j
      case Calling => 0
      case Finished => 0
      case _ => |t.group|
  }

  ghost function CountedT(): Task -> int {
    (t: Task) => if t.progress.Queued? || t.progress.Executing? then |t.group| else 0
  }

  ghost function Held(cfg: Config, s: State): int
    requires cfg.Ok()
  {
    Total(s.batches, HeldB(cfg)) + Total(s.tasks, HeldT())
  }

  ghost function Counted(cfg: Config, s: State): int
    requires cfg.Ok()
  {
    Total(s.batches, CountedB(cfg)) + Total(s.tasks, CountedT())
  }

  /**
    Free permits and held permits make up the limit; the in-flight counter counts; nothing is lost between the
    counters.
   */
  ghost predicate Ledger(cfg: Config, s: State)
    requires cfg.Ok()
  {
    && s.permits + Held(cfg, s) == cfg.limit && (cfg.limited ==> s.permits >= 0)
    && s.inflight == Counted(cfg, s)
    && s.submitted == s.completed + s.failed + s.inflight
  }

  lemma MoveBatch(cfg: Config, s: State, r: State, h: nat)
    requires cfg.Ok() && h < |s.batches| && h < |r.batches| && r.tasks == s.tasks
    requires r.batches == s.batches[h := r.batches[h]]
    ensures Held(cfg, r) == Held(cfg, s) - HeldBy(cfg, s.batches[h]) + HeldBy(cfg, r.batches[h])
    ensures Counted(cfg, r) == Counted(cfg, s) - CountedBy(cfg, s.batches[h]) + CountedBy(cfg, r.batches[h])
  {
    TotalUpdate(s.batches, h, r.batches[h], HeldB(cfg));
    TotalUpdate(s.batches, h, r.batches[h], CountedB(cfg));
  }

  lemma MoveTask(cfg: Config, s: State, r: State, t: nat)
    requires cfg.Ok() && t < |s.tasks| && t < |r.tasks| && r.batches == s.batches && r.tasks == s.tasks[t := r.tasks[t]]
    ensures Held(cfg, r) == Held(cfg, s) - HeldT()(s.tasks[t]) + HeldT()(r.tasks[t])
    ensures Counted(cfg, r) == Counted(cfg, s) - CountedT()(s.tasks[t]) + CountedT()(r.tasks[t])
  {
    TotalUpdate(s.tasks, t, r.tasks[t], HeldT());
    TotalUpdate(s.tasks, t, r.tasks[t], CountedT());
  }

  lemma AddBatch(cfg: Config, s: State, b: Batch)
    requires cfg.Ok()
    ensures var r := s.(batches := s.batches + [b]);
      Held(cfg, r) == Held(cfg, s) + HeldBy(cfg, b) && Counted(cfg, r) == Counted(cfg, s) + CountedBy(cfg, b)
  {
    TotalSnoc(s.batches, b, HeldB(cfg));
    TotalSnoc(s.batches, b, CountedB(cfg));
  }

  lemma AddTask(cfg: Config, s: State, t: Task)
    requires cfg.Ok()
    ensures var r := s.(tasks := s.tasks + [t]);
      Held(cfg, r) == Held(cfg, s) + HeldT()(t) && Counted(cfg, r) == Counted(cfg, s) + CountedT()(t)
  {
    TotalSnoc(s.tasks, t, HeldT());
    TotalSnoc(s.tasks, t, CountedT());
  }

  /** A handle has no part in the ledger. */
  lemma HandleFree(cfg: Config, b: Batch, handle: Handle)
    requires cfg.Ok()
    ensures HeldBy(cfg, b.(handle := handle)) == HeldBy(cfg, b)
    ensures CountedBy(cfg, b.(handle := handle)) == CountedBy(cfg, b)
  {
  }

  lemma TakingLedger(cfg: Config, s: State, step: Step)
    requires cfg.Ok() && Shape(cfg, s) && Ledger(cfg, s) && Enabled(cfg, s, step)
    requires step.Acquire? || step.Count? || step.Start?
    ensures Ledger(cfg, Next(cfg, s, step))
  {
    hide Held, Counted, Groups;
    var h, r := step.h, Next(cfg, s, step);
    assert BatchOk(cfg, s.batches[h]);
    if step.Start? {
      SizeAll(cfg, s.batches[h].items, |s.batches[h].items|);
    }
    MoveBatch(cfg, s, r, h);
  }

  lemma HandingLedger(cfg: Config, s: State, h: nat)
    requires cfg.Ok() && Shape(cfg, s) && Ledger(cfg, s) && Enabled(cfg, s, Schedule(h))
    ensures Ledger(cfg, Next(cfg, s, Schedule(h)))
  {
    hide Held, Counted, Groups, Config.Key, Config.Queue;
    var b, p, r := s.batches[h], s.batches[h].phase.p, Next(cfg, s, Schedule(h));
    assert BatchOk(cfg, b);
    GroupNonempty(cfg, b, p);
    if QueueOf(cfg, b, p) in s.shut {
      MoveBatch(cfg, s, r, h);
    } else {
      var mid := s.At(h, Scheduling(p + 1));
      MoveBatch(cfg, s, mid, h);
      var t := Task(h, Gs(cfg, b)[p], QueueOf(cfg, b, p), Queued);
      AddTask(cfg, mid, t);
      assert r == mid.(tasks := mid.tasks + [t]);
    }
  }

  lemma FailingLedger(cfg: Config, s: State, step: Step)
    requires cfg.Ok() && Shape(cfg, s) && Ledger(cfg, s) && Enabled(cfg, s, step)
    requires step.GiveBack? || step.Uncount? || step.SetFailed? || step.Return?
    ensures Ledger(cfg, Next(cfg, s, step))
  {
    hide Held, Counted, Groups;
    var h, r := step.h, Next(cfg, s, step);
    assert BatchOk(cfg, s.batches[h]);
    MoveBatch(cfg, s, r, h);
  }

  lemma WorkingLedger(cfg: Config, s: State, step: Step)
    requires cfg.Ok() && Ledger(cfg, s) && Enabled(cfg, s, step)
    requires step.Take? || step.Execute? || step.Tally? || step.Release? || step.Leave?
    ensures Ledger(cfg, Next(cfg, s, step))
  {
    hide Held, Counted, Groups, Trues;
    MoveTask(cfg, s, Next(cfg, s, step), step.t);
  }

  lemma DeliverLedger(cfg: Config, s: State, t: nat)
    requires cfg.Ok() && Ledger(cfg, s) && Enabled(cfg, s, Deliver(t))
    ensures Ledger(cfg, Next(cfg, s, Deliver(t)))
  {
    hide Held, Counted, Groups, HeldBy, CountedBy;
    var r, h := Next(cfg, s, Deliver(t)), s.tasks[t].batch;
    var mid := s.To(t, r.tasks[t].progress);
    MoveTask(cfg, s, mid, t);
    HandleFree(cfg, s.batches[h], r.batches[h].handle);
    MoveBatch(cfg, mid, r, h);
  }

  lemma LedgerKept(cfg: Config, s: State, step: Step)
    requires cfg.Ok() && Shape(cfg, s) && Ledger(cfg, s) && Enabled(cfg, s, step)
    ensures Ledger(cfg, Next(cfg, s, step))
  {
    hide Next, Enabled, Ledger, Shape;
    match step
    case Submit(_, _) => PlainLedger(cfg, s, step);
    case Acquire(_) => TakingLedger(cfg, s, step);
    case Count(_) => TakingLedger(cfg, s, step);
    case Start(_) => TakingLedger(cfg, s, step);
    case Schedule(h) => HandingLedger(cfg, s, h);
    case GiveBack(_) => FailingLedger(cfg, s, step);
    case Uncount(_) => FailingLedger(cfg, s, step);
    case SetFailed(_) => FailingLedger(cfg, s, step);
    case Return(_) => FailingLedger(cfg, s, step);
    case Take(_) => WorkingLedger(cfg, s, step);
    case Execute(_, _) => WorkingLedger(cfg, s, step);
    case Tally(_) => WorkingLedger(cfg, s, step);
    case Release(_) => WorkingLedger(cfg, s, step);
    case Deliver(t) => DeliverLedger(cfg, s, t);
    case Call(_, _) => CallLedger(cfg, s, step);
    case Leave(_) => WorkingLedger(cfg, s, step);
    case Close => PlainLedger(cfg, s, step);
    case Shutdown(_) => PlainLedger(cfg, s, step);
    case AddCallback(h) => CallbackLedger(cfg, s, step);
    case RunCallback(h, _) => CallbackLedger(cfg, s, step);
  }

  lemma PlainLedger(cfg: Config, s: State, step: Step)
    requires cfg.Ok() && Ledger(cfg, s) && Enabled(cfg, s, step) && (step.Submit? || step.Close? || step.Shutdown?)
    ensures Ledger(cfg, Next(cfg, s, step))
  {
    if step.Submit? {
      AddBatch(cfg, s, Batch(step.items, step.origin, Acquiring(0, false), NewHandle(|step.items|)));
    }
  }

  lemma CallbackLedger(cfg: Config, s: State, step: Step)
    requires cfg.Ok() && Ledger(cfg, s) && Enabled(cfg, s, step) && (step.AddCallback? || step.RunCallback?)
    ensures Ledger(cfg, Next(cfg, s, step))
  {
    hide Held, Counted, Groups, HeldBy, CountedBy;
    var h, r := step.h, Next(cfg, s, step);
    HandleFree(cfg, s.batches[h], r.batches[h].handle);
    MoveBatch(cfg, s, r, h);
  }

  lemma CallLedger(cfg: Config, s: State, step: Step)
    requires cfg.Ok() && Ledger(cfg, s) && Enabled(cfg, s, step) && step.Call?
    ensures Ledger(cfg, Next(cfg, s, step))
  {
    hide Held, Counted, Groups, HeldBy, CountedBy;
    var h, r := s.tasks[step.t].batch, Next(cfg, s, step);
    HandleFree(cfg, s.batches[h], r.batches[h].handle);
    MoveBatch(cfg, s, r, h);
  }

  /** Requests being executed right now: at most one per running group. */
  ghost function RunningT(): Task -> int {
    (t: Task) => if t.progress.Executing? && |t.progress.oks| < |t.group| then 1 else 0
  }

  ghost function Zero<T>(): T -> int {
    x => 0
  }

  /** Never more requests executing than max_inflight. */
  lemma ExecutingBounded(cfg: Config, s: State)
    requires cfg.Ok() && Shape(cfg, s) && Ledger(cfg, s) && cfg.limited
    ensures Total(s.tasks, RunningT()) <= cfg.limit
  {
    TasksHold(cfg, s);
    BatchesHold(cfg, s);
  }

  lemma TasksHold(cfg: Config, s: State)
    requires cfg.Ok() && Shape(cfg, s)
    ensures 0 <= Total(s.tasks, RunningT()) <= Total(s.tasks, HeldT())
  {
    forall i | 0 <= i < |s.tasks|
      ensures RunningT()(s.tasks[i]) <= HeldT()(s.tasks[i])
    {
      assert TaskOk(cfg, s, s.tasks[i]);
    }
    TotalMono(s.tasks, RunningT(), HeldT());
    TotalMono(s.tasks, Zero(), RunningT());
    TotalZero(s.tasks);
  }

  lemma BatchesHold(cfg: Config, s: State)
    requires cfg.Ok() && Shape(cfg, s)
    ensures 0 <= Total(s.batches, HeldB(cfg))
  {
    forall i | 0 <= i < |s.batches|
      ensures 0 <= HeldB(cfg)(s.batches[i])
    {
      HoldsSome(cfg, s.batches[i]);
    }
    TotalMono(s.batches, Zero(), HeldB(cfg));
    TotalZero(s.batches);
  }

  lemma HoldsSome(cfg: Config, b: Batch)
    requires cfg.Ok()
    ensures 0 <= HeldBy(cfg, b)
  {
    hide Groups;
  }

  lemma {:induction false} TotalZero<T>(s: seq<T>)
    ensures Total(s, Zero()) == 0
    decreases |s|
  {
    if s != [] {
      TotalZero(s[..|s| - 1]);
    }
  }

  /** What one submitter holds is no more than the limit. */
  lemma HoldsAtMost(cfg: Config, s: State, h: nat)
    requires cfg.Ok() && Shape(cfg, s) && Ledger(cfg, s) && cfg.limited && h < |s.batches|
    ensures s.permits + HeldBy(cfg, s.batches[h]) <= cfg.limit
  {
    hide HeldBy;
    TasksHold(cfg, s);
    var none := s.batches[h].(phase := Returned);
    TotalUpdate(s.batches, h, none, HeldB(cfg));
    var r := s.(batches := s.batches[h := none]);
    forall i | 0 <= i < |r.batches|
      ensures 0 <= HeldB(cfg)(r.batches[i])
    {
      HoldsSome(cfg, r.batches[i]);
    }
    TotalMono(r.batches, Zero(), HeldB(cfg));
    TotalZero(r.batches);
    ReturnedHolds(cfg, none);
  }

  lemma ReturnedHolds(cfg: Config, b: Batch)
    requires cfg.Ok() && b.phase.Returned?
    ensures HeldBy(cfg, b) == 0 && CountedBy(cfg, b) == 0
  {
  }

  /** A batch gets past its permits only if the limit covers all of it, whoever else is submitting. */
  lemma StartMeansFits(cfg: Config, s: State, h: nat)
    requires cfg.Ok() && Shape(cfg, s) && Ledger(cfg, s) && cfg.limited && Enabled(cfg, s, Start(h))
    ensures |s.batches[h].items| <= cfg.limit
  {
    HoldsAtMost(cfg, s, h);
  }

  /** Nobody else holds a permit: other submitters have returned, groups are finished or running callbacks. */
  ghost predicate Lone(s: State, h: nat) {
    && h < |s.batches| && (forall i :: 0 <= i < |s.batches| && i != h ==> s.batches[i].phase.Returned?)
    && (forall t :: 0 <= t < |s.tasks| ==> s.tasks[t].progress.Finished? || s.tasks[t].progress.Calling?)
  }

  lemma LoneHolds(cfg: Config, s: State, h: nat)
    requires cfg.Ok() && Lone(s, h)
    ensures Held(cfg, s) == HeldBy(cfg, s.batches[h])
  {
    hide HeldBy;
    var none := s.batches[h].(phase := Returned);
    TotalUpdate(s.batches, h, none, HeldB(cfg));
    var rest := s.batches[h := none];
    forall i | 0 <= i < |rest|
      ensures HeldB(cfg)(rest[i]) == 0
    {
      ReturnedHolds(cfg, rest[i]);
    }
    TotalMono(rest, HeldB(cfg), Zero());
    TotalMono(rest, Zero(), HeldB(cfg));
    TotalZero(rest);
    TotalMono(s.tasks, HeldT(), Zero());
    TotalMono(s.tasks, Zero(), HeldT());
    TotalZero(s.tasks);
    ReturnedHolds(cfg, none);
  }

  /** A lone submitter short of its last permit always finds one, exactly when its batch is within the limit so far. */
  lemma LoneAcquires(cfg: Config, s: State, h: nat)
    requires cfg.Ok() && Shape(cfg, s) && Ledger(cfg, s) && Lone(s, h)
    requires s.batches[h].phase.Acquiring? && !s.batches[h].phase.holding && s.batches[h].phase.n < |s.batches[h].items|
    ensures Enabled(cfg, s, Acquire(h)) <==> cfg.limited ==> s.batches[h].phase.n < cfg.limit
  {
    LoneHolds(cfg, s, h);
    assert BatchOk(cfg, s.batches[h]);
  }
}
