/**
  The concurrent I/O engine (bmpclient/concurrent_io.py) as a step system. A step is what one thread does under one
  lock: submitters take permits, count requests and hand groups to queues; workers run groups; close races with both.
 */
module Engine {
  import opened Finite
  import opened Grouping
  import opened Sums

  // ---------- state ----------

  /** What is left to do for one request of a group that could not be scheduled. */
  datatype Stage = GivingBack | Uncounting | Setting

  /** Where a submitter thread stands in _submit. */
  datatype Phase =
    | Acquiring(n: nat, holding: bool)
    | Scheduling(p: nat)
    | Failing(p: nat, j: nat, stage: Stage)
    | Returned

  /** One assignment to a handle's results. */
  datatype Write = Write(idx: nat, ok: bool)

  /**
    A handle: requests outstanding, every assignment made so far, and its callbacks by registration number. Callbacks
    wait for completion; calls are those the completing thread still has to run, toRun those their registrants run at
    once.
   */
  datatype Handle = Handle(
    remaining: int, written: seq<Write>, regs: nat,
    waiting: multiset<nat>, calls: multiset<nat>, toRun: multiset<nat>, ran: multiset<nat>)
  {
    /** _set_many. */
    function SetMany(ws: seq<Write>): Handle {
      var left := remaining - |ws|;
      this.(remaining := left, written := written + ws, calls := if left > 0 then calls else calls + waiting)
    }
    /** add_done_callback. */
    function AddCallback(): Handle {
      if remaining > 0 then this.(regs := regs + 1, waiting := waiting + multiset{regs})
      else this.(regs := regs + 1, toRun := toRun + multiset{regs})
    }
    function RunCallback(id: nat): Handle
      requires id in toRun
    {
      this.(toRun := toRun - multiset{id}, ran := ran + multiset{id})
    }
    /** The completing thread's callback returns. */
    function Called(id: nat): Handle
      requires id in calls
    {
      this.(calls := calls - multiset{id}, ran := ran + multiset{id})
    }
  }

  /** The thread that submits: one from outside, or the worker of a group, from inside a callback. */
  datatype Origin = Outside | OnWorker(task: nat)

  /** A submitted batch: the chunk id of each request, its submitter and its handle. */
  datatype Batch = Batch(items: seq<nat>, origin: Origin, phase: Phase, handle: Handle)

  /** Calling: results are set and the worker runs the callbacks of the handle it completed. */
  datatype Progress = Queued | Executing(oks: seq<bool>) | Releasing(oks: seq<bool>, j: nat) | Calling | Finished

  /** A group handed to a queue. */
  datatype Task = Task(batch: nat, group: seq<nat>, queue: nat, progress: Progress)

  /** Request k of a task was executed. */
  datatype Exec = Exec(task: nat, k: nat)

  /** Tasks are listed in the order they reached their queues. */
  datatype State = State(
    batches: seq<Batch>, tasks: seq<Task>, permits: int,
    submitted: int, completed: int, failed: int, inflight: int,
    closed: bool, shut: set<nat>, log: seq<Exec>)
  {
    function At(h: nat, phase: Phase): State
      requires h < |batches|
    {
      this.(batches := batches[h := batches[h].(phase := phase)])
    }
    function With(h: nat, handle: Handle): State
      requires h < |batches|
    {
      this.(batches := batches[h := batches[h].(handle := handle)])
    }
    function To(t: nat, progress: Progress): State
      requires t < |tasks|
    {
      this.(tasks := tasks[t := tasks[t].(progress := progress)])
    }
  }

  function Initial(cfg: Config): State {
    State([], [], cfg.limit, 0, 0, 0, 0, false, {}, [])
  }

  function NewHandle(n: nat): Handle {
    Handle(n, [], 0, multiset{}, multiset{}, multiset{}, multiset{})
  }

  function Gs(cfg: Config, b: Batch): seq<seq<nat>>
    requires cfg.Ok()
  {
    Groups(cfg, b.items, |b.items|)
  }

  function QueueOf(cfg: Config, b: Batch, p: nat): nat
    requires cfg.Ok() && p < |Gs(cfg, b)|
  {
    assert GoodGroup(Gs(cfg, b)[p], cfg, b.items, |b.items|);
    cfg.Queue(cfg.Key(b.items, Gs(cfg, b)[p][0]))
  }

  // ---------- steps ----------

  datatype Step =
    | Submit(items: seq<nat>, origin: Origin) | Acquire(h: nat) | Count(h: nat) | Start(h: nat) | Schedule(h: nat)
    | GiveBack(h: nat) | Uncount(h: nat) | SetFailed(h: nat) | Return(h: nat)
    | Take(t: nat) | Execute(t: nat, ok: bool) | Tally(t: nat) | Release(t: nat) | Deliver(t: nat)
    | Call(t: nat, id: nat) | Leave(t: nat)
    | Close | Shutdown(q: nat) | AddCallback(h: nat) | RunCallback(h: nat, id: nat)

  predicate FailingAt(cfg: Config, s: State, h: nat, stage: Stage)
    requires cfg.Ok()
  {
    h < |s.batches| && s.batches[h].phase.Failing? && s.batches[h].phase.stage == stage &&
    s.batches[h].phase.p < |Gs(cfg, s.batches[h])| &&
    s.batches[h].phase.j < |Gs(cfg, s.batches[h])[s.batches[h].phase.p]|
  }

  predicate Busy(t: Task) {
    t.progress.Executing? || t.progress.Releasing? || t.progress.Calling?
  }

  /** Groups of a queue that a worker is on. */
  function Active(s: State, q: nat): set<nat> {
    set i | 0 <= i < |s.tasks| && s.tasks[i].queue == q && Busy(s.tasks[i])
  }

  /** The worker of group t is still inside a submission that a callback made. */
  predicate Blocked(s: State, t: nat) {
    exists h :: 0 <= h < |s.batches| && s.batches[h].origin == OnWorker(t) && !s.batches[h].phase.Returned?
  }

  /** The worker of group t runs callbacks, and none of them is inside a submission. */
  predicate CallingFree(s: State, t: nat) {
    t < |s.tasks| && s.tasks[t].progress.Calling? && s.tasks[t].batch < |s.batches| && !Blocked(s, t)
  }

  /** When a step can be taken. */
  predicate Enabled(cfg: Config, s: State, step: Step)
    requires cfg.Ok()
  {
    match step
    case Submit(_, origin) => !s.closed &&
      (origin.OnWorker? ==> CallingFree(s, origin.task) &&
                            s.batches[s.tasks[origin.task].batch].handle.calls != multiset{})
    case Acquire(h) => h < |s.batches| && s.batches[h].phase.Acquiring? && !s.batches[h].phase.holding &&
      s.batches[h].phase.n < |s.batches[h].items| && (cfg.limited ==> s.permits > 0)
    case Count(h) => h < |s.batches| && s.batches[h].phase.Acquiring? && s.batches[h].phase.holding
    case Start(h) => h < |s.batches| && s.batches[h].phase == Acquiring(|s.batches[h].items|, false)
    case Schedule(h) => h < |s.batches| && s.batches[h].phase.Scheduling? &&
      s.batches[h].phase.p < |Gs(cfg, s.batches[h])|
    case GiveBack(h) => FailingAt(cfg, s, h, GivingBack)
    case Uncount(h) => FailingAt(cfg, s, h, Uncounting)
    case SetFailed(h) => FailingAt(cfg, s, h, Setting)
    case Return(h) => h < |s.batches| && s.batches[h].phase == Scheduling(|Gs(cfg, s.batches[h])|)
    case Take(t) => t < |s.tasks| && s.tasks[t].progress.Queued? && |Active(s, s.tasks[t].queue)| < cfg.Slots() &&
      (forall i :: 0 <= i < t && s.tasks[i].queue == s.tasks[t].queue ==> !s.tasks[i].progress.Queued?)
    case Execute(t, _) => t < |s.tasks| && s.tasks[t].progress.Executing? &&
      |s.tasks[t].progress.oks| < |s.tasks[t].group|
    case Tally(t) => t < |s.tasks| && s.tasks[t].progress.Executing? && |s.tasks[t].progress.oks| == |s.tasks[t].group|
    case Release(t) => t < |s.tasks| && s.tasks[t].progress.Releasing? && s.tasks[t].progress.j < |s.tasks[t].group|
    case Deliver(t) => t < |s.tasks| && s.tasks[t].progress.Releasing? && s.tasks[t].progress.j == |s.tasks[t].group| &&
      |s.tasks[t].progress.oks| == |s.tasks[t].group| && s.tasks[t].batch < |s.batches|
    case Call(t, id) => CallingFree(s, t) && id in s.batches[s.tasks[t].batch].handle.calls
    case Leave(t) => CallingFree(s, t) && s.batches[s.tasks[t].batch].handle.calls == multiset{}
    case Close => true
    case Shutdown(q) => s.closed && q < cfg.queues
    case AddCallback(h) => h < |s.batches| && s.batches[h].phase.Returned?
    case RunCallback(h, id) => h < |s.batches| && id in s.batches[h].handle.toRun
  }

  function Trues(oks: seq<bool>): nat {
    if oks == [] then 0 else Trues(oks[..|oks| - 1]) + if oks[|oks| - 1] then 1 else 0
  }

  /** The (index, result) pairs a worker hands back. */
  function Pairs(group: seq<nat>, oks: seq<bool>): (ws: seq<Write>)
    requires |group| == |oks|
    ensures |ws| == |group| && forall i :: 0 <= i < |ws| ==> ws[i] == Write(group[i], oks[i])
  {
    seq(|group|, i requires 0 <= i < |group| => Write(group[i], oks[i]))
  }

  /** Hand the next group to its queue, or start failing it when the executor is shut down. */
  function Scheduled(cfg: Config, s: State, h: nat): State
    requires cfg.Ok() && Enabled(cfg, s, Schedule(h))
  {
    var b, p := s.batches[h], s.batches[h].phase.p;
    var q := QueueOf(cfg, b, p);
    if q in s.shut then s.At(h, Failing(p, 0, GivingBack))
    else s.At(h, Scheduling(p + 1)).(tasks := s.tasks + [Task(h, Gs(cfg, b)[p], q, Queued)])
  }

  /** After one failed request: the next one of the group, or the next group. */
  function AfterFailed(gs: seq<seq<nat>>, p: nat, j: nat): Phase
    requires p < |gs|
  {
    if j + 1 < |gs[p]| then Failing(p, j + 1, GivingBack) else Scheduling(p + 1)
  }

  /** One request of a group that could not be scheduled is set to its failure. */
  function FailedOne(cfg: Config, b: Batch): Batch
    requires cfg.Ok() && b.phase.Failing? && b.phase.p < |Gs(cfg, b)| && b.phase.j < |Gs(cfg, b)[b.phase.p]|
  {
    var gs, p, j := Gs(cfg, b), b.phase.p, b.phase.j;
    b.(phase := AfterFailed(gs, p, j), handle := b.handle.SetMany([Write(gs[p][j], false)]))
  }

  function Next(cfg: Config, s: State, step: Step): State
    requires cfg.Ok() && Enabled(cfg, s, step)
  {
    match step
    case Submit(items, origin) =>
      s.(batches := s.batches + [Batch(items, origin, Acquiring(0, false), NewHandle(|items|))])
    case Acquire(h) => s.At(h, Acquiring(s.batches[h].phase.n, true)).(permits := s.permits - 1)
    case Count(h) =>
      s.At(h, Acquiring(s.batches[h].phase.n + 1, false)).(submitted := s.submitted + 1, inflight := s.inflight + 1)
    case Start(h) => s.At(h, Scheduling(0))
    case Schedule(h) => Scheduled(cfg, s, h)
    case GiveBack(h) => s.At(h, s.batches[h].phase.(stage := Uncounting)).(permits := s.permits + 1)
    case Uncount(h) =>
      s.At(h, s.batches[h].phase.(stage := Setting)).(submitted := s.submitted - 1, inflight := s.inflight - 1)
    case SetFailed(h) => s.(batches := s.batches[h := FailedOne(cfg, s.batches[h])])
    case Return(h) => s.At(h, Returned)
    case Take(t) => s.To(t, Executing([]))
    case Execute(t, ok) =>
      var oks := s.tasks[t].progress.oks;
      s.To(t, Executing(oks + [ok])).(log := s.log + [Exec(t, |oks|)])
    case Tally(t) =>
      var oks := s.tasks[t].progress.oks;
      s.To(t, Releasing(oks, 0)).(completed := s.completed + Trues(oks), failed := s.failed + |oks| - Trues(oks),
                                  inflight := s.inflight - |s.tasks[t].group|)
    case Release(t) => s.To(t, s.tasks[t].progress.(j := s.tasks[t].progress.j + 1)).(permits := s.permits + 1)
    case Deliver(t) =>
      var h := s.tasks[t].batch;
      var handle := s.batches[h].handle.SetMany(Pairs(s.tasks[t].group, s.tasks[t].progress.oks));
      s.To(t, if handle.remaining > 0 then Finished else Calling).With(h, handle)
    case Call(t, id) => s.With(s.tasks[t].batch, s.batches[s.tasks[t].batch].handle.Called(id))
    case Leave(t) => s.To(t, Finished)
    case Close => s.(closed := true)
    case Shutdown(q) => s.(shut := s.shut + {q})
    case AddCallback(h) => s.With(h, s.batches[h].handle.AddCallback())
    case RunCallback(h, id) => s.With(h, s.batches[h].handle.RunCallback(id))
  }

  // ---------- shape ----------

  ghost predicate BatchOk(cfg: Config, b: Batch)
    requires cfg.Ok()
  {
    match b.phase
    case Acquiring(n, holding) => n <= |b.items| && (holding ==> n < |b.items|)
    case Scheduling(p) => p <= |Gs(cfg, b)|
    case Failing(p, j, _) => p < |Gs(cfg, b)| && j < |Gs(cfg, b)[p]|
    case Returned => true
  }

  /** A queued group is one of its batch's groups, in the queue its key asks for. */
  ghost predicate IsGroup(cfg: Config, b: Batch, t: Task)
    requires cfg.Ok()
  {
    exists p :: 0 <= p < |Gs(cfg, b)| && t.group == Gs(cfg, b)[p] && t.queue == QueueOf(cfg, b, p)
  }

  ghost predicate TaskOk(cfg: Config, s: State, t: Task)
    requires cfg.Ok()
  {
    && t.batch < |s.batches| && IsGroup(cfg, s.batches[t.batch], t)
    && (t.progress.Executing? ==> |t.progress.oks| <= |t.group|)
    && (t.progress.Releasing? ==> |t.progress.oks| == |t.group| && t.progress.j <= |t.group|)
  }

  ghost predicate Shape(cfg: Config, s: State)
    requires cfg.Ok()
  {
    && (forall h :: 0 <= h < |s.batches| ==> BatchOk(cfg, s.batches[h]))
    && (forall t :: 0 <= t < |s.tasks| ==> TaskOk(cfg, s, s.tasks[t]))
  }

  /** The step changes batch h. */
  predicate OnBatch(s: State, step: Step, h: nat) {
    match step
    case Acquire(g) => g == h
    case Count(g) => g == h
    case Start(g) => g == h
    case Schedule(g) => g == h
    case GiveBack(g) => g == h
    case Uncount(g) => g == h
    case SetFailed(g) => g == h
    case Return(g) => g == h
    case AddCallback(g) => g == h
    case RunCallback(g, _) => g == h
    case Deliver(t) => t < |s.tasks| && s.tasks[t].batch == h
    case Call(t, _) => t < |s.tasks| && s.tasks[t].batch == h
    case _ => false
  }

  /** The step changes group t. */
  predicate OnTask(step: Step, t: nat) {
    (step.Take? || step.Execute? || step.Tally? || step.Release? || step.Deliver? || step.Leave?) && step.t == t
  }

  lemma OtherBatch(cfg: Config, s: State, step: Step, h: nat)
    requires cfg.Ok() && Enabled(cfg, s, step) && h < |s.batches| && !OnBatch(s, step, h)
    ensures h < |Next(cfg, s, step).batches| && Next(cfg, s, step).batches[h] == s.batches[h]
  {
    hide Groups, Config.Key, Config.Queue, QueueOf, Trues, Pairs, FailedOne, Blocked;
  }

  lemma OtherTask(cfg: Config, s: State, step: Step, t: nat)
    requires cfg.Ok() && Enabled(cfg, s, step) && t < |s.tasks| && !OnTask(step, t)
    ensures t < |Next(cfg, s, step).tasks| && Next(cfg, s, step).tasks[t] == s.tasks[t]
  {
    hide Groups, Config.Key, Config.Queue, QueueOf, Trues, Pairs, FailedOne, Blocked;
  }

  /** Batches keep their items and their submitter. */
  lemma ItemsKept(cfg: Config, s: State, step: Step, h: nat)
    requires cfg.Ok() && Enabled(cfg, s, step) && h < |s.batches|
    ensures h < |Next(cfg, s, step).batches|
    ensures var b, c := s.batches[h], Next(cfg, s, step).batches[h]; c.items == b.items && c.origin == b.origin
  {
    if OnBatch(s, step, h) {
      hide Groups, Config.Key, Config.Queue, QueueOf, Trues, Pairs, Blocked, Handle.SetMany, Handle.AddCallback;
    } else {
      OtherBatch(cfg, s, step, h);
      hide Next, Enabled;
    }
  }

  lemma TaskOkKept(cfg: Config, s: State, step: Step, t: Task)
    requires cfg.Ok() && Enabled(cfg, s, step) && TaskOk(cfg, s, t)
    ensures TaskOk(cfg, Next(cfg, s, step), t)
  {
    hide Next;
    ItemsKept(cfg, s, step, t.batch);
    var b, c := s.batches[t.batch], Next(cfg, s, step).batches[t.batch];
    var p :| 0 <= p < |Gs(cfg, b)| && t.group == Gs(cfg, b)[p] && t.queue == QueueOf(cfg, b, p);
    assert Gs(cfg, c)[p] == t.group && QueueOf(cfg, c, p) == t.queue;
  }

  lemma ShapeKept(cfg: Config, s: State, step: Step)
    requires cfg.Ok() && Shape(cfg, s) && Enabled(cfg, s, step)
    ensures Shape(cfg, Next(cfg, s, step))
  {
    hide Groups, Config.Key, Config.Queue;
    var r := Next(cfg, s, step);
    forall h | 0 <= h < |r.batches|
      ensures BatchOk(cfg, r.batches[h])
    {
      BatchOkKept(cfg, s, step, h);
    }
    forall t | 0 <= t < |r.tasks|
      ensures TaskOk(cfg, r, r.tasks[t])
    {
      NewTaskOk(cfg, s, step, t);
    }
  }

  lemma GroupNonempty(cfg: Config, b: Batch, p: nat)
    requires cfg.Ok() && p < |Gs(cfg, b)|
    ensures |Gs(cfg, b)[p]| > 0
  {
    assert GoodGroup(Gs(cfg, b)[p], cfg, b.items, |b.items|);
  }

  lemma BatchOkKept(cfg: Config, s: State, step: Step, h: nat)
    requires cfg.Ok() && Shape(cfg, s) && Enabled(cfg, s, step) && h < |Next(cfg, s, step).batches|
    ensures BatchOk(cfg, Next(cfg, s, step).batches[h])
  {
    hide TaskOk, Groups, Config.Key, Config.Queue, QueueOf, Trues, Pairs, Blocked, Handle.SetMany, Handle.AddCallback;
    if h >= |s.batches| {
      NewBatch(cfg, s, step, h);
      hide Next;
    } else if OnBatch(s, step, h) {
      assert BatchOk(cfg, s.batches[h]);
      if step.Schedule? {
        GroupNonempty(cfg, s.batches[h], s.batches[h].phase.p);
      }
    } else {
      OtherBatch(cfg, s, step, h);
      hide Next;
    }
  }

  /** Only a submission adds a batch. */
  lemma NewBatch(cfg: Config, s: State, step: Step, h: nat)
    requires cfg.Ok() && Enabled(cfg, s, step) && |s.batches| <= h < |Next(cfg, s, step).batches|
    ensures step.Submit? && h == |s.batches|
    ensures Next(cfg, s, step).batches[h] ==
      Batch(step.items, step.origin, Acquiring(0, false), NewHandle(|step.items|))
  {
    hide Groups, Config.Key, Config.Queue, QueueOf, Trues, Pairs, FailedOne, Blocked;
  }

  /** A listed task stays the same group in the same queue; only its progress moves, within bounds. */
  lemma TaskAfter(cfg: Config, s: State, step: Step, t: nat)
    requires cfg.Ok() && Enabled(cfg, s, step) && t < |s.tasks| && TaskOk(cfg, s, s.tasks[t])
    ensures t < |Next(cfg, s, step).tasks|
    ensures var x, y := s.tasks[t], Next(cfg, s, step).tasks[t];
      && y == x.(progress := y.progress)
      && (y.progress.Executing? ==> |y.progress.oks| <= |y.group|)
      && (y.progress.Releasing? ==> |y.progress.oks| == |y.group| && y.progress.j <= |y.group|)
  {
    if OnTask(step, t) {
      hide Groups, IsGroup, Trues, Pairs, Blocked, Handle.SetMany;
    } else {
      OtherTask(cfg, s, step, t);
      hide Next, Enabled;
    }
  }

  lemma NewTaskOk(cfg: Config, s: State, step: Step, t: nat)
    requires cfg.Ok() && Shape(cfg, s) && Enabled(cfg, s, step) && t < |Next(cfg, s, step).tasks|
    ensures TaskOk(cfg, Next(cfg, s, step), Next(cfg, s, step).tasks[t])
  {
    if t < |s.tasks| {
      hide Next, Groups, Enabled;
      assert TaskOk(cfg, s, s.tasks[t]);
      TaskOkKept(cfg, s, step, s.tasks[t]);
      TaskAfter(cfg, s, step, t);
      SameGroup(cfg, Next(cfg, s, step), s.tasks[t], Next(cfg, s, step).tasks[t]);
    } else {
      AppendedOk(cfg, s, step, t);
    }
  }

  lemma SameGroup(cfg: Config, s: State, x: Task, y: Task)
    requires cfg.Ok() && TaskOk(cfg, s, x) && y == x.(progress := y.progress)
    ensures IsGroup(cfg, s.batches[y.batch], y)
  {
    hide Groups;
    var b := s.batches[x.batch];
    var p :| 0 <= p < |Gs(cfg, b)| && x.group == Gs(cfg, b)[p] && x.queue == QueueOf(cfg, b, p);
    assert y.group == Gs(cfg, b)[p] && y.queue == QueueOf(cfg, b, p);
  }

  lemma AppendedOk(cfg: Config, s: State, step: Step, t: nat)
    requires cfg.Ok() && Enabled(cfg, s, step) && |s.tasks| <= t < |Next(cfg, s, step).tasks|
    ensures TaskOk(cfg, Next(cfg, s, step), Next(cfg, s, step).tasks[t])
  {
    hide Groups, Config.Key, Config.Queue;
    var r := Next(cfg, s, step);
    assert step.Schedule?;
    var b, c, p := s.batches[step.h], r.batches[step.h], s.batches[step.h].phase.p;
    assert c.items == b.items;
    assert r.tasks[t] == Task(step.h, Gs(cfg, c)[p], QueueOf(cfg, c, p), Queued);
    assert IsGroup(cfg, c, r.tasks[t]);
  }
}
