/**
  Execution order in the I/O engine: with single-threaded queues, requests run in the order their groups were queued.
 */
module EngineOrder {
  import opened Engine
  import opened Finite
  import opened Grouping

  /** Requests of a queued group executed so far. */
  ghost function Ran(t: Task): nat {
    match t.progress
    case Queued => 0
    case Executing(oks) => |oks|
    case _ => |t.group|
  }

  /** Earlier group, or earlier in the same group. */
  ghost predicate Earlier(a: Exec, b: Exec) {
    a.task < b.task || (a.task == b.task && a.k < b.k)
  }

  /** A task of a single-threaded queue starts only when those queued before it are finished. */
  ghost predicate OneAtATime(s: State) {
    forall i, j :: 0 <= i < j < |s.tasks| && s.tasks[i].queue == s.tasks[j].queue && !s.tasks[j].progress.Queued? ==>
      s.tasks[i].progress.Finished?
  }

  /** The log lists exactly the executed requests. */
  ghost predicate Logged(s: State) {
    && (forall a :: 0 <= a < |s.log| ==> s.log[a].task < |s.tasks| && s.log[a].k < Ran(s.tasks[s.log[a].task]))
    && (forall t, k :: 0 <= t < |s.tasks| && 0 <= k < Ran(s.tasks[t]) ==> Exec(t, k) in s.log)
  }

  ghost predicate InOrder(s: State)
    requires Logged(s)
  {
    forall a, b :: 0 <= a < b < |s.log| && s.tasks[s.log[a].task].queue == s.tasks[s.log[b].task].queue ==>
      Earlier(s.log[a], s.log[b])
  }

  ghost predicate Fifo(cfg: Config, s: State)
    requires cfg.Ok()
  {
    Logged(s) && (cfg.Slots() == 1 ==> OneAtATime(s) && InOrder(s))
  }

  /** How a step moves one task: queue and group stay, progress goes forward. */
  ghost predicate MovesTask(x: Task, y: Task, taken: bool, executed: bool) {
    && y.queue == x.queue && y.group == x.group
    && (x.progress.Finished? ==> y.progress.Finished?)
    && (x.progress.Queued? && !taken ==> y.progress.Queued?)
    && Ran(y) == Ran(x) + if executed then 1 else 0
  }

  ghost predicate Moves(s: State, r: State, step: Step) {
    && |s.tasks| <= |r.tasks|
    && (forall t :: 0 <= t < |s.tasks| ==>
         MovesTask(s.tasks[t], r.tasks[t], step.Take? && t == step.t, step.Execute? && t == step.t))
    && (forall t :: |s.tasks| <= t < |r.tasks| ==> r.tasks[t].progress.Queued?)
  }

  lemma StepMoves(cfg: Config, s: State, step: Step)
    requires cfg.Ok() && Shape(cfg, s) && Enabled(cfg, s, step)
    ensures Moves(s, Next(cfg, s, step), step)
  {
    hide Next, MovesTask, TaskOk;
    forall t | 0 <= t < |s.tasks|
      ensures t < |Next(cfg, s, step).tasks|
      ensures MovesTask(s.tasks[t], Next(cfg, s, step).tasks[t], step.Take? && t == step.t,
                        step.Execute? && t == step.t)
    {
      StepMovesTask(cfg, s, step, t);
    }
    NewQueued(cfg, s, step);
  }

  lemma StepMovesTask(cfg: Config, s: State, step: Step, t: nat)
    requires cfg.Ok() && Enabled(cfg, s, step) && t < |s.tasks| && TaskOk(cfg, s, s.tasks[t])
    ensures t < |Next(cfg, s, step).tasks|
    ensures MovesTask(s.tasks[t], Next(cfg, s, step).tasks[t], step.Take? && t == step.t, step.Execute? && t == step.t)
  {
    if OnTask(step, t) {
      hide Groups, IsGroup, Trues, Pairs, Blocked, Handle.SetMany;
    } else {
      OtherTask(cfg, s, step, t);
      hide Next, Enabled;
    }
  }

  lemma NewQueued(cfg: Config, s: State, step: Step)
    requires cfg.Ok() && Enabled(cfg, s, step)
    ensures |s.tasks| <= |Next(cfg, s, step).tasks|
    ensures forall t :: |s.tasks| <= t < |Next(cfg, s, step).tasks| ==> Next(cfg, s, step).tasks[t].progress.Queued?
  {
    hide Groups, Config.Key, Config.Queue, QueueOf, Trues, Pairs, FailedOne, Blocked;
  }

  lemma LogAfter(cfg: Config, s: State, step: Step)
    requires cfg.Ok() && Enabled(cfg, s, step)
    ensures Next(cfg, s, step).log == s.log + if step.Execute? then [Exec(step.t, Ran(s.tasks[step.t]))] else []
  {
    hide Groups, Config.Key, Config.Queue, QueueOf, Trues, Pairs, FailedOne, Blocked;
  }

  lemma OneKept(cfg: Config, s: State, step: Step)
    requires cfg.Ok() && Shape(cfg, s) && Enabled(cfg, s, step) && OneAtATime(s) && cfg.Slots() == 1
    ensures OneAtATime(Next(cfg, s, step))
  {
    hide Next, Shape, Ran;
    StepMoves(cfg, s, step);
    var r := Next(cfg, s, step);
    forall i, j | 0 <= i < j < |r.tasks| && r.tasks[i].queue == r.tasks[j].queue && !r.tasks[j].progress.Queued?
      ensures r.tasks[i].progress.Finished?
    {
      assert j < |s.tasks|;
      if step.Take? && step.t == j {
        IdleQueue(cfg, s, i, j);
      }
    }
  }

  /** When the only worker takes task j, everything queued before it is finished. */
  lemma IdleQueue(cfg: Config, s: State, i: nat, j: nat)
    requires cfg.Ok() && Enabled(cfg, s, Take(j)) && cfg.Slots() == 1 && i < j && s.tasks[i].queue == s.tasks[j].queue
    ensures s.tasks[i].progress.Finished?
  {
    var active := Active(s, s.tasks[j].queue);
    assert !s.tasks[i].progress.Queued?;
    assert active == {};
    assert Busy(s.tasks[i]) ==> i in active;
  }

  lemma LoggedKept(cfg: Config, s: State, step: Step)
    requires cfg.Ok() && Shape(cfg, s) && Enabled(cfg, s, step) && Logged(s)
    ensures Logged(Next(cfg, s, step))
  {
    StepMoves(cfg, s, step);
    LogAfter(cfg, s, step);
    NewRan(cfg, s, step);
    hide Next, Shape, Enabled, Ran;
    var r := Next(cfg, s, step);
    forall t, k | 0 <= t < |r.tasks| && 0 <= k < Ran(r.tasks[t])
      ensures Exec(t, k) in r.log
    {
      if step.Execute? && t == step.t && k == Ran(s.tasks[t]) {
        assert r.log[|s.log|] == Exec(t, k);
      } else {
        assert Exec(t, k) in s.log;
      }
    }
  }

  lemma NewRan(cfg: Config, s: State, step: Step)
    requires cfg.Ok() && Shape(cfg, s) && Enabled(cfg, s, step)
    ensures forall t :: |s.tasks| <= t < |Next(cfg, s, step).tasks| ==> Ran(Next(cfg, s, step).tasks[t]) == 0
  {
    StepMoves(cfg, s, step);
    hide Next, Shape, Enabled;
  }

  lemma OrderKept(cfg: Config, s: State, step: Step)
    requires cfg.Ok() && Shape(cfg, s) && Enabled(cfg, s, step) && Logged(s) && OneAtATime(s) && InOrder(s)
    ensures Logged(Next(cfg, s, step)) && InOrder(Next(cfg, s, step))
  {
    hide Next, Shape, Enabled, Ran, Earlier;
    LoggedKept(cfg, s, step);
    StepMoves(cfg, s, step);
    LogAfter(cfg, s, step);
    var r := Next(cfg, s, step);
    if step.Execute? {
      RunsLast(cfg, s, step);
    }
    forall a, b | 0 <= a < b < |r.log| && r.tasks[r.log[a].task].queue == r.tasks[r.log[b].task].queue
      ensures Earlier(r.log[a], r.log[b])
    {
      assert r.log[a] == s.log[a];
      if b < |s.log| {
        assert r.log[b] == s.log[b];
      }
    }
  }

  lemma RunsLast(cfg: Config, s: State, step: Step)
    requires cfg.Ok() && Enabled(cfg, s, step) && step.Execute? && Logged(s) && OneAtATime(s)
    ensures step.t < |s.tasks|
    ensures forall a :: 0 <= a < |s.log| && s.tasks[s.log[a].task].queue == s.tasks[step.t].queue ==>
      Earlier(s.log[a], Exec(step.t, Ran(s.tasks[step.t])))
  {
    hide Groups, Ran, Earlier, OneAtATime;
    forall a | 0 <= a < |s.log| && s.tasks[s.log[a].task].queue == s.tasks[step.t].queue
      ensures Earlier(s.log[a], Exec(step.t, Ran(s.tasks[step.t])))
    {
      LastInQueue(s, a, step.t);
    }
  }

  lemma LastInQueue(s: State, a: nat, t: nat)
    requires Logged(s) && OneAtATime(s) && a < |s.log| && t < |s.tasks| && s.tasks[t].progress.Executing?
    requires s.tasks[s.log[a].task].queue == s.tasks[t].queue
    ensures Earlier(s.log[a], Exec(t, Ran(s.tasks[t])))
  {
    var u := s.log[a].task;
    assert s.log[a].k < Ran(s.tasks[u]) && !s.tasks[u].progress.Queued?;
    if t < u {
      assert false;
    }
  }

  lemma FifoKept(cfg: Config, s: State, step: Step)
    requires cfg.Ok() && Shape(cfg, s) && Enabled(cfg, s, step) && Fifo(cfg, s)
    ensures Fifo(cfg, Next(cfg, s, step))
  {
    hide Next, Shape, Enabled, Logged, InOrder, OneAtATime;
    LoggedKept(cfg, s, step);
    if cfg.Slots() == 1 {
      OneKept(cfg, s, step);
      OrderKept(cfg, s, step);
    }
  }

  /** Two requests for the same chunk, in whatever batches, share a queue. */
  lemma SameChunkSameQueue(cfg: Config, s: State, t: nat, u: nat, i: nat, j: nat)
    requires cfg.Ok() && cfg.queues > 1 && Shape(cfg, s) && t < |s.tasks| && u < |s.tasks| && i < |s.tasks[t].group|
    requires j < |s.tasks[u].group|
    requires s.tasks[t].batch < |s.batches| && s.tasks[u].batch < |s.batches|
    requires s.tasks[t].group[i] < |s.batches[s.tasks[t].batch].items|
    requires s.tasks[u].group[j] < |s.batches[s.tasks[u].batch].items|
    requires s.batches[s.tasks[t].batch].items[s.tasks[t].group[i]] ==
      s.batches[s.tasks[u].batch].items[s.tasks[u].group[j]]
    ensures s.tasks[t].queue == s.tasks[u].queue
  {
    KeyOfMember(cfg, s, t, i);
    KeyOfMember(cfg, s, u, j);
  }

  /** With several queues a request goes to the queue of its chunk modulo their number; otherwise to the only one. */
  lemma QueueOfRequest(cfg: Config, s: State, t: nat, i: nat)
    requires cfg.Ok() && Shape(cfg, s) && t < |s.tasks| && i < |s.tasks[t].group|
    ensures var x := s.tasks[t];
      && x.batch < |s.batches| && x.group[i] < |s.batches[x.batch].items|
      && x.queue == if cfg.queues > 1 then s.batches[x.batch].items[x.group[i]] % cfg.queues else 0
  {
    KeyOfMember(cfg, s, t, i);
    hide Shape;
  }

  lemma KeyOfMember(cfg: Config, s: State, t: nat, i: nat)
    requires cfg.Ok() && Shape(cfg, s) && t < |s.tasks| && i < |s.tasks[t].group|
    ensures var x := s.tasks[t];
      x.batch < |s.batches| && x.group[i] < |s.batches[x.batch].items| &&
      x.queue == cfg.Queue(cfg.Key(s.batches[x.batch].items, x.group[i]))
  {
    hide Config.Key, Config.Queue;
    var x := s.tasks[t];
    assert TaskOk(cfg, s, x);
    var b := s.batches[x.batch];
    var p :| 0 <= p < |Gs(cfg, b)| && x.group == Gs(cfg, b)[p] && x.queue == QueueOf(cfg, b, p);
    assert GoodGroup(x.group, cfg, b.items, |b.items|);
  }

  /**
    Of two executed requests of one queue, the one whose group was queued first (or that comes first in their group)
    ran first.
   */
  lemma RunsInOrder(cfg: Config, s: State, x: Exec, y: Exec)
    requires cfg.Ok() && cfg.queues > 1 && Fifo(cfg, s) && x.task < |s.tasks| && y.task < |s.tasks|
    requires s.tasks[x.task].queue == s.tasks[y.task].queue && Earlier(x, y) && y in s.log
    requires x.k < |s.tasks[x.task].group|
    ensures exists a, b :: 0 <= a < b < |s.log| && s.log[a] == x && s.log[b] == y
  {
    var b :| 0 <= b < |s.log| && s.log[b] == y;
    assert y.k < Ran(s.tasks[y.task]);
    assert x.k < Ran(s.tasks[x.task]) by {
      if x.task < y.task {
        assert !s.tasks[y.task].progress.Queued?;
      }
    }
    assert Exec(x.task, x.k) in s.log;
    var a :| 0 <= a < |s.log| && s.log[a] == x;
    if b < a {
      assert false;
    }
    assert a != b;
  }

  /** Within a group requests stand in submission order. */
  lemma GroupAscends(cfg: Config, s: State, t: nat, i: nat, j: nat)
    requires cfg.Ok() && Shape(cfg, s) && t < |s.tasks| && i < j < |s.tasks[t].group|
    ensures s.tasks[t].group[i] < s.tasks[t].group[j]
  {
    hide Config.Key, Config.Queue;
    var x := s.tasks[t];
    assert TaskOk(cfg, s, x);
    var b := s.batches[x.batch];
    var p :| 0 <= p < |Gs(cfg, b)| && x.group == Gs(cfg, b)[p] && x.queue == QueueOf(cfg, b, p);
    assert GoodGroup(x.group, cfg, b.items, |b.items|);
  }
}
