/** The I/O engine over whole runs: what holds after every interleaving, the race with close included. */
module EngineRuns {
  import opened Engine
  import opened EngineHandles
  import opened EngineLedger
  import opened EngineOrder
  import opened Finite
  import opened Grouping
  import opened Sums

  /** Everything every step keeps. */
  ghost predicate Inv(cfg: Config, s: State)
    requires cfg.Ok()
  {
    Shape(cfg, s) && Ledger(cfg, s) && Delivery(cfg, s) && Fifo(cfg, s) && Fits(cfg, s) && Callers(s)
  }

  /** Only batches within the limit get past their permits. */
  ghost predicate Fits(cfg: Config, s: State) {
    cfg.limited ==>
      forall h :: 0 <= h < |s.batches| && !s.batches[h].phase.Acquiring? ==> |s.batches[h].items| <= cfg.limit
  }

  /** Callbacks come with a returned handle, and those a worker has to run have a worker running them. */
  ghost predicate Callers(s: State) {
    forall h :: 0 <= h < |s.batches| ==> CallerOk(s, h)
  }

  ghost predicate CallerOk(s: State, h: nat)
    requires h < |s.batches|
  {
    && (!s.batches[h].phase.Returned? ==> s.batches[h].handle.regs == 0)
    && (s.batches[h].handle.calls != multiset{} ==> HasCaller(s, h))
  }

  ghost predicate HasCaller(s: State, h: nat) {
    exists t :: 0 <= t < |s.tasks| && s.tasks[t].batch == h && s.tasks[t].progress.Calling?
  }

  /** A handle that a failing submitter completes has no callbacks yet. */
  lemma NoEarlyCallbacks(cfg: Config, s: State, h: nat)
    requires cfg.Ok() && h < |s.batches| && Owns(cfg, s, h) && CallerOk(s, h) && !s.batches[h].phase.Returned?
    ensures s.batches[h].handle.remaining > 0 ==> s.batches[h].handle.waiting == multiset{}
    ensures s.batches[h].handle.calls == multiset{}
  {
    assert multiset(Below(0)) == multiset{};
  }

  lemma CallersKept(cfg: Config, s: State, step: Step)
    requires cfg.Ok() && Shape(cfg, s) && Delivery(cfg, s) && Callers(s) && Enabled(cfg, s, step)
    ensures Callers(Next(cfg, s, step))
  {
    hide Next, Enabled, Shape, Delivery;
    forall h | 0 <= h < |Next(cfg, s, step).batches|
      ensures CallerOk(Next(cfg, s, step), h)
    {
      if h < |s.batches| {
        RegsKept(cfg, s, step, h);
        CallsKept(cfg, s, step, h);
      } else {
        NewCaller(cfg, s, step, h);
      }
    }
  }

  lemma NewCaller(cfg: Config, s: State, step: Step, h: nat)
    requires cfg.Ok() && Enabled(cfg, s, step) && |s.batches| <= h < |Next(cfg, s, step).batches|
    ensures CallerOk(Next(cfg, s, step), h)
  {
    NewBatch(cfg, s, step, h);
    hide Next, Enabled;
  }

  lemma RegsKept(cfg: Config, s: State, step: Step, h: nat)
    requires cfg.Ok() && Enabled(cfg, s, step) && h < |s.batches| && CallerOk(s, h)
    ensures h < |Next(cfg, s, step).batches|
    ensures var c := Next(cfg, s, step).batches[h]; !c.phase.Returned? ==> c.handle.regs == 0
  {
    if OnBatch(s, step, h) {
      hide Groups, Config.Key, Config.Queue, QueueOf, Pairs, Trues, HasCaller, Blocked;
    } else {
      OtherBatch(cfg, s, step, h);
      hide Next, Enabled;
    }
  }

  lemma CallsKept(cfg: Config, s: State, step: Step, h: nat)
    requires cfg.Ok() && Shape(cfg, s) && Delivery(cfg, s) && Enabled(cfg, s, step) && h < |s.batches| && CallerOk(s, h)
    ensures h < |Next(cfg, s, step).batches|
    ensures Next(cfg, s, step).batches[h].handle.calls != multiset{} ==> HasCaller(Next(cfg, s, step), h)
  {
    hide Next, Shape, Owns, CallerOk, HasCaller;
    assert Owns(cfg, s, h);
    hide Delivery;
    ItemsKept(cfg, s, step, h);
    if step.SetFailed? && step.h == h {
      SetFailedIs(cfg, s, h);
      FailedCalls(cfg, s, h);
    } else if step.Deliver? && s.tasks[step.t].batch == h {
      DeliverCalls(cfg, s, step.t, h);
    } else {
      hide Enabled;
      CallsFrame(cfg, s, step, h);
    }
  }

  lemma SetFailedIs(cfg: Config, s: State, h: nat)
    requires cfg.Ok() && Enabled(cfg, s, SetFailed(h))
    ensures FailingAt(cfg, s, h, Setting) && h < |Next(cfg, s, SetFailed(h)).batches|
    ensures Next(cfg, s, SetFailed(h)).batches[h] == FailedOne(cfg, s.batches[h])
  {
    hide Groups;
  }

  lemma FailedCalls(cfg: Config, s: State, h: nat)
    requires cfg.Ok() && Shape(cfg, s) && FailingAt(cfg, s, h, Setting) && Owns(cfg, s, h) && CallerOk(s, h)
    ensures FailedOne(cfg, s.batches[h]).handle.calls == multiset{}
  {
    hide Groups, TaskOk, HasCaller, Owns;
    NoEarlyCallbacks(cfg, s, h);
    StillOwes(cfg, s, h);
  }

  /** A failing submitter still owes an index, so its handle is not complete. */
  lemma StillOwes(cfg: Config, s: State, h: nat)
    requires cfg.Ok() && h < |s.batches| && BatchOk(cfg, s.batches[h]) && s.batches[h].phase.Failing? && Owns(cfg, s, h)
    ensures s.batches[h].handle.remaining > 0
  {
    hide Groups;
    var b := s.batches[h];
    FailOwed(cfg, b);
    var x := Gs(cfg, b)[b.phase.p][b.phase.j];
    assert x in PhaseOwed(cfg, b);
    OwedMeansRemaining(b.handle, |b.items|, x);
  }

  /** Completion hands the waiting callbacks to the completing worker, which then runs them. */
  lemma DeliverCalls(cfg: Config, s: State, t: nat, h: nat)
    requires cfg.Ok() && t < |s.tasks| && h == s.tasks[t].batch && h < |s.batches|
    requires Shape(cfg, s) && Enabled(cfg, s, Deliver(t)) && Owns(cfg, s, h)
    ensures s.batches[h].handle.remaining > 0 && s.batches[h].handle.calls == multiset{}
    ensures var r := Next(cfg, s, Deliver(t));
      && h < |r.batches| && t < |r.tasks|
      && (r.batches[h].handle.calls != multiset{} ==> r.tasks[t].progress.Calling? && HasCaller(r, h))
  {
    hide Groups, Pairs, Split;
    TaskOwes(cfg, s, t);
    hide Shape;
    var r := Next(cfg, s, Deliver(t));
    assert r.tasks[t].batch == h;
  }

  lemma TaskOwes(cfg: Config, s: State, t: nat)
    requires cfg.Ok() && Shape(cfg, s) && t < |s.tasks| && s.tasks[t].progress.Releasing?
    requires s.tasks[t].batch < |s.batches| && Owns(cfg, s, s.tasks[t].batch)
    ensures s.batches[s.tasks[t].batch].handle.remaining > 0
  {
    hide Groups;
    var x, b := s.tasks[t], s.batches[s.tasks[t].batch];
    assert TaskOk(cfg, s, x);
    var p :| 0 <= p < |Gs(cfg, b)| && x.group == Gs(cfg, b)[p] && x.queue == QueueOf(cfg, b, p);
    GroupNonempty(cfg, b, p);
    assert x.group[0] in TaskOwed(x);
    assert Apart(TaskOwed(x), Done(b.handle.written) + PhaseOwed(cfg, b), |b.items|);
    OwedMeansRemaining(b.handle, |b.items|, x.group[0]);
  }

  lemma CallsFrame(cfg: Config, s: State, step: Step, h: nat)
    requires cfg.Ok() && Enabled(cfg, s, step) && h < |s.batches| && CallerOk(s, h)
    requires !(step.SetFailed? && step.h == h) && !(step.Deliver? && s.tasks[step.t].batch == h)
    ensures h < |Next(cfg, s, step).batches|
    ensures Next(cfg, s, step).batches[h].handle.calls != multiset{} ==> HasCaller(Next(cfg, s, step), h)
  {
    CallsSame(cfg, s, step, h);
    if Next(cfg, s, step).batches[h].handle.calls != multiset{} {
      var t :| 0 <= t < |s.tasks| && s.tasks[t].batch == h && s.tasks[t].progress.Calling?;
      CallingStays(cfg, s, step, t);
    }
  }

  lemma CallsSame(cfg: Config, s: State, step: Step, h: nat)
    requires cfg.Ok() && Enabled(cfg, s, step) && h < |s.batches|
    requires !(step.SetFailed? && step.h == h) && !(step.Deliver? && s.tasks[step.t].batch == h)
    ensures h < |Next(cfg, s, step).batches|
    ensures Next(cfg, s, step).batches[h].handle.calls != multiset{} ==> s.batches[h].handle.calls != multiset{}
    ensures step.Leave? && s.tasks[step.t].batch == h ==> Next(cfg, s, step).batches[h].handle.calls == multiset{}
  {
    if OnBatch(s, step, h) {
      hide Groups, Config.Key, Config.Queue, QueueOf, Pairs, Trues, Blocked;
    } else {
      OtherBatch(cfg, s, step, h);
      hide Next, Groups, Blocked;
    }
  }

  lemma CallingStays(cfg: Config, s: State, step: Step, t: nat)
    requires cfg.Ok() && Enabled(cfg, s, step) && t < |s.tasks| && s.tasks[t].progress.Calling?
    requires !(step.Leave? && step.t == t)
    ensures t < |Next(cfg, s, step).tasks|
    ensures Next(cfg, s, step).tasks[t].progress.Calling? && Next(cfg, s, step).tasks[t].batch == s.tasks[t].batch
  {
    hide Groups, Blocked;
    assert !OnTask(step, t);
    OtherTask(cfg, s, step, t);
    hide Next;
  }

  lemma InitialInv(cfg: Config)
    requires cfg.Ok()
    ensures Inv(cfg, Initial(cfg))
  {
  }

  lemma FitsKept(cfg: Config, s: State, step: Step)
    requires cfg.Ok() && Shape(cfg, s) && Ledger(cfg, s) && Fits(cfg, s) && Enabled(cfg, s, step)
    ensures Fits(cfg, Next(cfg, s, step))
  {
    hide Next, Enabled, Shape, Ledger;
    if cfg.limited {
      forall h | 0 <= h < |Next(cfg, s, step).batches| && !Next(cfg, s, step).batches[h].phase.Acquiring?
        ensures |Next(cfg, s, step).batches[h].items| <= cfg.limit
      {
        if h >= |s.batches| {
          NewBatch(cfg, s, step, h);
        } else {
          ItemsKept(cfg, s, step, h);
          if step != Start(h) {
            LeavesPermits(cfg, s, step, h);
          } else {
            StartMeansFits(cfg, s, h);
          }
        }
      }
    }
  }

  /** Only Start takes a batch past its permits. */
  lemma LeavesPermits(cfg: Config, s: State, step: Step, h: nat)
    requires cfg.Ok() && Enabled(cfg, s, step) && h < |s.batches| && step != Start(h)
    ensures h < |Next(cfg, s, step).batches|
    ensures s.batches[h].phase.Acquiring? ==> Next(cfg, s, step).batches[h].phase.Acquiring?
  {
    if OnBatch(s, step, h) {
      hide Groups, Config.Key, Config.Queue, QueueOf, Pairs, Trues, Blocked, Handle.SetMany;
    } else {
      OtherBatch(cfg, s, step, h);
      hide Next, Enabled;
    }
  }

  lemma StepKeeps(cfg: Config, s: State, step: Step)
    requires cfg.Ok() && Inv(cfg, s) && Enabled(cfg, s, step)
    ensures Inv(cfg, Next(cfg, s, step))
  {
    hide Next, Enabled, Shape, Ledger, Delivery, Fifo, Fits, Callers;
    ShapeKept(cfg, s, step);
    LedgerKept(cfg, s, step);
    DeliveryKept(cfg, s, step);
    FifoKept(cfg, s, step);
    FitsKept(cfg, s, step);
    CallersKept(cfg, s, step);
  }

  /** The state after a sequence of steps, each enabled when taken. */
  ghost predicate Reaches(cfg: Config, s: State, steps: seq<Step>, r: State)
    requires cfg.Ok()
    decreases |steps|
  {
    if steps == [] then r == s
    else Enabled(cfg, s, steps[0]) && Reaches(cfg, Next(cfg, s, steps[0]), steps[1..], r)
  }

  lemma {:induction false} RunKeeps(cfg: Config, s: State, steps: seq<Step>, r: State)
    requires cfg.Ok() && Inv(cfg, s) && Reaches(cfg, s, steps, r)
    ensures Inv(cfg, r)
    decreases |steps|
  {
    hide Next, Enabled, Inv;
    if steps != [] {
      StepKeeps(cfg, s, steps[0]);
      RunKeeps(cfg, Next(cfg, s, steps[0]), steps[1..], r);
    }
  }

  /** Every handle's indices are set at most once, its counter is exact, and its callbacks are kept one each. */
  ghost predicate HandlesSound(s: State) {
    forall h :: 0 <= h < |s.batches| ==> HandleOk(s.batches[h].handle, |s.batches[h].items|)
  }

  /** Safety of every interleaving from a new engine. */
  lemma EveryRunSafe(cfg: Config, steps: seq<Step>, s: State)
    requires cfg.Ok() && Reaches(cfg, Initial(cfg), steps, s)
    ensures s.submitted == s.completed + s.failed + s.inflight
    ensures cfg.limited ==> Total(s.tasks, RunningT()) <= cfg.limit && Fits(cfg, s)
    ensures HandlesSound(s)
    ensures Fifo(cfg, s)
  {
    hide Reaches, Initial, Shape, Fifo, Held, Counted, HandleOk, Split;
    InitialInv(cfg);
    RunKeeps(cfg, Initial(cfg), steps, s);
    if cfg.limited {
      ExecutingBounded(cfg, s);
    }
    forall h | 0 <= h < |s.batches|
      ensures HandleOk(s.batches[h].handle, |s.batches[h].items|)
    {
      assert Owns(cfg, s, h);
    }
  }

  /** All submitters have returned and all groups are finished. */
  ghost predicate Quiet(s: State) {
    && (forall h :: 0 <= h < |s.batches| ==> s.batches[h].phase.Returned?)
    && (forall t :: 0 <= t < |s.tasks| ==> s.tasks[t].progress.Finished?)
  }

  /** A complete handle: every index set, exactly once, and every callback run or about to run, exactly once. */
  ghost predicate Complete(b: Batch) {
    && b.handle.remaining == 0 && Once(b.handle.written) && Done(b.handle.written) == Below(|b.items|)
    && b.handle.ran + b.handle.toRun == multiset(Below(b.handle.regs))
  }

  /**
    Once nothing is left to do, every index of every batch has been set exactly once, all permits are back, nothing is
    in flight.
   */
  lemma QuietMeansDone(cfg: Config, s: State)
    requires cfg.Ok() && Inv(cfg, s) && Quiet(s)
    ensures forall h :: 0 <= h < |s.batches| ==> Complete(s.batches[h])
    ensures s.permits == cfg.limit && s.inflight == 0 && s.submitted == s.completed + s.failed
  {
    hide Shape, Fifo, HeldBy, CountedBy, Owns, Complete, CallerOk;
    forall h | 0 <= h < |s.batches|
      ensures Complete(s.batches[h])
    {
      assert Owns(cfg, s, h) && CallerOk(s, h);
      BatchDone(cfg, s, h);
    }
    QuietLedger(cfg, s);
  }

  lemma BatchDone(cfg: Config, s: State, h: nat)
    requires cfg.Ok() && h < |s.batches| && Owns(cfg, s, h) && CallerOk(s, h) && Quiet(s)
    ensures Complete(s.batches[h])
  {
    hide Groups;
    var b := s.batches[h];
    assert PhaseOwed(cfg, b) == {};
    forall i | 0 <= i < |b.items|
      ensures i in Done(b.handle.written)
    {
      assert !OwedByTask(s.tasks, h, i);
    }
    assert Done(b.handle.written) == Below(|b.items|);
    DoneCard(b.handle.written);
  }

  lemma QuietLedger(cfg: Config, s: State)
    requires cfg.Ok() && Quiet(s)
    ensures Held(cfg, s) == 0 && Counted(cfg, s) == 0
  {
    hide HeldBy, CountedBy;
    forall i | 0 <= i < |s.batches|
      ensures HeldB(cfg)(s.batches[i]) == 0 && CountedB(cfg)(s.batches[i]) == 0
    {
      ReturnedHolds(cfg, s.batches[i]);
    }
    AllZero(s.batches, HeldB(cfg));
    AllZero(s.batches, CountedB(cfg));
    AllZero(s.tasks, HeldT());
    AllZero(s.tasks, CountedT());
  }

  lemma AllZero<T>(s: seq<T>, f: T -> int)
    requires forall i :: 0 <= i < |s| ==> f(s[i]) == 0
    ensures Total(s, f) == 0
  {
    TotalMono(s, f, Zero());
    TotalMono(s, Zero(), f);
    TotalZero(s);
  }

  // ---------- reaching the scheduling phase ----------

  /** A lone submitter whose batch is within the limit gets all its permits and starts scheduling. */
  lemma {:induction false} LoneReaches(cfg: Config, s: State, h: nat) returns (steps: seq<Step>, r: State)
    requires cfg.Ok() && Inv(cfg, s) && Lone(s, h) && s.batches[h].phase.Acquiring? && !s.batches[h].phase.holding
    requires cfg.limited ==> |s.batches[h].items| <= cfg.limit
    ensures Reaches(cfg, s, steps, r) && Lone(r, h) && r.batches[h].phase == Scheduling(0)
    decreases |s.batches[h].items| - s.batches[h].phase.n
  {
    hide Ledger, Delivery, Fifo, Fits, Groups, TaskOk;
    var b := s.batches[h];
    assert BatchOk(cfg, b);
    if b.phase.n == |b.items| {
      r, steps := Next(cfg, s, Start(h)), [Start(h)];
      assert Reaches(cfg, r, [], r) && steps[1..] == [];
    } else {
      LoneAcquires(cfg, s, h);
      var mid := Next(cfg, s, Acquire(h));
      StepKeeps(cfg, s, Acquire(h));
      var next := Next(cfg, mid, Count(h));
      StepKeeps(cfg, mid, Count(h));
      var rest;
      rest, r := LoneReaches(cfg, next, h);
      steps := [Acquire(h), Count(h)] + rest;
      assert steps[1..] == [Count(h)] + rest && steps[1..][1..] == rest;
    }
  }

  /** A batch larger than the limit starts scheduling in no run. */
  lemma TooLargeNever(cfg: Config, steps: seq<Step>, s: State, h: nat)
    requires cfg.Ok() && cfg.limited && Reaches(cfg, Initial(cfg), steps, s) && h < |s.batches|
    requires |s.batches[h].items| > cfg.limit
    ensures s.batches[h].phase.Acquiring?
  {
    EveryRunSafe(cfg, steps, s);
  }

  // ---------- close and shutdown ----------

  lemma StepAfterClose(cfg: Config, s: State, step: Step)
    requires cfg.Ok() && Enabled(cfg, s, step) && s.closed
    ensures Next(cfg, s, step).closed && |Next(cfg, s, step).batches| == |s.batches|
  {
    hide Groups, Config.Key, Config.Queue, QueueOf, Trues, Pairs, FailedOne, Blocked;
  }

  /** Once close has begun no batch is accepted any more. */
  lemma {:induction false} NothingAfterClose(cfg: Config, s: State, steps: seq<Step>, r: State)
    requires cfg.Ok() && s.closed && Reaches(cfg, s, steps, r)
    ensures r.closed && |r.batches| == |s.batches|
    decreases |steps|
  {
    hide Next, Enabled;
    if steps != [] {
      StepAfterClose(cfg, s, steps[0]);
      NothingAfterClose(cfg, Next(cfg, s, steps[0]), steps[1..], r);
    }
  }

  lemma StepAfterShutdown(cfg: Config, s: State, step: Step, q: nat)
    requires cfg.Ok() && Enabled(cfg, s, step) && q in s.shut
    ensures q in Next(cfg, s, step).shut && |s.tasks| <= |Next(cfg, s, step).tasks|
    ensures forall t :: 0 <= t < |s.tasks| ==> Next(cfg, s, step).tasks[t].queue == s.tasks[t].queue
    ensures forall t :: |s.tasks| <= t < |Next(cfg, s, step).tasks| ==> Next(cfg, s, step).tasks[t].queue != q
  {
    hide Groups, Config.Key, Config.Queue, QueueOf, Trues, Pairs, FailedOne, Blocked;
  }

  /** Once a queue's executor is shut down it gets no group any more; the groups it holds keep their places. */
  lemma {:induction false} NothingAfterShutdown(cfg: Config, s: State, steps: seq<Step>, r: State, q: nat)
    requires cfg.Ok() && q in s.shut && Reaches(cfg, s, steps, r)
    ensures q in r.shut && |s.tasks| <= |r.tasks|
    ensures forall t :: 0 <= t < |s.tasks| ==> r.tasks[t].queue == s.tasks[t].queue
    ensures forall t :: |s.tasks| <= t < |r.tasks| ==> r.tasks[t].queue != q
    decreases |steps|
  {
    hide Next, Enabled;
    if steps != [] {
      StepAfterShutdown(cfg, s, steps[0], q);
      NothingAfterShutdown(cfg, Next(cfg, s, steps[0]), steps[1..], r, q);
    }
  }

  // ---------- order per chunk ----------

  /** Request i of group t: its place in the state and the chunk it is for. */
  ghost predicate IsRequest(s: State, t: nat, i: nat, chunk: nat) {
    && t < |s.tasks| && i < |s.tasks[t].group| && s.tasks[t].batch < |s.batches|
    && s.tasks[t].group[i] < |s.batches[s.tasks[t].batch].items|
    && s.batches[s.tasks[t].batch].items[s.tasks[t].group[i]] == chunk
  }

  /**
    With more than one queue, in every run: of two requests for the same chunk, in whatever batches, the one whose group
    was queued first runs first, and within a group the one submitted first.
   */
  lemma ChunkOrder(cfg: Config, steps: seq<Step>, s: State, chunk: nat, x: Exec, y: Exec)
    requires cfg.Ok() && cfg.queues > 1 && Reaches(cfg, Initial(cfg), steps, s)
    requires IsRequest(s, x.task, x.k, chunk) && IsRequest(s, y.task, y.k, chunk) && y in s.log
    requires x.task < y.task || (x.task == y.task && s.tasks[x.task].group[x.k] < s.tasks[y.task].group[y.k])
    ensures exists a, b :: 0 <= a < b < |s.log| && s.log[a] == x && s.log[b] == y
  {
    hide Reaches, Groups, Fifo, Ledger, Delivery, Fits, Callers, TaskOk;
    InitialInv(cfg);
    RunKeeps(cfg, Initial(cfg), steps, s);
    SameChunkSameQueue(cfg, s, x.task, y.task, x.k, y.k);
    if x.task == y.task && x.k >= y.k {
      if x.k > y.k {
        GroupAscends(cfg, s, x.task, y.k, x.k);
      }
      assert false;
    }
    RunsInOrder(cfg, s, x, y);
  }
}
