/**
  What the results and counters of the I/O engine say, in terms of the steps taken: each index carries the outcome of
  the execution of its own request, or the failure of a group that no queue took, and the counters count executions.
 */
module EngineResults {
  import opened Engine
  import opened EngineHandles
  import opened EngineRuns
  import opened Finite
  import opened Grouping
  import EngineLedger
  import EngineOrder

  // ---------- reading the steps ----------

  /** The outcomes of the executions of group t, in order: the k-th is that of its k-th request. */
  ghost function Outcomes(past: seq<Step>, t: nat): seq<bool> {
    if past == [] then []
    else
      var last := past[|past| - 1];
      Outcomes(past[..|past| - 1], t) + if last.Execute? && last.t == t then [last.ok] else []
  }

  lemma OutcomesSnoc(past: seq<Step>, step: Step, t: nat)
    ensures Outcomes(past + [step], t) == Outcomes(past, t) + if step.Execute? && step.t == t then [step.ok] else []
  {
    assert (past + [step])[..|past|] == past;
  }

  /** The executions with this outcome that belong to a group whose worker has counted it. */
  ghost function Executions(past: seq<Step>, ok: bool): set<nat> {
    set i | 0 <= i < |past| && past[i].Execute? && past[i].ok == ok && Tally(past[i].t) in past
  }

  // ---------- groups ----------

  ghost predicate Counted(x: Task) {
    x.progress.Releasing? || x.progress.Calling? || x.progress.Finished?
  }

  ghost predicate HandedBack(x: Task) {
    x.progress.Calling? || x.progress.Finished?
  }

  /** A group's progress holds the outcomes so far and says which of its steps were taken. */
  ghost predicate TaskHist(past: seq<Step>, t: nat, x: Task) {
    && (x.progress.Queued? ==> Outcomes(past, t) == [])
    && (x.progress.Executing? || x.progress.Releasing? ==> Outcomes(past, t) == x.progress.oks)
    && (Counted(x) ==> |Outcomes(past, t)| == |x.group|)
    && (Tally(t) in past <==> Counted(x)) && (Deliver(t) in past <==> HandedBack(x))
  }

  ghost predicate NoHist(past: seq<Step>, t: nat) {
    Outcomes(past, t) == [] && Tally(t) !in past && Deliver(t) !in past
  }

  ghost predicate TasksHist(past: seq<Step>, s: State) {
    && (forall t :: 0 <= t < |s.tasks| ==> TaskHist(past, t, s.tasks[t]))
    && (forall t :: |s.tasks| <= t ==> NoHist(past, t))
  }

  lemma TaskHistKept(cfg: Config, past: seq<Step>, s: State, step: Step, t: nat)
    requires cfg.Ok() && Enabled(cfg, s, step) && t < |s.tasks| && TaskOk(cfg, s, s.tasks[t])
    requires TaskHist(past, t, s.tasks[t])
    ensures t < |Next(cfg, s, step).tasks| && TaskHist(past + [step], t, Next(cfg, s, step).tasks[t])
  {
    OutcomesSnoc(past, step, t);
    hide Outcomes;
    if OnTask(step, t) {
      hide Groups, IsGroup, Trues, Pairs, Blocked, Handle.SetMany;
    } else {
      OtherTask(cfg, s, step, t);
      hide Next, Enabled;
    }
  }

  /** A group just queued has no history, and steps concern queued groups only. */
  lemma NoHistKept(cfg: Config, past: seq<Step>, s: State, step: Step, t: nat)
    requires cfg.Ok() && Enabled(cfg, s, step) && |s.tasks| <= t && NoHist(past, t)
    ensures NoHist(past + [step], t)
    ensures t < |Next(cfg, s, step).tasks| ==> Next(cfg, s, step).tasks[t].progress.Queued?
  {
    OutcomesSnoc(past, step, t);
    hide Outcomes, Groups, Config.Key, Config.Queue, QueueOf, Trues, Pairs, FailedOne, Blocked;
  }

  lemma TasksHistKept(cfg: Config, past: seq<Step>, s: State, step: Step)
    requires cfg.Ok() && Shape(cfg, s) && Enabled(cfg, s, step) && TasksHist(past, s)
    ensures TasksHist(past + [step], Next(cfg, s, step))
  {
    hide Next, Enabled, TaskOk, BatchOk, TaskHist, NoHist;
    var r := Next(cfg, s, step);
    TasksGrow(cfg, s, step);
    forall t | 0 <= t < |r.tasks|
      ensures TaskHist(past + [step], t, r.tasks[t])
    {
      if t < |s.tasks| {
        TaskHistKept(cfg, past, s, step, t);
      } else {
        NoHistKept(cfg, past, s, step, t);
        FreshHist(past + [step], t, r.tasks[t]);
      }
    }
    forall t | |r.tasks| <= t
      ensures NoHist(past + [step], t)
    {
      NoHistKept(cfg, past, s, step, t);
    }
  }

  lemma FreshHist(past: seq<Step>, t: nat, x: Task)
    requires NoHist(past, t) && x.progress.Queued?
    ensures TaskHist(past, t, x)
  {
  }

  // ---------- counters ----------

  ghost function Of(past: seq<Step>, t: nat, ok: bool): set<nat> {
    set i | 0 <= i < |past| && past[i] == Execute(t, ok)
  }

  lemma {:induction false} OutcomesCounted(past: seq<Step>, t: nat)
    ensures |Of(past, t, true)| == Trues(Outcomes(past, t))
    ensures |Of(past, t, false)| == |Outcomes(past, t)| - Trues(Outcomes(past, t))
  {
    if past == [] {
      assert Of(past, t, true) == {} && Of(past, t, false) == {};
    } else {
      var n := |past| - 1;
      OutcomesCounted(past[..n], t);
      OfSnoc(past, t, true);
      OfSnoc(past, t, false);
      var before := Outcomes(past[..n], t);
      if past[n].Execute? && past[n].t == t {
        assert Outcomes(past, t) == before + [past[n].ok];
        assert Outcomes(past, t)[..|before|] == before;
      } else {
        assert Outcomes(past, t) == before;
      }
    }
  }

  lemma OfSnoc(past: seq<Step>, t: nat, ok: bool)
    requires past != []
    ensures var n := |past| - 1;
      && (past[n] == Execute(t, ok) ==> |Of(past, t, ok)| == |Of(past[..n], t, ok)| + 1)
      && (past[n] != Execute(t, ok) ==> Of(past, t, ok) == Of(past[..n], t, ok))
  {
    var n := |past| - 1;
    if past[n] == Execute(t, ok) {
      assert Of(past, t, ok) == Of(past[..n], t, ok) + {n};
    }
  }

  /** completed and failed count the executions of the groups counted so far. */
  ghost predicate CountersHist(past: seq<Step>, s: State) {
    s.completed == |Executions(past, true)| && s.failed == |Executions(past, false)|
  }

  lemma CountersHistKept(cfg: Config, past: seq<Step>, s: State, step: Step)
    requires cfg.Ok() && Shape(cfg, s) && Enabled(cfg, s, step) && TasksHist(past, s) && CountersHist(past, s)
    ensures CountersHist(past + [step], Next(cfg, s, step))
  {
    hide TaskOk, BatchOk, Executions, TaskHist, NoHist;
    if step.Tally? {
      var t := step.t;
      TallyCounts(past, t, s.tasks[t], true);
      TallyCounts(past, t, s.tasks[t], false);
      OutcomesCounted(past, t);
      TallyAdds(cfg, past, s, t);
    } else {
      if step.Execute? {
        NotYetCounted(past, s.tasks[step.t], step.t);
      }
      SameExecutions(past, step, true);
      SameExecutions(past, step, false);
      SameCounters(cfg, s, step);
    }
  }

  lemma NotYetCounted(past: seq<Step>, x: Task, t: nat)
    requires TaskHist(past, t, x) && x.progress.Executing?
    ensures Tally(t) !in past
  {
  }

  lemma SameExecutions(past: seq<Step>, step: Step, ok: bool)
    requires !step.Tally? && (step.Execute? ==> Tally(step.t) !in past)
    ensures Executions(past + [step], ok) == Executions(past, ok)
  {
    var now := past + [step];
    assert forall i :: 0 <= i < |past| ==> now[i] == past[i];
    assert forall t :: Tally(t) in now <==> Tally(t) in past;
  }

  lemma SameCounters(cfg: Config, s: State, step: Step)
    requires cfg.Ok() && Enabled(cfg, s, step) && !step.Tally?
    ensures Next(cfg, s, step).completed == s.completed && Next(cfg, s, step).failed == s.failed
  {
    hide Groups, Config.Key, Config.Queue, QueueOf, Trues, Pairs, FailedOne, Blocked;
  }

  /** Counting a group adds its executions. */
  lemma TallyCounts(past: seq<Step>, t: nat, x: Task, ok: bool)
    requires TaskHist(past, t, x) && x.progress.Executing?
    ensures |Executions(past + [Tally(t)], ok)| == |Executions(past, ok)| + |Of(past, t, ok)|
  {
    var now := past + [Tally(t)];
    assert forall i :: 0 <= i < |past| ==> now[i] == past[i];
    assert forall u :: Tally(u) in now <==> Tally(u) in past || u == t;
    assert Executions(now, ok) == Executions(past, ok) + Of(past, t, ok);
    assert Executions(past, ok) !! Of(past, t, ok);
  }

  lemma TallyAdds(cfg: Config, past: seq<Step>, s: State, t: nat)
    requires cfg.Ok() && Enabled(cfg, s, Tally(t)) && TaskHist(past, t, s.tasks[t])
    ensures Next(cfg, s, Tally(t)).completed == s.completed + Trues(Outcomes(past, t))
    ensures Next(cfg, s, Tally(t)).failed == s.failed + |Outcomes(past, t)| - Trues(Outcomes(past, t))
  {
    hide Outcomes, Trues;
  }

  // ---------- results ----------

  /** The assignment was handed back by group t for its k-th request, with the outcome of that request's execution. */
  ghost predicate Carried(past: seq<Step>, s: State, h: nat, w: Write, t: nat, k: nat) {
    && t < |s.tasks| && s.tasks[t].batch == h && Deliver(t) in past
    && k < |s.tasks[t].group| && k < |Outcomes(past, t)|
    && w == Write(s.tasks[t].group[k], Outcomes(past, t)[k])
  }

  /** No queue took a group with the index. */
  ghost predicate NeverQueued(s: State, h: nat, idx: nat) {
    forall t :: 0 <= t < |s.tasks| && s.tasks[t].batch == h ==> idx !in s.tasks[t].group
  }

  /** Where an assignment comes from. */
  ghost predicate Explained(past: seq<Step>, s: State, h: nat, w: Write) {
    (exists t, k :: Carried(past, s, h, w, t, k)) || (!w.ok && NeverQueued(s, h, w.idx))
  }

  ghost predicate ResultsHist(past: seq<Step>, s: State, h: nat)
    requires h < |s.batches|
  {
    forall w :: w in s.batches[h].handle.written ==> Explained(past, s, h, w)
  }

  /** Everything a group that handed back its results has executed is in its batch's handle. */
  ghost predicate GroupHist(past: seq<Step>, s: State, t: nat)
    requires t < |s.tasks|
  {
    && s.tasks[t].batch < |s.batches| && |Outcomes(past, t)| == |s.tasks[t].group|
    && forall k :: 0 <= k < |s.tasks[t].group| ==>
         Write(s.tasks[t].group[k], Outcomes(past, t)[k]) in s.batches[s.tasks[t].batch].handle.written
  }

  /** What a step adds to the assignments of batch h. */
  ghost function Added(cfg: Config, s: State, step: Step, h: nat): seq<Write>
    requires cfg.Ok() && Enabled(cfg, s, step)
  {
    if step == SetFailed(h) then
      var b := s.batches[h];
      [Write(Gs(cfg, b)[b.phase.p][b.phase.j], false)]
    else if step.Deliver? && s.tasks[step.t].batch == h then
      Pairs(s.tasks[step.t].group, s.tasks[step.t].progress.oks)
    else []
  }

  lemma WrittenAfter(cfg: Config, s: State, step: Step, h: nat)
    requires cfg.Ok() && Enabled(cfg, s, step) && h < |s.batches|
    ensures h < |Next(cfg, s, step).batches|
    ensures Next(cfg, s, step).batches[h].handle.written == s.batches[h].handle.written + Added(cfg, s, step, h)
  {
    if OnBatch(s, step, h) {
      hide Groups, Config.Key, Config.Queue, QueueOf, Pairs, Trues, Blocked;
    } else {
      OtherBatch(cfg, s, step, h);
      hide Next, Groups, Blocked, Pairs;
    }
  }

  // ---------- results: what was explained stays explained ----------

  /** A group that handed back its results executes no more. */
  lemma HandedStays(cfg: Config, past: seq<Step>, s: State, step: Step, t: nat)
    requires cfg.Ok() && Shape(cfg, s) && Enabled(cfg, s, step) && TasksHist(past, s) && Deliver(t) in past
    ensures t < |s.tasks| && t < |Next(cfg, s, step).tasks|
    ensures Outcomes(past + [step], t) == Outcomes(past, t) && Deliver(t) in past + [step]
    ensures Next(cfg, s, step).tasks[t].batch == s.tasks[t].batch
    ensures Next(cfg, s, step).tasks[t].group == s.tasks[t].group
  {
    hide TaskOk, BatchOk, Outcomes;
    assert |s.tasks| <= t ==> NoHist(past, t);
    assert TaskHist(past, t, s.tasks[t]) && TaskOk(cfg, s, s.tasks[t]);
    OutcomesSnoc(past, step, t);
    assert step.Execute? ==> step.t != t by {
      hide Next, Groups, Blocked;
    }
    hide Enabled, Next;
    TaskAfter(cfg, s, step, t);
  }

  lemma CarriedStays(cfg: Config, past: seq<Step>, s: State, step: Step, h: nat, w: Write, t: nat, k: nat)
    requires cfg.Ok() && Shape(cfg, s) && Enabled(cfg, s, step) && TasksHist(past, s) && Carried(past, s, h, w, t, k)
    ensures Carried(past + [step], Next(cfg, s, step), h, w, t, k)
  {
    hide Next, Enabled, Shape, TasksHist;
    HandedStays(cfg, past, s, step, t);
  }

  /** An index that is set is in no group handed over later. */
  lemma NeverQueuedStays(cfg: Config, s: State, step: Step, h: nat, idx: nat)
    requires cfg.Ok() && Shape(cfg, s) && Enabled(cfg, s, step) && h < |s.batches| && Owns(cfg, s, h)
    requires idx in Done(s.batches[h].handle.written) && NeverQueued(s, h, idx)
    ensures NeverQueued(Next(cfg, s, step), h, idx)
  {
    hide Next, Enabled, TaskOk, BatchOk, Owns;
    var r := Next(cfg, s, step);
    TasksGrow(cfg, s, step);
    forall t | 0 <= t < |r.tasks| && r.tasks[t].batch == h
      ensures idx !in r.tasks[t].group
    {
      if t < |s.tasks| {
        assert TaskOk(cfg, s, s.tasks[t]);
        TaskAfter(cfg, s, step, t);
      } else {
        HandedIsOwed(cfg, s, h, t);
      }
    }
  }

  /** A group just handed over holds only indices that were not set. */
  lemma HandedIsOwed(cfg: Config, s: State, h: nat, t: nat)
    requires cfg.Ok() && Shape(cfg, s) && Enabled(cfg, s, Schedule(h)) && h < |s.batches| && Owns(cfg, s, h)
    requires |s.tasks| <= t < |Next(cfg, s, Schedule(h)).tasks|
    ensures forall idx :: idx in Done(s.batches[h].handle.written) ==>
      idx !in Next(cfg, s, Schedule(h)).tasks[t].group
  {
    hide Groups, QueueOf, HandleOk, TaskOk, Done, PhaseOwed, BatchOk;
    var b := s.batches[h];
    assert BatchOk(cfg, b);
    HandedOwed(cfg, b, b, 0);
    var g := Next(cfg, s, Schedule(h)).tasks[t].group;
    assert g == Gs(cfg, b)[b.phase.p];
    forall idx | idx in Done(b.handle.written)
      ensures idx !in g
    {
      assert idx in g ==> idx in Elements(g);
    }
  }

  lemma ExplainedStays(cfg: Config, past: seq<Step>, s: State, step: Step, h: nat, w: Write)
    requires cfg.Ok() && Shape(cfg, s) && Enabled(cfg, s, step) && TasksHist(past, s)
    requires h < |s.batches| && Owns(cfg, s, h) && w in s.batches[h].handle.written && Explained(past, s, h, w)
    ensures Explained(past + [step], Next(cfg, s, step), h, w)
  {
    hide Next, Enabled, Shape, TasksHist, Carried, NeverQueued, Owns;
    if t, k :| Carried(past, s, h, w, t, k) {
      CarriedStays(cfg, past, s, step, h, w, t, k);
    } else {
      IsDone(s.batches[h].handle.written, w);
      NeverQueuedStays(cfg, s, step, h, w.idx);
    }
  }

  lemma IsDone(ws: seq<Write>, w: Write)
    requires w in ws
    ensures w.idx in Done(ws)
  {
    var i :| 0 <= i < |ws| && ws[i] == w;
  }

  // ---------- results: new assignments are explained ----------

  /** The index a failing submitter sets is in no queued group. */
  lemma FailedNeverQueued(cfg: Config, past: seq<Step>, s: State, h: nat)
    requires cfg.Ok() && Shape(cfg, s) && FailingAt(cfg, s, h, Setting) && Owns(cfg, s, h) && TasksHist(past, s)
    requires forall t :: 0 <= t < |s.tasks| && Deliver(t) in past ==> GroupHist(past, s, t)
    ensures NeverQueued(s, h, Gs(cfg, s.batches[h])[s.batches[h].phase.p][s.batches[h].phase.j])
  {
    hide Groups, TaskOk, HandleOk, PhaseOwed, BatchOk, Outcomes;
    var b := s.batches[h];
    var x := Gs(cfg, b)[b.phase.p][b.phase.j];
    assert BatchOk(cfg, b);
    FailOwed(cfg, b);
    assert x in PhaseOwed(cfg, b);
    forall t | 0 <= t < |s.tasks| && s.tasks[t].batch == h
      ensures x !in s.tasks[t].group
    {
      NotInGroup(cfg, past, s, h, t, x);
    }
  }

  lemma NotInGroup(cfg: Config, past: seq<Step>, s: State, h: nat, t: nat, x: nat)
    requires cfg.Ok() && h < |s.batches| && Owns(cfg, s, h) && x in PhaseOwed(cfg, s.batches[h])
    requires t < |s.tasks| && s.tasks[t].batch == h && TaskHist(past, t, s.tasks[t])
    requires Deliver(t) in past ==> GroupHist(past, s, t)
    ensures x !in s.tasks[t].group
  {
    hide HandleOk, PhaseOwed, Outcomes, Groups;
    var g, b := s.tasks[t].group, s.batches[h];
    if HandedBack(s.tasks[t]) {
      forall k | 0 <= k < |g|
        ensures g[k] in Done(b.handle.written)
      {
        IsDone(b.handle.written, Write(g[k], Outcomes(past, t)[k]));
      }
    } else {
      assert Apart(TaskOwed(s.tasks[t]), Done(b.handle.written) + PhaseOwed(cfg, b), |b.items|);
      assert x !in Elements(g);
    }
  }

  /** What a group hands back are the outcomes of its executions. */
  lemma DeliveredCarried(cfg: Config, past: seq<Step>, s: State, t: nat, h: nat, k: nat)
    requires cfg.Ok() && Enabled(cfg, s, Deliver(t)) && TaskHist(past, t, s.tasks[t]) && h == s.tasks[t].batch
    requires TaskOk(cfg, s, s.tasks[t])
    requires k < |s.tasks[t].group|
    ensures Carried(past + [Deliver(t)], Next(cfg, s, Deliver(t)), h,
                    Write(s.tasks[t].group[k], s.tasks[t].progress.oks[k]), t, k)
  {
    OutcomesSnoc(past, Deliver(t), t);
    hide Outcomes, Groups, Pairs, Handle.SetMany, IsGroup;
  }

  lemma AddedExplained(cfg: Config, past: seq<Step>, s: State, step: Step, h: nat, w: Write)
    requires cfg.Ok() && Shape(cfg, s) && Enabled(cfg, s, step) && TasksHist(past, s)
    requires h < |s.batches| && Owns(cfg, s, h) && w in Added(cfg, s, step, h)
    requires forall t :: 0 <= t < |s.tasks| && Deliver(t) in past ==> GroupHist(past, s, t)
    ensures Explained(past + [step], Next(cfg, s, step), h, w)
  {
    hide Carried, NeverQueued, Owns, TaskOk, BatchOk, TaskHist, GroupHist, Groups, NoHist;
    if step == SetFailed(h) {
      FailedNeverQueued(cfg, past, s, h);
      FailedKeepsTasks(cfg, s, h, w.idx);
    } else {
      var t := step.t;
      var k :| 0 <= k < |s.tasks[t].group| && w == Pairs(s.tasks[t].group, s.tasks[t].progress.oks)[k];
      assert TaskHist(past, t, s.tasks[t]) && TaskOk(cfg, s, s.tasks[t]);
      DeliveredCarried(cfg, past, s, t, h, k);
    }
  }

  lemma FailedKeepsTasks(cfg: Config, s: State, h: nat, idx: nat)
    requires cfg.Ok() && Enabled(cfg, s, SetFailed(h)) && NeverQueued(s, h, idx)
    ensures NeverQueued(Next(cfg, s, SetFailed(h)), h, idx)
  {
    hide Groups, FailedOne;
  }

  // ---------- every step ----------

  /** What the steps taken say about the state. */
  ghost predicate Hist(past: seq<Step>, s: State) {
    && TasksHist(past, s) && CountersHist(past, s)
    && (forall h :: 0 <= h < |s.batches| ==> ResultsHist(past, s, h))
    && (forall t :: 0 <= t < |s.tasks| && Deliver(t) in past ==> GroupHist(past, s, t))
  }

  lemma ResultsHistKept(cfg: Config, past: seq<Step>, s: State, step: Step, h: nat)
    requires cfg.Ok() && Shape(cfg, s) && Delivery(cfg, s) && Enabled(cfg, s, step) && Hist(past, s)
    requires h < |Next(cfg, s, step).batches|
    ensures ResultsHist(past + [step], Next(cfg, s, step), h)
  {
    hide Next, Enabled, Shape, Owns, TasksHist, CountersHist, GroupHist, Explained, Added;
    if h < |s.batches| {
      assert Owns(cfg, s, h) && ResultsHist(past, s, h);
      WrittenAfter(cfg, s, step, h);
      forall w | w in Next(cfg, s, step).batches[h].handle.written
        ensures Explained(past + [step], Next(cfg, s, step), h, w)
      {
        if w in s.batches[h].handle.written {
          ExplainedStays(cfg, past, s, step, h, w);
        } else {
          AddedExplained(cfg, past, s, step, h, w);
        }
      }
    } else {
      NewBatch(cfg, s, step, h);
    }
  }

  lemma GroupHistKept(cfg: Config, past: seq<Step>, s: State, step: Step, t: nat)
    requires cfg.Ok() && Shape(cfg, s) && Enabled(cfg, s, step) && TasksHist(past, s)
    requires t < |Next(cfg, s, step).tasks| && Deliver(t) in past + [step]
    requires Deliver(t) in past ==> t < |s.tasks| && GroupHist(past, s, t)
    ensures GroupHist(past + [step], Next(cfg, s, step), t)
  {
    hide Shape, TasksHist, Outcomes, Added;
    if Deliver(t) in past {
      HandedStays(cfg, past, s, step, t);
      WrittenAfter(cfg, s, step, s.tasks[t].batch);
      hide Next, Enabled;
    } else {
      hide Next;
      GroupJustDelivered(cfg, past, s, t);
    }
  }

  lemma GroupJustDelivered(cfg: Config, past: seq<Step>, s: State, t: nat)
    requires cfg.Ok() && Shape(cfg, s) && Enabled(cfg, s, Deliver(t)) && TasksHist(past, s)
    ensures t < |Next(cfg, s, Deliver(t)).tasks|
    ensures GroupHist(past + [Deliver(t)], Next(cfg, s, Deliver(t)), t)
  {
    hide TaskOk, BatchOk, Outcomes, Groups;
    var x, r := s.tasks[t], Next(cfg, s, Deliver(t));
    assert TaskOk(cfg, s, x) && TaskHist(past, t, x);
    OutcomesSnoc(past, Deliver(t), t);
    var ws := Pairs(x.group, x.progress.oks);
    WrittenAfter(cfg, s, Deliver(t), x.batch);
    hide Handle.SetMany, Pairs;
    forall k | 0 <= k < |x.group|
      ensures Write(x.group[k], Outcomes(past + [Deliver(t)], t)[k]) in r.batches[x.batch].handle.written
    {
      assert ws[k] in s.batches[x.batch].handle.written + ws;
    }
  }

  lemma HistKept(cfg: Config, past: seq<Step>, s: State, step: Step)
    requires cfg.Ok() && Inv(cfg, s) && Enabled(cfg, s, step) && Hist(past, s)
    ensures Hist(past + [step], Next(cfg, s, step))
  {
    hide Next, Enabled, Shape, Delivery, TasksHist, CountersHist, GroupHist, ResultsHist;
    TasksHistKept(cfg, past, s, step);
    CountersHistKept(cfg, past, s, step);
    forall h | 0 <= h < |Next(cfg, s, step).batches|
      ensures ResultsHist(past + [step], Next(cfg, s, step), h)
    {
      ResultsHistKept(cfg, past, s, step, h);
    }
    forall t | 0 <= t < |Next(cfg, s, step).tasks| && Deliver(t) in past + [step]
      ensures GroupHist(past + [step], Next(cfg, s, step), t)
    {
      if Deliver(t) in past {
        HandedStays(cfg, past, s, step, t);
      }
      GroupHistKept(cfg, past, s, step, t);
    }
  }

  lemma {:induction false} RunHist(cfg: Config, past: seq<Step>, s: State, steps: seq<Step>, r: State)
    requires cfg.Ok() && Inv(cfg, s) && Hist(past, s) && Reaches(cfg, s, steps, r)
    ensures Hist(past + steps, r)
    decreases |steps|
  {
    hide Next, Enabled, Inv, Hist;
    if steps == [] {
      assert past + steps == past;
    } else {
      HistKept(cfg, past, s, steps[0]);
      StepKeeps(cfg, s, steps[0]);
      RunHist(cfg, past + [steps[0]], Next(cfg, s, steps[0]), steps[1..], r);
      assert past + [steps[0]] + steps[1..] == past + steps;
    }
  }

  lemma InitialHist(cfg: Config)
    requires cfg.Ok()
    ensures Hist([], Initial(cfg))
  {
    assert Executions([], true) == {} && Executions([], false) == {};
  }

  /**
    Results over every run from a new engine. Each assignment to a handle carries the outcome of the execution of that
    very request, or is the failure of a request whose group no queue took; every group that handed back its results
    has all its outcomes in its batch's handle; and completed and failed count the successful and the failed executions
    of the groups counted so far.
   */
  lemma ResultsAreOutcomes(cfg: Config, steps: seq<Step>, s: State)
    requires cfg.Ok() && Reaches(cfg, Initial(cfg), steps, s)
    ensures forall h, w :: 0 <= h < |s.batches| && w in s.batches[h].handle.written ==> Explained(steps, s, h, w)
    ensures forall t :: 0 <= t < |s.tasks| && Deliver(t) in steps ==> GroupHist(steps, s, t)
    ensures s.completed == |set i | 0 <= i < |steps| && steps[i].Execute? && steps[i].ok && Tally(steps[i].t) in steps|
    ensures s.failed == |set i | 0 <= i < |steps| && steps[i].Execute? && !steps[i].ok && Tally(steps[i].t) in steps|
  {
    hide Reaches, Inv, Explained, GroupHist, TasksHist;
    InitialInv(cfg);
    InitialHist(cfg);
    RunHist(cfg, [], Initial(cfg), steps, s);
    assert [] + steps == steps;
    assert Executions(steps, true) ==
      set i | 0 <= i < |steps| && steps[i].Execute? && steps[i].ok && Tally(steps[i].t) in steps;
    assert Executions(steps, false) ==
      set i | 0 <= i < |steps| && steps[i].Execute? && !steps[i].ok && Tally(steps[i].t) in steps;
    forall h, w | 0 <= h < |s.batches| && w in s.batches[h].handle.written
      ensures Explained(steps, s, h, w)
    {
      assert ResultsHist(steps, s, h);
    }
  }

  // ---------- the end of a run ----------

  /** An execution shows among the outcomes of its group. */
  lemma ExecutionShows(past: seq<Step>, i: nat)
    requires i < |past| && past[i].Execute?
    ensures Outcomes(past, past[i].t) != []
  {
    var t, ok := past[i].t, past[i].ok;
    OutcomesCounted(past, t);
    assert i in Of(past, t, ok);
  }

  /** When every group is finished, every execution has been counted. */
  lemma AllCounted(past: seq<Step>, s: State, i: nat)
    requires TasksHist(past, s) && Quiet(s) && i < |past| && past[i].Execute?
    ensures Tally(past[i].t) in past
  {
    hide Outcomes;
    ExecutionShows(past, i);
    var t := past[i].t;
    assert |s.tasks| <= t ==> NoHist(past, t);
    assert TaskHist(past, t, s.tasks[t]);
  }

  /**
    Once nothing is left to do: each index of each batch is set exactly once, to the outcome of the execution of its
    request, or to failure if no queue took its group; and every execution of the run is counted in completed or
    failed, by its outcome.
   */
  lemma QuietResults(cfg: Config, steps: seq<Step>, s: State)
    requires cfg.Ok() && Reaches(cfg, Initial(cfg), steps, s) && Quiet(s)
    ensures forall h :: 0 <= h < |s.batches| ==> Complete(s.batches[h])
    ensures forall t :: 0 <= t < |s.tasks| ==> GroupHist(steps, s, t)
    ensures forall h, idx :: 0 <= h < |s.batches| && 0 <= idx < |s.batches[h].items| && NeverQueued(s, h, idx) ==>
      Write(idx, false) in s.batches[h].handle.written
    ensures s.completed == |set i | 0 <= i < |steps| && steps[i].Execute? && steps[i].ok|
    ensures s.failed == |set i | 0 <= i < |steps| && steps[i].Execute? && !steps[i].ok|
  {
    hide Reaches, Inv, Complete, GroupHist, TaskHist, NeverQueued;
    InitialInv(cfg);
    EngineRuns.RunKeeps(cfg, Initial(cfg), steps, s);
    QuietMeansDone(cfg, s);
    InitialHist(cfg);
    RunHist(cfg, [], Initial(cfg), steps, s);
    assert [] + steps == steps;
    QuietCounters(steps, s);
    forall t | 0 <= t < |s.tasks|
      ensures GroupHist(steps, s, t)
    {
      FinishedDelivered(steps, s, t);
    }
    forall h, idx | 0 <= h < |s.batches| && 0 <= idx < |s.batches[h].items| && NeverQueued(s, h, idx)
      ensures Write(idx, false) in s.batches[h].handle.written
    {
      UnqueuedFailed(steps, s, h, idx);
    }
  }

  lemma FinishedDelivered(steps: seq<Step>, s: State, t: nat)
    requires Hist(steps, s) && t < |s.tasks| && s.tasks[t].progress.Finished?
    ensures GroupHist(steps, s, t)
  {
    hide GroupHist, ResultsHist, CountersHist, Outcomes;
    assert TaskHist(steps, t, s.tasks[t]);
  }

  lemma UnqueuedFailed(steps: seq<Step>, s: State, h: nat, idx: nat)
    requires Hist(steps, s) && h < |s.batches| && Complete(s.batches[h]) && idx < |s.batches[h].items|
    requires NeverQueued(s, h, idx)
    ensures Write(idx, false) in s.batches[h].handle.written
  {
    hide GroupHist, CountersHist, TasksHist, Outcomes;
    var ws := s.batches[h].handle.written;
    assert idx in Done(ws);
    var i :| 0 <= i < |ws| && ws[i].idx == idx;
    assert ResultsHist(steps, s, h) && ws[i] in ws;
    assert Explained(steps, s, h, ws[i]);
  }

  lemma QuietCounters(steps: seq<Step>, s: State)
    requires Hist(steps, s) && Quiet(s)
    ensures s.completed == |set i | 0 <= i < |steps| && steps[i].Execute? && steps[i].ok|
    ensures s.failed == |set i | 0 <= i < |steps| && steps[i].Execute? && !steps[i].ok|
  {
    hide TasksHist, ResultsHist, GroupHist, Quiet;
    forall i | 0 <= i < |steps| && steps[i].Execute?
      ensures Tally(steps[i].t) in steps
    {
      AllCounted(steps, s, i);
    }
    assert Executions(steps, true) == set i | 0 <= i < |steps| && steps[i].Execute? && steps[i].ok;
    assert Executions(steps, false) == set i | 0 <= i < |steps| && steps[i].Execute? && !steps[i].ok;
  }
}
