/** Results and callbacks of the I/O engine: every index is set exactly once, every callback runs exactly once. */
module EngineHandles {
  import opened Engine
  import opened Finite
  import opened Grouping

  // ---------- who still owes which index ----------

  /** Indices a submitter has not handed over or failed yet. */
  ghost function PhaseOwed(cfg: Config, b: Batch): set<nat>
    requires cfg.Ok()
  {
    if !BatchOk(cfg, b) then {}
    else match b.phase
      case Acquiring(_, _) => Below(|b.items|)
      case Scheduling(p) => OwedFrom(Gs(cfg, b), p)
      case Failing(p, j, _) => Elements(Gs(cfg, b)[p][j..]) + OwedFrom(Gs(cfg, b), p + 1)
      case Returned => {}
  }

  ghost function TaskOwed(t: Task): set<nat> {
    if t.progress.Finished? || t.progress.Calling? then {} else Elements(t.group)
  }

  ghost function Done(ws: seq<Write>): set<nat> {
    set i | 0 <= i < |ws| :: ws[i].idx
  }

  ghost predicate Once(ws: seq<Write>) {
    forall i, j :: 0 <= i < j < |ws| ==> ws[i].idx != ws[j].idx
  }

  ghost predicate OwedByTask(tasks: seq<Task>, h: nat, i: nat) {
    exists t :: 0 <= t < |tasks| && tasks[t].batch == h && i in TaskOwed(tasks[t])
  }

  /** The n indices of batch h are split between those done, those its submitter owes and those its tasks owe. */
  ghost predicate Split(n: nat, done: set<nat>, owed: set<nat>, tasks: seq<Task>, h: nat) {
    && done !! owed && done + owed <= Below(n)
    && (forall t :: 0 <= t < |tasks| && tasks[t].batch == h ==> Apart(TaskOwed(tasks[t]), done + owed, n))
    && (forall t, u :: 0 <= t < u < |tasks| && tasks[t].batch == h && tasks[u].batch == h ==>
         TaskOwed(tasks[t]) !! TaskOwed(tasks[u]))
    && (forall i :: 0 <= i < n && i !in done + owed ==> OwedByTask(tasks, h, i))
  }

  ghost predicate Apart(a: set<nat>, b: set<nat>, n: nat) {
    a !! b && a <= Below(n)
  }

  /** Tasks of batch h owe the same as before. */
  ghost predicate SameOwed(tasks: seq<Task>, after: seq<Task>, h: nat) {
    && |tasks| <= |after| && (forall t :: |tasks| <= t < |after| ==> after[t].batch != h)
    && (forall t :: 0 <= t < |tasks| ==> after[t].batch == tasks[t].batch)
    && (forall t :: 0 <= t < |tasks| && tasks[t].batch == h ==> TaskOwed(after[t]) == TaskOwed(tasks[t]))
  }

  lemma SplitSame(n: nat, done: set<nat>, owed: set<nat>, tasks: seq<Task>, after: seq<Task>, h: nat)
    requires Split(n, done, owed, tasks, h) && SameOwed(tasks, after, h)
    ensures Split(n, done, owed, after, h)
  {
    hide TaskOwed;
    forall i | 0 <= i < n && i !in done + owed
      ensures OwedByTask(after, h, i)
    {
      assert OwedByTask(tasks, h, i);
      var t :| 0 <= t < |tasks| && tasks[t].batch == h && i in TaskOwed(tasks[t]);
      assert after[t].batch == h && i in TaskOwed(after[t]);
    }
  }

  /** The submitter hands a group over. */
  lemma SplitHand(n: nat, done: set<nat>, owed: set<nat>, tasks: seq<Task>, h: nat, t: Task)
    requires Split(n, done, owed + TaskOwed(t), tasks, h) && t.batch == h && owed !! TaskOwed(t)
    ensures Split(n, done, owed, tasks + [t], h)
  {
    hide TaskOwed;
    var after := tasks + [t];
    forall i | 0 <= i < n && i !in done + owed
      ensures OwedByTask(after, h, i)
    {
      if i in TaskOwed(t) {
        assert after[|tasks|] == t;
      } else {
        assert OwedByTask(tasks, h, i);
        var u :| 0 <= u < |tasks| && tasks[u].batch == h && i in TaskOwed(tasks[u]);
        assert after[u] == tasks[u];
      }
    }
    forall u | 0 <= u < |after| && after[u].batch == h
      ensures Apart(TaskOwed(after[u]), done + owed, n)
    {
      assert u < |tasks| ==> Apart(TaskOwed(tasks[u]), done + (owed + TaskOwed(t)), n);
    }
    forall u, v | 0 <= u < v < |after| && after[u].batch == h && after[v].batch == h
      ensures TaskOwed(after[u]) !! TaskOwed(after[v])
    {
      assert Apart(TaskOwed(tasks[u]), done + (owed + TaskOwed(t)), n);
    }
  }

  /** The submitter sets an index it owes. */
  lemma SplitFail(n: nat, done: set<nat>, owed: set<nat>, tasks: seq<Task>, h: nat, x: nat)
    requires Split(n, done, owed + {x}, tasks, h) && x !in owed
    ensures Split(n, done + {x}, owed, tasks, h) && x !in done && x < n
  {
    assert done + {x} + owed == done + (owed + {x});
    assert x in done + (owed + {x});
  }

  /** A task delivers everything it owes. */
  lemma SplitDeliver(n: nat, done: set<nat>, owed: set<nat>, tasks: seq<Task>, h: nat, t: nat, progress: Progress)
    requires Split(n, done, owed, tasks, h) && t < |tasks| && tasks[t].batch == h && tasks[t].progress.Releasing?
    requires progress.Finished? || progress.Calling?
    ensures Split(n, done + Elements(tasks[t].group), owed, tasks[t := tasks[t].(progress := progress)], h)
    ensures Apart(Elements(tasks[t].group), done + owed, n)
  {
    var after, all := tasks[t := tasks[t].(progress := progress)], Elements(tasks[t].group);
    assert TaskOwed(tasks[t]) == all && TaskOwed(after[t]) == {};
    assert forall u :: 0 <= u < |tasks| ==> after[u].batch == tasks[u].batch && (u != t ==> after[u] == tasks[u]);
    hide TaskOwed;
    assert Apart(all, done + owed, n);
    forall i | 0 <= i < n && i !in done + all + owed
      ensures OwedByTask(after, h, i)
    {
      assert OwedByTask(tasks, h, i);
      var u :| 0 <= u < |tasks| && tasks[u].batch == h && i in TaskOwed(tasks[u]);
      assert after[u].batch == h && i in TaskOwed(after[u]);
    }
    forall u | 0 <= u < |after| && after[u].batch == h
      ensures Apart(TaskOwed(after[u]), done + all + owed, n)
    {
      assert u != t ==> Apart(TaskOwed(tasks[u]), done + owed, n);
      assert u < t ==> TaskOwed(tasks[u]) !! TaskOwed(tasks[t]);
      assert t < u ==> TaskOwed(tasks[t]) !! TaskOwed(tasks[u]);
    }
  }

  // ---------- one handle ----------

  /**
    Assignments are distinct and counted; before completion callbacks wait, after it each has run or is about to,
    once.
   */
  ghost predicate HandleOk(hd: Handle, n: nat) {
    && Once(hd.written) && hd.remaining == n - |hd.written|
    && (hd.remaining > 0 ==>
         hd.waiting == multiset(Below(hd.regs)) && hd.calls == multiset{} && hd.toRun == multiset{} &&
         hd.ran == multiset{})
    && (hd.remaining <= 0 ==> hd.ran + hd.toRun + hd.calls == multiset(Below(hd.regs)))
  }

  lemma BelowNext(n: nat)
    ensures multiset(Below(n + 1)) == multiset(Below(n)) + multiset{n}
  {
    assert Below(n + 1) == Below(n) + {n};
  }

  lemma AddKeeps(hd: Handle, n: nat)
    requires HandleOk(hd, n)
    ensures HandleOk(hd.AddCallback(), n) && hd.AddCallback().written == hd.written
  {
    BelowNext(hd.regs);
  }

  lemma RunKeeps(hd: Handle, n: nat, id: nat)
    requires HandleOk(hd, n) && id in hd.toRun
    ensures HandleOk(hd.RunCallback(id), n) && hd.RunCallback(id).written == hd.written
  {
    assert hd.toRun == hd.toRun - multiset{id} + multiset{id};
  }

  lemma CalledKeeps(hd: Handle, n: nat, id: nat)
    requires HandleOk(hd, n) && id in hd.calls
    ensures HandleOk(hd.Called(id), n) && hd.Called(id).written == hd.written
  {
    assert hd.calls == hd.calls - multiset{id} + multiset{id};
  }

  lemma SetKeeps(hd: Handle, n: nat, ws: seq<Write>)
    requires HandleOk(hd, n) && hd.remaining > 0 && Once(hd.written + ws)
    ensures HandleOk(hd.SetMany(ws), n)
  {
  }

  lemma DoneCard(ws: seq<Write>)
    requires Once(ws)
    ensures |Done(ws)| == |ws|
  {
    var idx := seq(|ws|, i requires 0 <= i < |ws| => ws[i].idx);
    NoDuplicatesCard(idx);
    assert forall i :: 0 <= i < |ws| ==> idx[i] == ws[i].idx;
    assert Elements(idx) == Done(ws);
  }

  /** While an index is owed the handle is not complete. */
  lemma OwedMeansRemaining(hd: Handle, n: nat, x: nat)
    requires HandleOk(hd, n) && Done(hd.written) <= Below(n) && x < n && x !in Done(hd.written)
    ensures hd.remaining > 0
  {
    DoneCard(hd.written);
    SubsetCard(Done(hd.written) + {x}, Below(n));
  }

  lemma DoneAppend(a: seq<Write>, b: seq<Write>)
    requires Once(a) && Once(b) && Done(a) !! Done(b)
    ensures Once(a + b) && Done(a + b) == Done(a) + Done(b)
  {
    var c := a + b;
    forall i | 0 <= i < |c|
      ensures c[i].idx in if i < |a| then Done(a) else Done(b)
    {
      assert c[i] == if i < |a| then a[i] else b[i - |a|];
    }
    assert forall i :: 0 <= i < |a| ==> c[i] == a[i];
    assert forall i :: 0 <= i < |b| ==> c[|a| + i] == b[i];
    forall i, j | 0 <= i < j < |c|
      ensures c[i].idx != c[j].idx
    {
      if i >= |a| {
        assert c[i] == b[i - |a|] && c[j] == b[j - |a|];
      } else if j >= |a| {
        assert c[i].idx in Done(a) && c[j].idx in Done(b);
      }
    }
  }

  // ---------- every step ----------

  ghost predicate Owns(cfg: Config, s: State, h: nat)
    requires cfg.Ok() && h < |s.batches|
  {
    var b := s.batches[h];
    HandleOk(b.handle, |b.items|) && Split(|b.items|, Done(b.handle.written), PhaseOwed(cfg, b), s.tasks, h)
  }

  ghost predicate Delivery(cfg: Config, s: State)
    requires cfg.Ok()
  {
    forall h :: 0 <= h < |s.batches| ==> Owns(cfg, s, h)
  }

  /** The step moves what batch h owes. */
  ghost predicate Touches(s: State, step: Step, h: nat) {
    match step
    case Schedule(g) => g == h
    case SetFailed(g) => g == h
    case Deliver(t) => t < |s.tasks| && s.tasks[t].batch == h
    case _ => false
  }

  lemma TasksFrame(cfg: Config, s: State, step: Step, h: nat)
    requires cfg.Ok() && Enabled(cfg, s, step) && !Touches(s, step, h)
    ensures SameOwed(s.tasks, Next(cfg, s, step).tasks, h)
  {
    TasksGrow(cfg, s, step);
    hide Next, Groups, Elements;
    forall t | 0 <= t < |s.tasks|
      ensures Next(cfg, s, step).tasks[t].batch == s.tasks[t].batch
      ensures s.tasks[t].batch == h ==> TaskOwed(Next(cfg, s, step).tasks[t]) == TaskOwed(s.tasks[t])
    {
      OwedStays(cfg, s, step, t);
    }
  }

  lemma OwedStays(cfg: Config, s: State, step: Step, t: nat)
    requires cfg.Ok() && Enabled(cfg, s, step) && t < |s.tasks|
    ensures t < |Next(cfg, s, step).tasks| && Next(cfg, s, step).tasks[t].batch == s.tasks[t].batch
    ensures !(step.Deliver? && step.t == t) ==> TaskOwed(Next(cfg, s, step).tasks[t]) == TaskOwed(s.tasks[t])
  {
    if OnTask(step, t) {
      hide Groups, Trues, Pairs, Blocked, Handle.SetMany, Elements;
    } else {
      OtherTask(cfg, s, step, t);
      hide Next, Enabled;
    }
  }

  /** Only scheduling adds a group, to its own batch. */
  lemma TasksGrow(cfg: Config, s: State, step: Step)
    requires cfg.Ok() && Enabled(cfg, s, step)
    ensures |s.tasks| <= |Next(cfg, s, step).tasks|
    ensures |s.tasks| < |Next(cfg, s, step).tasks| ==> step.Schedule?
    ensures forall t :: |s.tasks| <= t < |Next(cfg, s, step).tasks| ==> Next(cfg, s, step).tasks[t].batch == step.h
  {
    hide Groups, Config.Key, Config.Queue, QueueOf, Trues, Pairs, FailedOne, Blocked;
  }

  lemma BatchFrame(cfg: Config, s: State, step: Step, h: nat)
    requires cfg.Ok() && Shape(cfg, s) && Enabled(cfg, s, step) && !Touches(s, step, h) && h < |s.batches|
    ensures h < |Next(cfg, s, step).batches|
    ensures var b, c := s.batches[h], Next(cfg, s, step).batches[h];
      && c.items == b.items && PhaseOwed(cfg, c) == PhaseOwed(cfg, b)
      && (c.handle == b.handle || c.handle == b.handle.AddCallback() ||
          (step.RunCallback? && step.id in b.handle.toRun && c.handle == b.handle.RunCallback(step.id)) ||
          (step.Call? && step.id in b.handle.calls && c.handle == b.handle.Called(step.id)))
  {
    hide Next, Enabled, Groups, PhaseOwed;
    ItemsKept(cfg, s, step, h);
    HandleFrame(cfg, s, step, h);
    OwedFrame(cfg, s, step, h);
  }

  lemma HandleFrame(cfg: Config, s: State, step: Step, h: nat)
    requires cfg.Ok() && Enabled(cfg, s, step) && !Touches(s, step, h) && h < |s.batches|
    ensures h < |Next(cfg, s, step).batches|
    ensures var b, c := s.batches[h], Next(cfg, s, step).batches[h];
      || c.handle == b.handle || c.handle == b.handle.AddCallback()
      || (step.RunCallback? && step.id in b.handle.toRun && c.handle == b.handle.RunCallback(step.id))
      || (step.Call? && step.id in b.handle.calls && c.handle == b.handle.Called(step.id))
  {
    if OnBatch(s, step, h) {
      hide Groups, Config.Key, Config.Queue, QueueOf, Handle.SetMany, Handle.AddCallback, Handle.RunCallback,
        Handle.Called, Pairs, Blocked;
    } else {
      OtherBatch(cfg, s, step, h);
      hide Next, Enabled;
    }
  }

  /** Phases between which what the submitter owes does not change. */
  ghost predicate SameShare(cfg: Config, b: Batch, c: Batch)
    requires cfg.Ok()
  {
    && c.items == b.items
    && (|| c.phase == b.phase || (b.phase.Acquiring? && (c.phase.Acquiring? || c.phase == Scheduling(0)))
        || (b.phase.Failing? && c.phase.Failing? && c.phase.p == b.phase.p && c.phase.j == b.phase.j)
        || (b.phase == Scheduling(|Gs(cfg, b)|) && c.phase.Returned?))
  }

  lemma PhaseFrame(cfg: Config, s: State, step: Step, h: nat)
    requires cfg.Ok() && Enabled(cfg, s, step) && !Touches(s, step, h) && h < |s.batches|
    ensures h < |Next(cfg, s, step).batches| && SameShare(cfg, s.batches[h], Next(cfg, s, step).batches[h])
  {
    if OnBatch(s, step, h) {
      hide Groups, Config.Key, Config.Queue, QueueOf, Handle.SetMany, Handle.AddCallback, Pairs, Trues, Blocked;
    } else {
      OtherBatch(cfg, s, step, h);
      hide Next, Enabled;
    }
  }

  lemma OwedFrame(cfg: Config, s: State, step: Step, h: nat)
    requires cfg.Ok() && Shape(cfg, s) && Enabled(cfg, s, step) && !Touches(s, step, h) && h < |s.batches|
    ensures h < |Next(cfg, s, step).batches|
    ensures PhaseOwed(cfg, Next(cfg, s, step).batches[h]) == PhaseOwed(cfg, s.batches[h])
  {
    hide Next, Enabled, Groups, PhaseOwed, BatchOk, TaskOk;
    PhaseFrame(cfg, s, step, h);
    BatchOkKept(cfg, s, step, h);
    ShareOwed(cfg, s.batches[h], Next(cfg, s, step).batches[h]);
  }

  lemma ShareOwed(cfg: Config, b: Batch, c: Batch)
    requires cfg.Ok() && BatchOk(cfg, b) && BatchOk(cfg, c) && SameShare(cfg, b, c)
    ensures PhaseOwed(cfg, b) == PhaseOwed(cfg, c)
  {
    hide Groups;
    OwedAll(cfg, b.items);
  }

  lemma OwnsFrame(cfg: Config, s: State, step: Step, h: nat)
    requires cfg.Ok() && Shape(cfg, s) && Enabled(cfg, s, step) && !Touches(s, step, h) && h < |s.batches|
    requires Owns(cfg, s, h)
    ensures h < |Next(cfg, s, step).batches| && Owns(cfg, Next(cfg, s, step), h)
  {
    hide Next, Split, PhaseOwed, HandleOk, Enabled, Shape, Touches, Done;
    BatchFrame(cfg, s, step, h);
    TasksFrame(cfg, s, step, h);
    var b, r := s.batches[h], Next(cfg, s, step);
    var n, c := |b.items|, r.batches[h];
    SplitSame(n, Done(b.handle.written), PhaseOwed(cfg, b), s.tasks, r.tasks, h);
    AddKeeps(b.handle, n);
    if step.RunCallback? && step.id in b.handle.toRun {
      RunKeeps(b.handle, n, step.id);
    }
    if step.Call? && step.id in b.handle.calls {
      CalledKeeps(b.handle, n, step.id);
    }
  }

  lemma OwnsNew(cfg: Config, s: State, items: seq<nat>, origin: Origin)
    requires cfg.Ok() && Shape(cfg, s) && Enabled(cfg, s, Submit(items, origin))
    ensures Owns(cfg, Next(cfg, s, Submit(items, origin)), |s.batches|)
  {
    hide Groups;
    var h := |s.batches|;
    assert forall t :: 0 <= t < |s.tasks| ==> TaskOk(cfg, s, s.tasks[t]);
    assert forall t :: 0 <= t < |s.tasks| ==> s.tasks[t].batch != h;
    assert multiset(Below(0)) == multiset{};
  }

  lemma OwnsSchedule(cfg: Config, s: State, h: nat)
    requires cfg.Ok() && h < |s.batches| && Shape(cfg, s) && Enabled(cfg, s, Schedule(h)) && Owns(cfg, s, h)
    ensures h < |Next(cfg, s, Schedule(h)).batches| && Owns(cfg, Next(cfg, s, Schedule(h)), h)
  {
    hide Groups, QueueOf, Split, HandleOk, PhaseOwed, TaskOwed;
    var b, p, r := s.batches[h], s.batches[h].phase.p, Next(cfg, s, Schedule(h));
    assert BatchOk(cfg, b);
    HandedOwed(cfg, b, r.batches[h], QueueOf(cfg, b, p));
    if QueueOf(cfg, b, p) !in s.shut {
      var t := Task(h, Gs(cfg, b)[p], QueueOf(cfg, b, p), Queued);
      OwedQueued(t);
      SplitHand(|b.items|, Done(b.handle.written), OwedFrom(Gs(cfg, b), p + 1), s.tasks, h, t);
    }
  }

  lemma OwedQueued(t: Task)
    requires t.progress.Queued?
    ensures TaskOwed(t) == Elements(t.group)
  {
  }

  /** What a submitter owes before and after it hands a group over, or starts failing it. */
  lemma HandedOwed(cfg: Config, b: Batch, c: Batch, q: nat)
    requires cfg.Ok() && BatchOk(cfg, b) && b.phase.Scheduling? && b.phase.p < |Gs(cfg, b)| && c.items == b.items
    ensures var p := b.phase.p;
      && PhaseOwed(cfg, b) == OwedFrom(Gs(cfg, b), p + 1) + Elements(Gs(cfg, b)[p])
      && OwedFrom(Gs(cfg, b), p + 1) !! Elements(Gs(cfg, b)[p])
      && (c.phase == Failing(p, 0, GivingBack) ==> PhaseOwed(cfg, c) == PhaseOwed(cfg, b))
      && (c.phase == Scheduling(p + 1) ==> PhaseOwed(cfg, c) == OwedFrom(Gs(cfg, b), p + 1))
  {
    hide Groups;
    var p := b.phase.p;
    GroupNonempty(cfg, b, p);
    GroupsOf(cfg, b, p);
    assert Gs(cfg, c) == Gs(cfg, b);
    assert Gs(cfg, b)[p][0..] == Gs(cfg, b)[p];
  }

  lemma GroupsOf(cfg: Config, b: Batch, p: nat)
    requires cfg.Ok() && p < |Gs(cfg, b)|
    ensures Elements(Gs(cfg, b)[p]) !! OwedFrom(Gs(cfg, b), p + 1) && NoDuplicates(Gs(cfg, b)[p])
  {
    GroupApart(Gs(cfg, b), cfg, b.items, |b.items|, p);
  }

  /** What a failing group owes once request j is set. */
  lemma FailOwed(cfg: Config, b: Batch)
    requires cfg.Ok() && BatchOk(cfg, b) && b.phase.Failing?
    ensures var gs, p, j := Gs(cfg, b), b.phase.p, b.phase.j;
      var c := b.(phase := AfterFailed(gs, p, j));
      && PhaseOwed(cfg, b) == PhaseOwed(cfg, c) + {gs[p][j]} && gs[p][j] !in PhaseOwed(cfg, c)
  {
    hide Groups;
    var gs, p, j := Gs(cfg, b), b.phase.p, b.phase.j;
    GroupsOf(cfg, b, p);
    assert Gs(cfg, b.(phase := AfterFailed(gs, p, j))) == gs;
    hide Elements;
    SuffixElements(gs[p], j, OwedFrom(gs, p + 1));
  }

  lemma SuffixElements(g: seq<nat>, j: nat, later: set<nat>)
    requires j < |g| && NoDuplicates(g) && Elements(g) !! later
    ensures Elements(g[j..]) == {g[j]} + Elements(g[j + 1..]) && g[j] !in Elements(g[j + 1..]) && g[j] !in later
    ensures j + 1 == |g| ==> Elements(g[j + 1..]) == {}
  {
    assert g[j..] == [g[j]] + g[j + 1..];
    assert g[j] in Elements(g);
    var rest := g[j + 1..];
    assert forall i :: 0 <= i < |rest| ==> rest[i] == g[j + 1 + i];
  }

  lemma OwnsFailed(cfg: Config, s: State, h: nat)
    requires cfg.Ok() && h < |s.batches| && Shape(cfg, s) && Enabled(cfg, s, SetFailed(h)) && Owns(cfg, s, h)
    ensures h < |Next(cfg, s, SetFailed(h)).batches| && Owns(cfg, Next(cfg, s, SetFailed(h)), h)
  {
    hide Groups, Split, HandleOk, PhaseOwed, Done;
    var b, r := s.batches[h], Next(cfg, s, SetFailed(h));
    assert BatchOk(cfg, b);
    var gs, p, j := Gs(cfg, b), b.phase.p, b.phase.j;
    var x, c := gs[p][j], b.(phase := AfterFailed(gs, p, j));
    FailOwed(cfg, b);
    SplitFail(|b.items|, Done(b.handle.written), PhaseOwed(cfg, c), s.tasks, h, x);
    OwedSame(cfg, c, r.batches[h]);
    OneDone(x);
    SplitBounds(|b.items|, Done(b.handle.written), PhaseOwed(cfg, b), s.tasks, h);
    SetOwed(b.handle, |b.items|, [Write(x, false)], {x});
  }

  lemma OneDone(x: nat)
    ensures Done([Write(x, false)]) == {x} && Once([Write(x, false)])
  {
    assert [Write(x, false)][0].idx == x;
  }

  lemma OwedSame(cfg: Config, b: Batch, c: Batch)
    requires cfg.Ok() && b.items == c.items && b.phase == c.phase
    ensures PhaseOwed(cfg, b) == PhaseOwed(cfg, c)
  {
  }

  /** Setting distinct indices not set before keeps the handle in order. */
  lemma SetOwed(hd: Handle, n: nat, ws: seq<Write>, xs: set<nat>)
    requires HandleOk(hd, n) && ws != [] && Once(ws) && Done(ws) == xs && xs !! Done(hd.written) && xs <= Below(n)
    requires Done(hd.written) <= Below(n)
    ensures HandleOk(hd.SetMany(ws), n) && Done(hd.SetMany(ws).written) == Done(hd.written) + xs
  {
    assert ws[0].idx in Done(ws);
    OwedMeansRemaining(hd, n, ws[0].idx);
    DoneAppend(hd.written, ws);
    SetKeeps(hd, n, ws);
  }

  lemma OwnsDeliver(cfg: Config, s: State, t: nat, h: nat)
    requires cfg.Ok() && t < |s.tasks| && h == s.tasks[t].batch && h < |s.batches|
    requires Shape(cfg, s) && Enabled(cfg, s, Deliver(t)) && Owns(cfg, s, h)
    ensures h < |Next(cfg, s, Deliver(t)).batches| && Owns(cfg, Next(cfg, s, Deliver(t)), h)
  {
    hide Groups, Split, HandleOk, PhaseOwed, Done, TaskOk;
    var x, r := s.tasks[t], Next(cfg, s, Deliver(t));
    var b := s.batches[h];
    assert TaskOk(cfg, s, x);
    hide Shape;
    Delivered(cfg, s, t, h, r.tasks[t].progress);
    OwedSame(cfg, b, r.batches[h]);
  }

  /** A group's results: its indices move from owed to done. */
  lemma Delivered(cfg: Config, s: State, t: nat, h: nat, progress: Progress)
    requires cfg.Ok() && t < |s.tasks| && h == s.tasks[t].batch && h < |s.batches| && TaskOk(cfg, s, s.tasks[t])
    requires Owns(cfg, s, h)
    requires s.tasks[t].progress.Releasing? && (progress.Finished? || progress.Calling?)
    requires |s.tasks[t].progress.oks| == |s.tasks[t].group|
    ensures var b, x := s.batches[h], s.tasks[t];
      var hd := b.handle.SetMany(Pairs(x.group, x.progress.oks));
      && HandleOk(hd, |b.items|)
      && Split(|b.items|, Done(hd.written), PhaseOwed(cfg, b), s.tasks[t := x.(progress := progress)], h)
  {
    hide Groups, Split, HandleOk, PhaseOwed, Done;
    var x, b := s.tasks[t], s.batches[h];
    SplitDeliver(|b.items|, Done(b.handle.written), PhaseOwed(cfg, b), s.tasks, h, t, progress);
    PairsOnce(cfg, b, x);
    SplitBounds(|b.items|, Done(b.handle.written), PhaseOwed(cfg, b), s.tasks, h);
    SetOwed(b.handle, |b.items|, Pairs(x.group, x.progress.oks), Elements(x.group));
  }

  lemma SplitBounds(n: nat, done: set<nat>, owed: set<nat>, tasks: seq<Task>, h: nat)
    requires Split(n, done, owed, tasks, h)
    ensures done <= Below(n)
  {
  }

  lemma PairsOnce(cfg: Config, b: Batch, x: Task)
    requires cfg.Ok() && IsGroup(cfg, b, x) && x.progress.Releasing? && |x.progress.oks| == |x.group|
    ensures var ws := Pairs(x.group, x.progress.oks); ws != [] && Once(ws) && Done(ws) == Elements(x.group)
  {
    hide Groups;
    var p :| 0 <= p < |Gs(cfg, b)| && x.group == Gs(cfg, b)[p] && x.queue == QueueOf(cfg, b, p);
    GroupsOf(cfg, b, p);
    GroupNonempty(cfg, b, p);
    var ws := Pairs(x.group, x.progress.oks);
    assert forall i :: 0 <= i < |ws| ==> ws[i].idx == x.group[i];
    assert Done(ws) == Elements(x.group);
  }

  lemma DeliveryKept(cfg: Config, s: State, step: Step)
    requires cfg.Ok() && Shape(cfg, s) && Delivery(cfg, s) && Enabled(cfg, s, step)
    ensures Delivery(cfg, Next(cfg, s, step))
  {
    hide Shape, Owns;
    forall h | 0 <= h < |Next(cfg, s, step).batches|
      ensures Owns(cfg, Next(cfg, s, step), h)
    {
      OwnsKept(cfg, s, step, h);
    }
  }

  lemma OwnsKept(cfg: Config, s: State, step: Step, h: nat)
    requires cfg.Ok() && Shape(cfg, s) && Delivery(cfg, s) && Enabled(cfg, s, step) && h < |Next(cfg, s, step).batches|
    ensures Owns(cfg, Next(cfg, s, step), h)
  {
    hide Shape, Owns;
    if h >= |s.batches| {
      NewBatch(cfg, s, step, h);
      OwnsNew(cfg, s, step.items, step.origin);
    } else if !Touches(s, step, h) {
      OwnsFrame(cfg, s, step, h);
    } else if step.Schedule? {
      OwnsSchedule(cfg, s, h);
    } else if step.SetFailed? {
      OwnsFailed(cfg, s, h);
    } else {
      OwnsDeliver(cfg, s, step.t, h);
    }
  }
}
