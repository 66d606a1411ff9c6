/** Theorems over every run of the machine: any actions in any order, any answers from upstream,
    disk and transports, polls answered from snapshots of any age. */
module Interleavings {
  import opened Models
  import opened Notification
  import opened Tasks
  import opened Runs
  import opened Claims
  import opened Lives
  import opened Lifecycle
  import opened TwoTables
  import Text

  /** Tickets name suitable jobs, and each claim won stands alone on its task for good. */
  ghost predicate ClaimsOk(m: Machine) {
    && (forall x | x in m.tickets ::
          x.task in m.db.tasks && Matches(m.db.tasks[x.task].spec.required, x.caps))
    && (forall i | 0 <= i < |m.won| ::
          m.won[i] in m.tickets && m.won[i].task in m.db.tasks
          && m.db.tasks[m.won[i].task].worker == Some(m.won[i].worker))
    && (forall i, j | 0 <= i < j < |m.won| :: m.won[i].task != m.won[j].task)
  }

  /** The row of failed submits is born terminal, so nobody polls it. */
  predicate FailuresAreFinal(d: Tables) {
    SubmitFailed in d.runs ==> IsTerminal(d.runs[SubmitFailed].status)
  }

  ghost predicate Inv(m: Machine) {
    Consistent(m.db) && SnapsOk(m.db, m.polls) && FailuresAreFinal(m.db) && ClaimsOk(m)
  }

  /** What one step may do to the tasks. */
  ghost predicate TasksAdvance(d: Tables, d': Tables) {
    forall t | t in d.tasks :: t in d'.tasks && Advances(d.tasks[t], d'.tasks[t])
  }

  /** What every step does to the two tables. */
  ghost predicate Keeps(d: Tables, d': Tables) {
    Consistent(d') && Grows(d.runs, d'.runs) && TasksAdvance(d, d')
  }

  lemma OneTaskAdvances(d: Tables, d': Tables, t: TaskId, k: Task)
    requires t in d.tasks && d'.tasks == d.tasks[t := k] && Advances(d.tasks[t], k)
    ensures TasksAdvance(d, d')
  {
  }

  lemma PostWritesOneTask(d: Tables, t: TaskId, reply: Reply, e: Env)
    ensures Post(d, t, reply, e).tasks == d.tasks[t := reply.task]
  {
  }

  lemma PersistAdvances(d: Tables, r: RunId, seen: Run, verdict: Status, text: Option<string>, e: Env)
    requires Consistent(d)
    ensures TasksAdvance(d, Persist(d, r, seen, verdict, text, e))
  {
    hide Consistent, Advances, TasksAdvance, Post, Mirror, ForceReconcile, Upsert;
    NothingAdvances(d);
    var stdout := text.GetOr(seen.evidence.stdout);
    var w := Write(seen.executor, seen.task, verdict, Some(e.now), seen.evidence.(stdout := stdout));
    var d1 := PutRun(d, r, w, e.now);
    TasksOnly(d, d1, d);
    if seen.task.Some? && seen.task.value in d1.tasks {
      var t := seen.task.value;
      SoundRow(d, t);
      MirrorAdvances(d.tasks[t], r, verdict, stdout, e);
      var reply := Mirror(d1.tasks[t], verdict, stdout, e);
      var d2 := Post(d1, t, reply, e);
      PostWritesOneTask(d1, t, reply, e);
      OneTaskAdvances(d, d2, t, reply.task);
      var f := ForceReconcile(d2.tasks[t], Some(r), Coarse(verdict), e, e.again);
      PostWritesOneTask(d2, t, f, e);
      var d3 := Post(d2, t, f, e);
      assert d3.tasks == d.tasks[t := f.task];
      if reply.outcome != Settled {
        OneTaskAdvances(d, d3, t, f.task);
      }
    }
  }

  lemma NothingAdvances(d: Tables)
    ensures TasksAdvance(d, d)
  {
  }

  lemma TasksOnly(a: Tables, b: Tables, c: Tables)
    requires TasksAdvance(a, c) && b.tasks == c.tasks
    ensures TasksAdvance(a, b)
  {
  }

  lemma SoundRow(d: Tables, t: TaskId)
    requires Consistent(d) && t in d.tasks
    ensures Sound(d.tasks[t])
  {
  }

  /** A call that was not settled was refused and changed nothing, or was a blocked completion. */
  lemma UnsettledMirror(k: Task, verdict: Status, stdout: string, e: Env)
    ensures var x := Mirror(k, verdict, stdout, e);
      x.outcome != Settled ==> x.task == k || verdict == Completed
  {
  }

  lemma ForcedProgress(k: Task, run: Option<RunId>, verdict: Status, e: Env, net: Net)
    requires verdict == Completed || verdict == Failed
    ensures ForceReconcile(k, run, verdict, e, net).task.pct == if verdict == Completed then 100 else k.pct
  {
    hide NotifyGate;
  }

  lemma MirrorAdvances(k: Task, r: RunId, verdict: Status, stdout: string, e: Env)
    requires Sound(k)
    ensures var x := Mirror(k, verdict, stdout, e);
      && Advances(k, x.task)
      && (x.outcome != Settled ==>
            Advances(k, ForceReconcile(x.task, Some(r), Coarse(verdict), e, e.again).task))
  {
    hide Complete, Close, ForceReconcile, Lawful, Budget, ClaimOk, Extends;
    var x := Mirror(k, verdict, stdout, e);
    CompleteIsSound(k, Call(Lifecycle.OutputText(stdout), false), e, 0);
    CloseIsSound(k, Failed, e, 0);
    if x.outcome != Settled {
      UnsettledMirror(k, verdict, stdout, e);
      ForceIsSound(x.task, Some(r), Coarse(verdict), e, e.again);
      ForcedProgress(x.task, Some(r), Coarse(verdict), e, e.again);
      AdvancesTransitively(k, x.task, ForceReconcile(x.task, Some(r), Coarse(verdict), e, e.again).task);
    }
  }

  lemma AnsweredKeeps(d: Tables, seen: Snap, p: Poll, stamp: bool, e: Env)
    requires Consistent(d) && SnapsOk(d, {seen})
    ensures Keeps(d, Answered(d, seen.id, seen.row, p, stamp, e))
  {
    assert seen in {seen};
    match p
    case Transient =>
    case Alive =>
      TouchingKeeps(d, Heartbeat(d.runs, seen.id, e.now));
      NothingKeeps(d);
    case Vanished =>
      PersistKeeps(d, seen.id, seen.row, Timeout, None, e);
      PersistAdvances(d, seen.id, seen.row, Timeout, None, e);
    case Ended(word, output) =>
      var text := Some(Text.Truncated(output));
      PersistKeeps(d, seen.id, seen.row, VerdictOf(word), text, e);
      PersistAdvances(d, seen.id, seen.row, VerdictOf(word), text, e);
  }

  lemma OwnershipIsLinks(d: Tables, runs: Table)
    requires Owned(d)
    requires forall r | r in runs :: r in d.runs && runs[r].task == d.runs[r].task
    ensures Owned(d.(runs := runs))
  {
    var d' := d.(runs := runs);
    forall t, r | Carrier(d'.tasks, t, r)
      ensures r != SubmitFailed && (r in d'.runs ==> d'.runs[r].task == Some(t))
    {
      assert Carrier(d.tasks, t, r);
      assert r in d.runs ==> d.runs[r].task == Some(t);
      assert r in runs ==> runs[r].task == d.runs[r].task;
    }
  }

  /** Touching rows in place keeps everything as long as links and creation times stay, and the
      status changes only on task-less rows and never out of the terminal statuses. */
  lemma TouchingKeeps(d: Tables, runs: Table)
    requires Consistent(d) && forall r :: r in runs <==> r in d.runs
    requires forall r | r in d.runs ::
      && runs[r].task == d.runs[r].task && runs[r].created == d.runs[r].created
      && (d.runs[r].task.Some? ==> runs[r].status == d.runs[r].status)
      && (IsTerminal(d.runs[r].status) ==> IsTerminal(runs[r].status))
    ensures Keeps(d, d.(runs := runs))
  {
    hide Sound, Owned, Advances, TasksAdvance;
    var d' := d.(runs := runs);
    NothingAdvances(d);
    TasksOnly(d, d', d);
    OwnershipIsLinks(d, runs);
    forall t | t in d'.tasks ensures Agrees(d', t) {
      assert Agrees(d, t);
    }
  }

  lemma NothingKeeps(d: Tables)
    requires Consistent(d)
    ensures Keeps(d, d)
  {
  }

  lemma RowStepKeeps(d: Tables, t: TaskId, k: Task)
    requires Consistent(d) && t in d.tasks && Sound(k) && Advances(d.tasks[t], k)
    requires k.hermes == d.tasks[t].hermes && k.external == d.tasks[t].external
    requires !IsTerminal(k.status) || k.status == d.tasks[t].status
    ensures Keeps(d, d.(tasks := d.tasks[t := k]))
  {
    RowOnlyKeeps(d, t, k);
  }

  lemma ManagerStepKeeps(d: Tables, t: TaskId, reply: Reply, e: Env)
    requires Consistent(d) && t in d.tasks && CallShape(d.tasks[t], reply) && Advances(d.tasks[t], reply.task)
    ensures Keeps(d, Post(d, t, reply, e))
  {
    hide Consistent, Grows, CallShape, Advances, TasksAdvance, Post;
    ManagerCallKeeps(d, t, reply, e);
    PostWritesOneTask(d, t, reply, e);
    OneTaskAdvances(d, Post(d, t, reply, e), t, reply.task);
  }

  lemma ForcedStepKeeps(d: Tables, t: TaskId, run: Option<RunId>, verdict: Status, e: Env)
    requires Consistent(d) && t in d.tasks && OwnRun(d, t, run)
    ensures Keeps(d, Post(d, t, ForceReconcile(d.tasks[t], run, verdict, e, e.net), e))
  {
    hide Grows, ForceReconcile, Advances, Sound, OwnRun, TasksAdvance, Post, Agrees;
    var f := ForceReconcile(d.tasks[t], run, verdict, e, e.net);
    assert Agrees(d, t);
    ForceKeeps(d, t, run, verdict, e, e.net);
    ForceIsSound(d.tasks[t], run, verdict, e, e.net);
    PostWritesOneTask(d, t, f, e);
    OneTaskAdvances(d, Post(d, t, f, e), t, f.task);
  }

  lemma UncarriedRowKeeps(d: Tables, r: RunId, w: Write, now: Time)
    requires Consistent(d) && forall u | u in d.tasks :: !Carrier(d.tasks, u, r)
    requires r in d.runs ==> r == SubmitFailed
    requires r == SubmitFailed ==> IsTerminal(w.status)
    ensures Keeps(d, PutRun(d, r, w, now))
  {
    assert forall u | u in d.tasks :: Carrier(d.tasks, u, r) || d.tasks[u].hermes != Some(r);
    PutKeepsOwned(d, r, w, now);
    PutAgrees(d, r, w, now);
  }

  lemma KeepsTransitively(a: Tables, b: Tables, c: Tables)
    requires Keeps(a, b) && Keeps(b, c) && a.tasks == b.tasks
    ensures Keeps(a, c)
  {
  }

  lemma FailedRowKeeps(d: Tables, task: Option<TaskId>, e: Env)
    requires Consistent(d)
    ensures Keeps(d, PutFailed(d, task, e))
  {
    UncarriedRowKeeps(d, SubmitFailed, Write(Hermes, task, Failed, Some(e.now), NO_EVIDENCE), e.now);
  }

  lemma SubmitRaisedKeeps(d: Tables, t: TaskId, e: Env)
    requires Consistent(d) && t in d.tasks
    ensures Keeps(d, SubmitRaised(d, t, e))
  {
    var d1 := PutFailed(d, Some(t), e);
    FailedRowKeeps(d, Some(t), e);
    ForcedStepKeeps(d1, t, None, Failed, e);
    KeepsTransitively(d, d1, SubmitRaised(d, t, e));
  }

  lemma CreatedKeeps(d: Tables, t: TaskId, spec: Spec, adapter: Executor, rescues: Option<int>, queued: bool)
    requires Consistent(d) && t !in d.tasks
    ensures Keeps(d, d.(tasks := d.tasks[t := Fresh(spec.(maxRescues := ClampRescues(rescues)), adapter, queued)]))
  {
    var spec' := spec.(maxRescues := ClampRescues(rescues));
    CreationIsSound(spec', adapter, queued);
    CreateKeeps(d, t, Fresh(spec', adapter, queued));
  }

  lemma DispatchedKeeps(d: Tables, t: TaskId, r: RunId, route: Route, reported: Status, e: Env)
    requires Consistent(d) && t in d.tasks && FreshRun(d, r)
    ensures Keeps(d, Dispatch(d, t, r, route, reported, e))
  {
    DispatchKeeps(d, t, r, route, reported, e);
    DispatchAdvances(d, t, r, route, reported, e);
  }

  lemma DispatchAdvances(d: Tables, t: TaskId, r: RunId, route: Route, reported: Status, e: Env)
    requires t in d.tasks && Sound(d.tasks[t])
    ensures TasksAdvance(d, Dispatch(d, t, r, route, reported, e))
  {
    hide Start, Sound, TasksAdvance, Upsert;
    NothingAdvances(d);
    StartIsSound(d.tasks[t], r);
    var d' := Dispatch(d, t, r, route, reported, e);
    if d'.tasks != d.tasks {
      OneTaskAdvances(d, d', t, d'.tasks[t]);
    } else {
      TasksOnly(d, d', d);
    }
  }

  lemma CompletedKeeps(d: Tables, t: TaskId, c: Call, e: Env)
    requires Consistent(d) && t in d.tasks
    ensures Keeps(d, Post(d, t, Complete(d.tasks[t], c, e, 0), e))
  {
    hide Keeps, Consistent, Sound, Complete, CallShape;
    SoundRow(d, t);
    CompleteShape(d.tasks[t], c, e);
    CompleteIsSound(d.tasks[t], c, e, 0);
    ManagerStepKeeps(d, t, Complete(d.tasks[t], c, e, 0), e);
  }

  lemma ClosedKeeps(d: Tables, t: TaskId, to: Status, e: Env)
    requires Consistent(d) && t in d.tasks && (to == Failed || to == Timeout || to == Cancelled)
    ensures Keeps(d, Post(d, t, Close(d.tasks[t], to, e, 0), e))
  {
    hide Keeps, Consistent, Sound, Close, CallShape;
    SoundRow(d, t);
    CloseShape(d.tasks[t], to, e);
    CloseIsSound(d.tasks[t], to, e, 0);
    ManagerStepKeeps(d, t, Close(d.tasks[t], to, e, 0), e);
  }

  lemma RequeuedKeeps(d: Tables, t: TaskId)
    requires Consistent(d) && t in d.tasks
    ensures Keeps(d, d.(tasks := d.tasks[t := Queue(d.tasks[t]).0]))
  {
    hide Keeps, Consistent;
    SoundRow(d, t);
    QueueIsSound(d.tasks[t]);
    RowStepKeeps(d, t, Queue(d.tasks[t]).0);
  }

  lemma ReportedKeeps(d: Tables, t: TaskId, pct: int)
    requires Consistent(d) && t in d.tasks
    ensures Keeps(d, d.(tasks := d.tasks[t := Progress(d.tasks[t], pct).0]))
  {
    hide Keeps, Consistent;
    SoundRow(d, t);
    ProgressIsSound(d.tasks[t], pct);
    RowStepKeeps(d, t, Progress(d.tasks[t], pct).0);
  }

  lemma ClaimedKeeps(d: Tables, t: TaskId, worker: string, token: string)
    requires Consistent(d) && t in d.tasks
    ensures Keeps(d, d.(tasks := d.tasks[t := Claim(d.tasks[t], worker, token).0]))
  {
    hide Keeps, Consistent;
    SoundRow(d, t);
    ClaimIsSound(d.tasks[t], worker, token);
    RowStepKeeps(d, t, Claim(d.tasks[t], worker, token).0);
  }

  lemma BeatKeeps(d: Tables, r: RunId, now: Time)
    requires Consistent(d)
    ensures Keeps(d, d.(runs := Heartbeat(d.runs, r, now)))
  {
    hide Keeps, Consistent;
    TouchingKeeps(d, Heartbeat(d.runs, r, now));
  }

  lemma SweptKeeps(d: Tables, maxAge: int, now: Time)
    requires Consistent(d)
    ensures Keeps(d, d.(runs := Sweep(d.runs, maxAge, now)))
  {
    hide Keeps, Consistent;
    TouchingKeeps(d, Sweep(d.runs, maxAge, now));
  }

  lemma UnlinkedKeeps(d: Tables, r: RunId, executor: Executor, reported: Status, e: Env)
    requires Consistent(d) && FreshRun(d, r)
    ensures Keeps(d, PutRun(d, r, Write(executor, None, reported, Some(e.now), NO_EVIDENCE), e.now))
  {
    hide Keeps, Consistent;
    UncarriedRowKeeps(d, r, Write(executor, None, reported, Some(e.now), NO_EVIDENCE), e.now);
  }

  /** Every step keeps both tables consistent, loses no run row and takes back no task. */
  lemma StepKeepsTables(d: Tables, polls: set<Snap>, a: Action)
    requires Consistent(d) && SnapsOk(d, polls)
    ensures Keeps(d, StepTables(d, polls, a))
  {
    hide Keeps, Consistent, SnapsOk, Post, Dispatch, PutRun, PutFailed, SubmitRaised, Answered, Heartbeat, Sweep;
    hide Fresh, ClampRescues, Queue, Progress, Complete, Close, ForceReconcile, Claim, FreshRun, OwnRun;
    NothingKeeps(d);
    match a
    case Create(t, spec, adapter, rescues, queued) =>
      if t !in d.tasks { CreatedKeeps(d, t, spec, adapter, rescues, queued); }
    case Requeue(t) =>
      if t in d.tasks { RequeuedKeeps(d, t); }
    case Submitted(t, r, route, reported, e) =>
      if t in d.tasks && FreshRun(d, r) { DispatchedKeeps(d, t, r, route, reported, e); }
    case SubmittedUnlinked(r, executor, reported, e) =>
      if FreshRun(d, r) { UnlinkedKeeps(d, r, executor, reported, e); }
    case SubmitRejected(t, e) =>
      if t in d.tasks { SubmitRaisedKeeps(d, t, e); }
    case SubmitRejectedUnlinked(e) => FailedRowKeeps(d, None, e);
    case Report(t, pct) =>
      if t in d.tasks { ReportedKeeps(d, t, pct); }
    case Finished(t, c, e) =>
      if t in d.tasks { CompletedKeeps(d, t, c, e); }
    case Closed(t, to, e) =>
      if t in d.tasks && (to.Failed? || to.Timeout? || to.Cancelled?) { ClosedKeeps(d, t, to, e); }
    case Forced(t, run, verdict, e) =>
      if t in d.tasks && OwnRun(d, t, run) { ForcedStepKeeps(d, t, run, verdict, e); }
    case PollAnswered(seen, p, stamp, e) =>
      if seen in polls { SnapOk(d, polls, seen); AnsweredKeeps(d, seen, p, stamp, e); }
    case Beaten(r, e) => BeatKeeps(d, r, e.now);
    case Cleaned(maxAge, e) => SweptKeeps(d, maxAge, e.now);
    case Claimed(ticket, token) =>
      if ticket.task in d.tasks { ClaimedKeeps(d, ticket.task, ticket.worker, token); }
    case _ =>
  }

  lemma SnapOk(d: Tables, polls: set<Snap>, seen: Snap)
    requires SnapsOk(d, polls) && seen in polls
    ensures SnapsOk(d, {seen})
  {
  }
}
