/** The finish time of a task: written with every terminal status, by the clock of that very step. */
module FinishTimes {
  import opened Models
  import opened Notification
  import opened Tasks
  import opened Runs
  import opened Lives
  import opened Lifecycle
  import opened TwoTables
  import opened Interleavings
  import opened Safety
  import opened Columns
  import Clock
  import Text

  /** A terminal task has a finish time. */
  predicate HasFinish(k: Task) {
    IsTerminal(k.status) ==> k.finishedAt.Some?
  }

  ghost predicate AllFinished(d: Tables) {
    forall t | t in d.tasks :: HasFinish(d.tasks[t])
  }

  function Depth(t: Trail): nat {
    match t
    case Born(_) => 0
    case Moved(past, _, _) => Depth(past) + 1
  }

  lemma {:induction false} ExtensionsAreDeeper(t: Trail, t': Trail)
    requires Extends(t, t')
    ensures Depth(t) <= Depth(t')
    decreases t'
  {
    if t != t' {
      ExtensionsAreDeeper(t, t'.past);
    }
  }

  /** What one step of the clock does to the finish time: untouched when no status was written; the
      step's reading when the status written last is terminal; and none when it is the revert of the
      blocking gate. */
  predicate Stamped(k: Task, k': Task, now: Time) {
    && (k'.audit.trail == k.audit.trail ==> k'.finishedAt == k.finishedAt)
    && (k'.audit.trail != k.audit.trail && IsTerminal(k'.status) ==> k'.finishedAt == Some(now))
    && (k'.audit.trail != k.audit.trail && LastMoveReverts(k') ==> k'.finishedAt == None)
    && (HasFinish(k) ==> HasFinish(k'))
  }

  lemma NothingStamped(k: Task, now: Time)
    ensures Stamped(k, k, now)
  {
  }

  lemma QueueStamps(k: Task, now: Time)
    ensures Stamped(k, Queue(k).0, now)
  {
  }

  lemma StartStamps(k: Task, r: RunId, now: Time)
    ensures Stamped(k, Start(k, r).0, now)
  {
  }

  lemma ClaimStamps(k: Task, worker: string, token: string, now: Time)
    ensures Stamped(k, Claim(k, worker, token).0, now)
  {
  }

  lemma CloseStamps(k: Task, to: Status, e: Env, tick: nat)
    requires to in {Failed, Timeout, Cancelled}
    ensures Stamped(k, Close(k, to, e, tick).task, e.now)
  {
    hide Close;
    ClosedRow(k, to, e, tick);
    OneDeeper(k, Close(k, to, e, tick).task);
  }

  /** Either the call changed nothing, or it wrote a status behind the trail it found. */
  lemma CompleteMoves(k: Task, c: Call, e: Env, tick: nat)
    requires Sound(k)
    ensures var x := Complete(k, c, e, tick);
      && (x.task == k
          || (IsTerminal(x.task.status) && x.task.finishedAt == Some(e.now) && !LastMoveReverts(x.task))
          || (LastMoveReverts(x.task) && x.task.status == Running && x.task.finishedAt == None))
      && (x.outcome == Blocked ==> x.task.finishedAt == None)
      && (x.task != k ==> x.task.audit.trail != k.audit.trail)
  {
    hide Finish, Close, Sound;
    if IsLegal(k.status, Completed) {
      var v := Inspect(e.disk, tick, k.spec.declared, RescuesLeft(k));
      SpentIsAffordable(e.disk, tick, k.spec.declared, RescuesLeft(k));
      DetoursAreSound(k, v.spent);
      var back := Detours(k, v.spent);
      var c' := if v.spent == 0 then c else Call(None, false);
      DetoursExtend(k, back);
      FinishedRow(back, c', e, v.tick);
      ClosedRow(back, Failed, e, v.tick);
      OneDeeper(back, Finish(back, c', e, v.tick).task);
      OneDeeper(back, Close(back, Failed, e, v.tick).task);
    }
  }

  lemma DetoursExtend(k: Task, back: Task)
    requires Advances(k, back)
    ensures Depth(k.audit.trail) <= Depth(back.audit.trail)
  {
    ExtensionsAreDeeper(k.audit.trail, back.audit.trail);
  }

  lemma OneDeeper(k: Task, k': Task)
    ensures k'.audit.trail.Moved? && k'.audit.trail.past == k.audit.trail
      ==> Depth(k'.audit.trail) == Depth(k.audit.trail) + 1
    ensures k'.audit.trail.Moved? && k'.audit.trail.past.Moved? && k'.audit.trail.past.past == k.audit.trail
      ==> Depth(k'.audit.trail) == Depth(k.audit.trail) + 2
  {
  }

  lemma CompleteStamps(k: Task, c: Call, e: Env, tick: nat)
    requires Sound(k)
    ensures Stamped(k, Complete(k, c, e, tick).task, e.now)
  {
    hide Complete, Sound;
    CompleteMoves(k, c, e, tick);
  }

  lemma ForceStamps(k: Task, run: Option<RunId>, verdict: Status, e: Env, net: Net)
    ensures Stamped(k, ForceReconcile(k, run, verdict, e, net).task, e.now)
  {
    hide ForceReconcile;
    ForcedRow(k, run, verdict, e, net);
    OneDeeper(k, ForceReconcile(k, run, verdict, e, net).task);
  }

  /** A call and, if it did not settle, the forced verdict behind it. */
  lemma MirrorStamps(k: Task, r: RunId, verdict: Status, stdout: string, e: Env)
    requires Sound(k)
    ensures var x := Mirror(k, verdict, stdout, e);
      && Stamped(k, x.task, e.now)
      && (x.outcome != Settled ==>
            Stamped(k, ForceReconcile(x.task, Some(r), Coarse(verdict), e, e.again).task, e.now))
  {
    hide Complete, Close, ForceReconcile, Sound, Extends;
    var x := Mirror(k, verdict, stdout, e);
    CompleteStamps(k, Call(OutputText(stdout), false), e, 0);
    CloseStamps(k, Failed, e, 0);
    MirrorAdvances(k, r, verdict, stdout, e);
    if x.outcome != Settled {
      var f := ForceReconcile(x.task, Some(r), Coarse(verdict), e, e.again).task;
      ForcedRow(x.task, Some(r), Coarse(verdict), e, e.again);
      OneDeeper(x.task, f);
      AdvancesIsDeeper(k, x.task);
    }
  }

  lemma AdvancesIsDeeper(k: Task, k': Task)
    requires Advances(k, k')
    ensures Depth(k.audit.trail) <= Depth(k'.audit.trail)
  {
    ExtensionsAreDeeper(k.audit.trail, k'.audit.trail);
  }

  // ---- steps -------------------------------------------------------------------------------------

  /** Every task there was is stamped by this step's reading, and a new one is open. */
  ghost predicate TasksStamped(d: Tables, d': Tables, now: Time) {
    && (forall t | t in d.tasks :: t in d'.tasks && Stamped(d.tasks[t], d'.tasks[t], now))
    && (forall t | t in d'.tasks && t !in d.tasks :: HasFinish(d'.tasks[t]))
  }

  lemma OneRowStamped(d: Tables, d': Tables, t: TaskId, k: Task, now: Time)
    requires t in d.tasks && d'.tasks == d.tasks[t := k] && Stamped(d.tasks[t], k, now)
    ensures TasksStamped(d, d', now)
  {
    forall u | u in d.tasks ensures Stamped(d.tasks[u], d'.tasks[u], now) {
      NothingStamped(d.tasks[u], now);
    }
  }

  lemma NoRowStamped(d: Tables, d': Tables, now: Time)
    requires d'.tasks == d.tasks
    ensures TasksStamped(d, d', now)
  {
    forall u | u in d.tasks ensures Stamped(d.tasks[u], d'.tasks[u], now) {
      NothingStamped(d.tasks[u], now);
    }
  }

  lemma PersistStamps(d: Tables, r: RunId, seen: Run, verdict: Status, text: Option<string>, e: Env)
    requires Consistent(d)
    ensures TasksStamped(d, Persist(d, r, seen, verdict, text, e), e.now)
  {
    hide Consistent, Stamped, TasksStamped, Post, Mirror, ForceReconcile, Upsert;
    var stdout := text.GetOr(seen.evidence.stdout);
    var w := Write(seen.executor, seen.task, verdict, Some(e.now), seen.evidence.(stdout := stdout));
    var d1 := PutRun(d, r, w, e.now);
    NoRowStamped(d, d1, e.now);
    if seen.task.Some? && seen.task.value in d1.tasks {
      var t := seen.task.value;
      SoundRow(d, t);
      MirrorStamps(d.tasks[t], r, verdict, stdout, e);
      var reply := Mirror(d1.tasks[t], verdict, stdout, e);
      var d2 := Post(d1, t, reply, e);
      PostWritesOneTask(d1, t, reply, e);
      OneRowStamped(d, d2, t, reply.task, e.now);
      var f := ForceReconcile(d2.tasks[t], Some(r), Coarse(verdict), e, e.again);
      PostWritesOneTask(d2, t, f, e);
      var d3 := Post(d2, t, f, e);
      assert d3.tasks == d.tasks[t := f.task];
      if reply.outcome != Settled {
        OneRowStamped(d, d3, t, f.task, e.now);
      }
    }
  }

  lemma DispatchStamps(d: Tables, t: TaskId, r: RunId, route: Route, reported: Status, e: Env, now: Time)
    requires t in d.tasks
    ensures TasksStamped(d, Dispatch(d, t, r, route, reported, e), now)
  {
    hide TasksStamped, Upsert;
    var d' := Dispatch(d, t, r, route, reported, e);
    StartStamps(d.tasks[t], r, now);
    NoRowStamped(d, d, now);
    assert d' != d ==> d'.tasks == d.tasks[t := d'.tasks[t]] && Stamped(d.tasks[t], d'.tasks[t], now);
    if d' != d {
      OneRowStamped(d, d', t, d'.tasks[t], now);
    }
  }

  lemma StepStamps(d: Tables, polls: set<Snap>, a: Action, before: Time)
    requires Consistent(d)
    ensures TasksStamped(d, StepTables(d, polls, a), Clock.Reading(a).GetOr(before))
  {
    hide Consistent, Stamped, TasksStamped, Post, Dispatch, Complete, Close, ForceReconcile, Persist, Upsert;
    hide Heartbeat, Sweep, FreshRun, OwnRun, Queue, Progress, Claim, Sound;
    var now := Clock.Reading(a).GetOr(before);
    NoRowStamped(d, StepTables(d, polls, Read(SubmitFailed)), now);
    match a
    case Create(t, spec, adapter, rescues, queued) =>
      if t !in d.tasks { CreationStamps(d, t, spec.(maxRescues := ClampRescues(rescues)), adapter, queued, now); }
    case Requeue(t) =>
      if t in d.tasks {
        QueueStamps(d.tasks[t], now);
        OneRowStamped(d, StepTables(d, polls, a), t, Queue(d.tasks[t]).0, now);
      }
    case Submitted(t, r, route, reported, e) =>
      if t in d.tasks && FreshRun(d, r) { DispatchStamps(d, t, r, route, reported, e, now); }
    case SubmittedUnlinked(r, executor, reported, e) =>
      NoRowStamped(d, StepTables(d, polls, a), now);
    case SubmitRejected(t, e) =>
      if t in d.tasks {
        var f := ForceReconcile(d.tasks[t], None, Failed, e, e.net);
        ForceStamps(d.tasks[t], None, Failed, e, e.net);
        PostWritesOneTask(PutFailed(d, Some(t), e), t, f, e);
        OneRowStamped(d, StepTables(d, polls, a), t, f.task, now);
      }
    case SubmitRejectedUnlinked(e) =>
      NoRowStamped(d, StepTables(d, polls, a), now);
    case Report(t, pct) =>
      if t in d.tasks {
        ReportStamps(d.tasks[t], pct, now);
        OneRowStamped(d, StepTables(d, polls, a), t, Progress(d.tasks[t], pct).0, now);
      }
    case Finished(t, c, e) =>
      if t in d.tasks {
        SoundRow(d, t);
        CompleteStamps(d.tasks[t], c, e, 0);
        PostWritesOneTask(d, t, Complete(d.tasks[t], c, e, 0), e);
        OneRowStamped(d, StepTables(d, polls, a), t, Complete(d.tasks[t], c, e, 0).task, now);
      }
    case Closed(t, to, e) =>
      if t in d.tasks && (to.Failed? || to.Timeout? || to.Cancelled?) {
        CloseStamps(d.tasks[t], to, e, 0);
        PostWritesOneTask(d, t, Close(d.tasks[t], to, e, 0), e);
        OneRowStamped(d, StepTables(d, polls, a), t, Close(d.tasks[t], to, e, 0).task, now);
      }
    case Forced(t, run, verdict, e) =>
      if t in d.tasks && OwnRun(d, t, run) {
        ForceStamps(d.tasks[t], run, verdict, e, e.net);
        PostWritesOneTask(d, t, ForceReconcile(d.tasks[t], run, verdict, e, e.net), e);
        OneRowStamped(d, StepTables(d, polls, a), t, ForceReconcile(d.tasks[t], run, verdict, e, e.net).task, now);
      }
    case PollAnswered(seen, p, stamp, e) =>
      if seen in polls { AnswerStamps(d, seen, p, stamp, e); }
    case Beaten(r, e) => NoRowStamped(d, StepTables(d, polls, a), now);
    case Cleaned(maxAge, e) => NoRowStamped(d, StepTables(d, polls, a), now);
    case Claimed(ticket, token) =>
      if ticket.task in d.tasks {
        ClaimStamps(d.tasks[ticket.task], ticket.worker, token, now);
        OneRowStamped(d, StepTables(d, polls, a), ticket.task,
          Claim(d.tasks[ticket.task], ticket.worker, token).0, now);
      }
    case Read(r) =>
    case Found(_, _, _, _) =>
  }

  lemma CreationStamps(d: Tables, t: TaskId, spec: Spec, adapter: Executor, queued: bool, now: Time)
    requires t !in d.tasks
    ensures TasksStamped(d, d.(tasks := d.tasks[t := Fresh(spec, adapter, queued)]), now)
  {
    forall u | u in d.tasks ensures Stamped(d.tasks[u], d.tasks[u], now) {
      NothingStamped(d.tasks[u], now);
    }
  }

  lemma ReportStamps(k: Task, pct: int, now: Time)
    ensures Stamped(k, Progress(k, pct).0, now)
  {
  }

  lemma AnswerStamps(d: Tables, seen: Snap, p: Poll, stamp: bool, e: Env)
    requires Consistent(d)
    ensures TasksStamped(d, Answered(d, seen.id, seen.row, p, stamp, e), e.now)
  {
    hide Consistent, TasksStamped, Persist, Heartbeat;
    NoRowStamped(d, d, e.now);
    match p
    case Transient =>
    case Alive => NoRowStamped(d, d.(runs := Heartbeat(d.runs, seen.id, e.now)), e.now);
    case Vanished => PersistStamps(d, seen.id, seen.row, Timeout, None, e);
    case Ended(word, output) =>
      PersistStamps(d, seen.id, seen.row, VerdictOf(word), Some(Text.Truncated(output)), e);
  }

  // ---- the theorems --------------------------------------------------------------------------------

  lemma StampedIsFinished(d: Tables, d': Tables, now: Time)
    requires AllFinished(d) && TasksStamped(d, d', now)
    ensures AllFinished(d')
  {
    forall t | t in d'.tasks ensures HasFinish(d'.tasks[t]) {
      if t in d.tasks {
        assert HasFinish(d.tasks[t]) && Stamped(d.tasks[t], d'.tasks[t], now);
      }
    }
  }

  /** In every reachable state a terminal task has a finish time. */
  lemma {:induction false} TerminalTasksAreFinished(actions: seq<Action>)
    ensures AllFinished(Execute(actions).db)
    ensures forall t | t in Execute(actions).db.tasks ::
      Execute(actions).db.tasks[t].status in {Completed, Failed, Cancelled, Timeout} ==>
        Execute(actions).db.tasks[t].finishedAt.Some?
    decreases |actions|
  {
    hide StepTables, Inv, AllFinished, TasksStamped, Consistent;
    if actions == [] {
      NothingIsUnfinished();
    } else {
      var n := |actions| - 1;
      TerminalTasksAreFinished(actions[..n]);
      Reachable(actions[..n]);
      InvIsConsistent(Execute(actions[..n]));
      StepStamps(Execute(actions[..n]).db, Execute(actions[..n]).polls, actions[n], 0);
      NothingStampedAtAll(Execute(actions[..n]).db);
      StampedIsFinished(Execute(actions[..n]).db, Execute(actions).db, Clock.Reading(actions[n]).GetOr(0));
    }
    FinishedInColumns(Execute(actions).db);
  }

  lemma FinishedInColumns(d: Tables)
    requires AllFinished(d)
    ensures forall t | t in d.tasks ::
      d.tasks[t].status in {Completed, Failed, Cancelled, Timeout} ==> d.tasks[t].finishedAt.Some?
  {
  }

  lemma NothingStampedAtAll(d: Tables)
    ensures forall now :: TasksStamped(d, d, now)
  {
    forall now ensures TasksStamped(d, d, now) {
      NoRowStamped(d, d, now);
    }
  }

  lemma NothingIsUnfinished()
    ensures AllFinished(START.db)
  {
  }

  lemma InvIsConsistent(m: Machine)
    requires Inv(m)
    ensures Consistent(m.db)
  {
  }

  /** In every reachable state, a step that brings a task into a terminal status, or writes it again,
      stamps the task with that step's own reading; the revert of the blocking gate clears the stamp;
      and a step that writes no status leaves it alone. */
  lemma FinishIsTheStepsReading(actions: seq<Action>, a: Action, t: TaskId)
    requires t in Execute(actions).db.tasks
    ensures var m' := Step(Execute(actions), a);
      var k := Execute(actions).db.tasks[t];
      && t in m'.db.tasks
      && var k' := m'.db.tasks[t];
      && (k'.audit.trail == k.audit.trail ==> k'.finishedAt == k.finishedAt)
      && (k'.audit.trail != k.audit.trail && IsTerminal(k'.status) ==>
            Clock.Reading(a).Some? && k'.finishedAt == Clock.Reading(a))
      && (k'.audit.trail != k.audit.trail && LastMoveReverts(k') ==> k'.finishedAt == None)
  {
    hide StepTables, Inv, TasksStamped, Consistent;
    var m := Execute(actions);
    Reachable(actions);
    InvIsConsistent(m);
    StepStamps(m.db, m.polls, a, 0);
    StepStamps(m.db, m.polls, a, 1);
    TaskIsStamped(m.db, StepTables(m.db, m.polls, a), t, Clock.Reading(a).GetOr(0));
    TaskIsStamped(m.db, StepTables(m.db, m.polls, a), t, Clock.Reading(a).GetOr(1));
  }

  lemma TaskIsStamped(d: Tables, d': Tables, t: TaskId, now: Time)
    requires t in d.tasks && TasksStamped(d, d', now)
    ensures t in d'.tasks && Stamped(d.tasks[t], d'.tasks[t], now)
  {
  }
}
