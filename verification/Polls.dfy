/** What one terminal poll answer does to both tables, and what it overrides. */
module Polls {
  import opened Models
  import opened Notification
  import opened Tasks
  import opened Runs
  import opened Lives
  import opened CompletionGate
  import opened Lifecycle
  import opened TwoTables
  import opened Interleavings
  import opened Safety
  import Text

  function PolledVerdict(p: Poll): Status
    requires p.Vanished? || p.Ended?
  {
    if p.Vanished? then Timeout else VerdictOf(p.word)
  }

  /** The manager refused the verdict or its gate blocked it. */
  predicate MustForce(k: Task, verdict: Status, stdout: string, e: Env) {
    Mirror(k, verdict, stdout, e).outcome != Settled
  }

  lemma SyncWritesTheKey(d: Tables, t: TaskId, e: Env, r: RunId)
    requires t in d.tasks && d.tasks[t].RunKey() == Some(r)
    ensures var d' := Sync(d, t, e);
      r in d'.runs && d'.runs[r].status == d.tasks[t].status && d'.runs[r].task == Some(t)
  {
  }

  lemma SyncSparesOtherRows(d: Tables, t: TaskId, e: Env, r: RunId)
    requires t in d.tasks && r in d.runs && SyncTarget(d, t, e.pick) != Some(r)
    ensures r in Sync(d, t, e).runs && Sync(d, t, e).runs[r] == d.runs[r]
  {
  }

  /** One terminal answer settles the linked task whatever its status was, and the polled row
      shows the same verdict when the task went by that run or had to be forced. */
  lemma PersistSettles(d: Tables, r: RunId, seen: Run, verdict: Status, text: Option<string>, e: Env)
    requires IsTerminal(verdict) && seen.task.Some? && seen.task.value in d.tasks
    requires Sound(d.tasks[seen.task.value])
    ensures var t := seen.task.value;
      var d' := Persist(d, r, seen, verdict, text, e);
      var stdout := text.GetOr(seen.evidence.stdout);
      var forced := MustForce(d.tasks[t], verdict, stdout, e);
      && t in d'.tasks && r in d'.runs
      && (d'.tasks[t].status == Completed || d'.tasks[t].status == Failed)
      && (verdict != Completed ==> d'.tasks[t].status == Failed)
      && (forced ==> d'.tasks[t].status == Coarse(verdict) && d'.tasks[t].hermes == Some(r))
      && (forced || d.tasks[t].RunKey() == Some(r) ==>
            d'.runs[r].status == d'.tasks[t].status && d'.runs[r].task == Some(t))
      && (!forced && d.tasks[t].RunKey().Some? && d.tasks[t].RunKey() != Some(r) ==>
            d'.runs[r].status == verdict)
  {
    hide Complete, Close, ForceReconcile, Upsert, Sound, Sync, NewestLinked;
    var t := seen.task.value;
    var stdout := text.GetOr(seen.evidence.stdout);
    var w := Write(seen.executor, seen.task, verdict, Some(e.now), seen.evidence.(stdout := stdout));
    var d1 := PutRun(d, r, w, e.now);
    PutWritesTheRow(d, r, w, e.now);
    var k := d1.tasks[t];
    var reply := Mirror(k, verdict, stdout, e);
    MirrorShape(k, verdict, stdout, e);
    MirrorStatus(k, verdict, stdout, e);
    var mid := d1.(tasks := d1.tasks[t := reply.task]);
    var d2 := Post(d1, t, reply, e);
    SyncKeepsTasks(mid, t, e);
    if reply.outcome == Settled {
      if k.RunKey() == Some(r) {
        SyncWritesTheKey(mid, t, e, r);
      } else if k.RunKey().Some? {
        SyncSparesOtherRows(mid, t, e, r);
      } else {
        SyncNeverDeletes(mid, t, e);
      }
    } else {
      var f := ForceReconcile(d2.tasks[t], Some(r), Coarse(verdict), e, e.again);
      ForceSettles(d2.tasks[t], Some(r), Coarse(verdict), e, e.again);
      var last := d2.(tasks := d2.tasks[t := f.task]);
      SyncWritesTheKey(last, t, e, r);
      SyncKeepsTasks(last, t, e);
    }
  }

  /** A terminal answer ends the polled row, linked or not, whatever row the mirror writes. */
  lemma PersistEndsTheRow(d: Tables, r: RunId, seen: Run, verdict: Status, text: Option<string>, e: Env)
    requires IsTerminal(verdict)
    requires forall t | t in d.tasks :: Sound(d.tasks[t])
    ensures var d' := Persist(d, r, seen, verdict, text, e);
      r in d'.runs && IsTerminal(d'.runs[r].status)
  {
    hide Complete, Close, ForceReconcile, Upsert, Sound, Sync, NewestLinked;
    var stdout := text.GetOr(seen.evidence.stdout);
    var w := Write(seen.executor, seen.task, verdict, Some(e.now), seen.evidence.(stdout := stdout));
    var d1 := PutRun(d, r, w, e.now);
    PutWritesTheRow(d, r, w, e.now);
    if seen.task.Some? && seen.task.value in d1.tasks {
      var t := seen.task.value;
      var reply := Mirror(d1.tasks[t], verdict, stdout, e);
      MirrorShape(d1.tasks[t], verdict, stdout, e);
      MirrorStatus(d1.tasks[t], verdict, stdout, e);
      var mid := d1.(tasks := d1.tasks[t := reply.task]);
      var d2 := Post(d1, t, reply, e);
      if reply.outcome == Settled {
        SyncWritesTerminal(mid, t, e, r);
      } else {
        var f := ForceReconcile(d2.tasks[t], Some(r), Coarse(verdict), e, e.again);
        ForceSettles(d2.tasks[t], Some(r), Coarse(verdict), e, e.again);
        SyncWritesTerminal(d2.(tasks := d2.tasks[t := f.task]), t, e, r);
      }
    }
  }

  lemma SyncWritesTerminal(d: Tables, t: TaskId, e: Env, r: RunId)
    requires t in d.tasks && IsTerminal(d.tasks[t].status)
    requires r in d.runs && IsTerminal(d.runs[r].status)
    ensures r in Sync(d, t, e).runs && IsTerminal(Sync(d, t, e).runs[r].status)
  {
  }

  lemma PutWritesTheRow(d: Tables, r: RunId, w: Write, now: Time)
    ensures var d1 := PutRun(d, r, w, now);
      d1.tasks == d.tasks && r in d1.runs && d1.runs[r].status == w.status && d1.runs[r].task == w.task
  {
  }

  lemma SyncKeepsTasks(d: Tables, t: TaskId, e: Env)
    requires t in d.tasks
    ensures Sync(d, t, e).tasks == d.tasks
  {
  }

  lemma SyncNeverDeletes(d: Tables, t: TaskId, e: Env)
    requires t in d.tasks
    ensures forall r | r in d.runs :: r in Sync(d, t, e).runs
  {
  }

  lemma MirrorStatus(k: Task, verdict: Status, stdout: string, e: Env)
    requires Sound(k)
    ensures var x := Mirror(k, verdict, stdout, e);
      x.outcome == Settled ==>
        && (x.task.status == Completed || x.task.status == Failed)
        && (verdict != Completed ==> x.task.status == Failed)
        && x.task.RunKey() == k.RunKey()
  {
    CompleteShape(k, Call(OutputText(stdout), false), e);
    CloseShape(k, Failed, e);
  }

  /** The text a poll brings. */
  function PolledText(p: Poll): Option<string>
    requires p.Vanished? || p.Ended?
  {
    if p.Vanished? then None else Some(Text.Truncated(p.output))
  }

  /** The same for every reachable state and every snapshot taken on the way. */
  lemma TerminalPollSettlesBothTables(actions: seq<Action>, seen: Snap, p: Poll, stamp: bool, e: Env)
    requires seen in Execute(actions).polls && (p.Vanished? || p.Ended?)
    requires seen.row.task.Some? && seen.row.task.value in Execute(actions).db.tasks
    ensures var t := seen.row.task.value;
      var k := Execute(actions).db.tasks[t];
      var d' := Step(Execute(actions), PollAnswered(seen, p, stamp, e)).db;
      var verdict := PolledVerdict(p);
      var forced := MustForce(k, verdict, PolledText(p).GetOr(seen.row.evidence.stdout), e);
      && t in d'.tasks && seen.id in d'.runs
      && (d'.tasks[t].status == Completed || d'.tasks[t].status == Failed)
      && (verdict != Completed ==> d'.tasks[t].status == Failed)
      && (forced ==> d'.tasks[t].status == Coarse(verdict) && d'.tasks[t].hermes == Some(seen.id))
      && (forced || k.RunKey() == Some(seen.id) ==>
            d'.runs[seen.id].status == d'.tasks[t].status && d'.runs[seen.id].task == Some(t))
      && (!forced && k.RunKey().Some? && k.RunKey() != Some(seen.id) ==> d'.runs[seen.id].status == verdict)
      && (!IsLegal(k.status, Coarse(verdict)) ==> forced)
  {
    hide Persist, Mirror, Inv, Sound;
    Reachable(actions);
    var d := Execute(actions).db;
    var t := seen.row.task.value;
    ReachableRow(Execute(actions), t);
    var verdict := PolledVerdict(p);
    var text := PolledText(p);
    PersistSettles(d, seen.id, seen.row, verdict, text, e);
    RefusalForces(d.tasks[t], verdict, text.GetOr(seen.row.evidence.stdout), e);
  }

  lemma ReachableRow(m: Machine, t: TaskId)
    requires Inv(m) && t in m.db.tasks
    ensures Sound(m.db.tasks[t])
  {
  }

  lemma RefusalForces(k: Task, verdict: Status, stdout: string, e: Env)
    ensures !IsLegal(k.status, Coarse(verdict)) ==> MustForce(k, verdict, stdout, e)
  {
  }

  // ---- the blocking gate under a completed poll -----------------------------------------------

  /** What a completed poll makes of its task: a completion, and by force if that was not settled. */
  function PolledTask(k: Task, r: RunId, stdout: string, e: Env): Task {
    var x := Complete(k, Call(OutputText(stdout), false), e, 0);
    if x.outcome == Settled then x.task
    else ForceReconcile(x.task, Some(r), Completed, e, e.again).task
  }

  lemma PersistWritesThePolledTask(d: Tables, r: RunId, seen: Run, text: Option<string>, e: Env)
    requires seen.task.Some? && seen.task.value in d.tasks
    ensures var t := seen.task.value;
      var d' := Persist(d, r, seen, Completed, text, e);
      t in d'.tasks && d'.tasks[t] == PolledTask(d.tasks[t], r, text.GetOr(seen.evidence.stdout), e)
  {
    hide Complete, ForceReconcile, Upsert, Sync;
    var t := seen.task.value;
    var stdout := text.GetOr(seen.evidence.stdout);
    var w := Write(seen.executor, seen.task, Completed, Some(e.now), seen.evidence.(stdout := stdout));
    var d1 := PutRun(d, r, w, e.now);
    var x := Complete(d.tasks[t], Call(OutputText(stdout), false), e, 0);
    var mid := d1.(tasks := d1.tasks[t := x.task]);
    var d2 := Post(d1, t, x, e);
    SyncKeepsTasks(mid, t, e);
    var f := ForceReconcile(x.task, Some(r), Completed, e, e.again);
    SyncKeepsTasks(d2.(tasks := d2.tasks[t := f.task]), t, e);
  }

  /** Nothing stands between the task and `completed`: the manager would refuse, or the artifacts
      are there. */
  predicate NothingHolds(k: Task, e: Env) {
    !IsLegal(k.status, Completed) || Inspect(e.disk, 0, k.spec.declared, RescuesLeft(k)).passed
  }

  /** The forced verdict would send a notification, and a transport would confirm it. */
  predicate ForceWillConfirm(k: Task, e: Env) {
    ShouldFire(k.out.blob, Completed) && NotifyGate(k.out.blob, Completed, e.again).confirmed
  }

  /** The completion would be confirmed; or the manager would refuse it or be muted, and either an
      earlier delivery, of whatever verdict, stands or the forced one will be confirmed. */
  predicate WillBeFinal(k: Task, e: Env) {
    || (IsLegal(k.status, Completed) && NotifyGate(k.out.blob, Completed, e.net).confirmed)
    || ((!IsLegal(k.status, Completed) || e.net.muted)
        && (ConfirmedBlob(k.out.blob) || ForceWillConfirm(k, e)))
  }

  /** The same, with the earlier delivery one of the verdict completed. */
  predicate WillBeTold(k: Task, e: Env) {
    || (IsLegal(k.status, Completed) && NotifyGate(k.out.blob, Completed, e.net).confirmed)
    || ((!IsLegal(k.status, Completed) || e.net.muted)
        && (Deduped(k.out.blob, Completed) || ForceWillConfirm(k, e)))
  }

  lemma ForcedCompletion(k: Task, r: RunId, e: Env)
    ensures var k' := ForceReconcile(k, Some(r), Completed, e, e.again).task;
      && k'.status == Completed && LastMoveForced(k')
      && (ConfirmedBlob(k'.out.blob) <==> ConfirmedBlob(k.out.blob) || ForceWillConfirm(k, e))
      && (CompletionTold(k') <==> Deduped(k.out.blob, Completed) || ForceWillConfirm(k, e))
      && (ShouldFire(k.out.blob, Completed) || k'.audit.confirmed == k.audit.confirmed)
  {
    GateLeavesItsVerdict(k.out.blob, Completed, e.again);
  }

  /** What an unsettled completion leaves in the notification column. */
  lemma UnsettledRecord(k: Task, c: Call, e: Env)
    requires Sound(k) && NothingHolds(k, e)
    ensures var x := Complete(k, c, e, 0);
      && (x.outcome == Settled <==>
            IsLegal(k.status, Completed) && (!e.blocking || NotifyGate(k.out.blob, Completed, e.net).confirmed))
      && (!IsLegal(k.status, Completed) ==> x.task == k)
      && (IsLegal(k.status, Completed) ==> x.task.out.blob == NotifyGate(k.out.blob, Completed, e.net).blob)
      && (x.outcome == Settled ==> x.task.status == Completed)
  {
    if IsLegal(k.status, Completed) {
      var v := Inspect(e.disk, 0, k.spec.declared, RescuesLeft(k));
      SpentIsAffordable(e.disk, 0, k.spec.declared, RescuesLeft(k));
      DetoursAreSound(k, v.spent);
      FinishRecord(Detours(k, v.spent), if v.spent == 0 then c else Call(None, false), e, v.tick);
    }
  }

  lemma FinishRecord(k: Task, c: Call, e: Env, tick: nat)
    ensures var x := Finish(k, c, e, tick);
      && (x.outcome == Settled <==> !e.blocking || NotifyGate(k.out.blob, Completed, e.net).confirmed)
      && x.outcome != Refused
      && x.task.out.blob == NotifyGate(k.out.blob, Completed, e.net).blob
      && (x.outcome == Settled ==> x.task.status == Completed)
  {
    hide NotifyGate;
  }

  lemma HeldCompletionFails(k: Task, c: Call, e: Env)
    requires Sound(k) && !NothingHolds(k, e)
    ensures var x := Complete(k, c, e, 0); x.outcome == Settled && x.task.status == Failed
  {
    var v := Inspect(e.disk, 0, k.spec.declared, RescuesLeft(k));
    SpentIsAffordable(e.disk, 0, k.spec.declared, RescuesLeft(k));
    DetoursAreSound(k, v.spent);
  }

  /** With the gate on, for every task, disk and transports: a completed poll completes its task
      exactly when the manager refuses or the artifacts are there, and then the task has reached
      the final stage, or had its completion delivered, exactly as foreseen. Whenever that is not
      foreseen the gate is defeated. */
  lemma PolledGateExactly(k: Task, r: RunId, stdout: string, e: Env)
    requires Sound(k) && e.blocking
    ensures var k' := PolledTask(k, r, stdout, e);
      && (k'.status == Completed <==> NothingHolds(k, e))
      && (NothingHolds(k, e) ==>
            && (StageOf(k') == FinalCompleted <==> WillBeFinal(k, e))
            && (CompletionTold(k') <==> WillBeTold(k, e))
            && (WillBeFinal(k, e) || LastMoveForced(k')))
  {
    hide Complete, Inspect, NotifyGate, ForceReconcile;
    var c := Call(OutputText(stdout), false);
    var x := Complete(k, c, e, 0);
    GateLeavesItsVerdict(k.out.blob, Completed, e.net);
    if NothingHolds(k, e) {
      UnsettledRecord(k, c, e);
      ForcedCompletion(x.task, r, e);
      if IsLegal(k.status, Completed) && !e.net.muted {
        assert x.outcome == Settled || !ShouldFire(x.task.out.blob, Completed);
      }
    } else {
      HeldCompletionFails(k, c, e);
    }
  }

  /** The same of the persisted answer, and that an undelivered completion counts no delivery. */
  lemma PollMeetsTheGateExactly(d: Tables, r: RunId, seen: Run, text: Option<string>, e: Env)
    requires seen.task.Some? && seen.task.value in d.tasks && Sound(d.tasks[seen.task.value]) && e.blocking
    ensures var t := seen.task.value;
      var k := d.tasks[t];
      var d' := Persist(d, r, seen, Completed, text, e);
      && t in d'.tasks
      && (d'.tasks[t].status == Completed <==> NothingHolds(k, e))
      && (NothingHolds(k, e) ==>
            && (StageOf(d'.tasks[t]) == FinalCompleted <==> WillBeFinal(k, e))
            && (CompletionTold(d'.tasks[t]) <==> WillBeTold(k, e))
            && (WillBeFinal(k, e) || LastMoveForced(d'.tasks[t])))
  {
    hide Persist, PolledTask, NothingHolds, WillBeFinal, WillBeTold, Sound;
    PersistWritesThePolledTask(d, r, seen, text, e);
    PolledGateExactly(d.tasks[seen.task.value], r, text.GetOr(seen.evidence.stdout), e);
  }

  /** And in every reachable state, for every snapshot taken on the way. */
  lemma ReachablePollMeetsTheGateExactly(actions: seq<Action>, seen: Snap, p: Poll, stamp: bool, e: Env)
    requires seen in Execute(actions).polls && p.Ended? && VerdictOf(p.word) == Completed && e.blocking
    requires seen.row.task.Some? && seen.row.task.value in Execute(actions).db.tasks
    ensures var t := seen.row.task.value;
      var k := Execute(actions).db.tasks[t];
      var d' := Step(Execute(actions), PollAnswered(seen, p, stamp, e)).db;
      && t in d'.tasks
      && (d'.tasks[t].status == Completed <==> NothingHolds(k, e))
      && (NothingHolds(k, e) ==>
            && (StageOf(d'.tasks[t]) == FinalCompleted <==> WillBeFinal(k, e))
            && (CompletionTold(d'.tasks[t]) <==> WillBeTold(k, e)))
  {
    hide Persist, NothingHolds, WillBeFinal, WillBeTold, Inv, Sound;
    Reachable(actions);
    ReachableRow(Execute(actions), seen.row.task.value);
    PollMeetsTheGateExactly(Execute(actions).db, seen.id, seen.row, Some(Text.Truncated(p.output)), e);
  }

  /** A completion now would pass the artifacts and be blocked for want of a confirmed delivery. */
  predicate WouldBlock(k: Task, e: Env) {
    && Sound(k) && IsLegal(k.status, Completed)
    && Inspect(e.disk, 0, k.spec.declared, RescuesLeft(k)).passed
    && e.blocking && !e.net.muted && !NotifyGate(k.out.blob, Completed, e.net).confirmed
  }

  /** In particular every unmuted completion the gate would block is completed all the same, and no
      delivery is made for it. */
  lemma PollBypassesTheBlockingGate(d: Tables, r: RunId, seen: Run, text: Option<string>, e: Env)
    requires seen.task.Some? && seen.task.value in d.tasks
    requires WouldBlock(d.tasks[seen.task.value], e)
    ensures var t := seen.task.value;
      var d' := Persist(d, r, seen, Completed, text, e);
      && t in d'.tasks
      && d'.tasks[t].status == Completed
      && StageOf(d'.tasks[t]) != FinalCompleted && LastMoveForced(d'.tasks[t])
      && d'.tasks[t].audit.confirmed == d.tasks[t].audit.confirmed
  {
    hide Persist, Inspect, Complete, ForceReconcile, NotifyGate;
    var k := d.tasks[seen.task.value];
    var stdout := text.GetOr(seen.evidence.stdout);
    var c := Call(OutputText(stdout), false);
    var x := Complete(k, c, e, 0);
    PollMeetsTheGateExactly(d, r, seen, text, e);
    PersistWritesThePolledTask(d, r, seen, text, e);
    BlockedExactly(k, c, e, 0);
    UnsettledRecord(k, c, e);
    GateLeavesItsVerdict(k.out.blob, Completed, e.net);
    ForcedCompletion(x.task, r, e);
  }

  /** `POST /runs` writes a running row even when the task left the queue during the submit, for
      instance by a cancel: row and task then show the same status exactly when the start was
      accepted, and the next terminal poll has to force the task. */
  lemma RefusedStartDiverges(d: Tables, t: TaskId, r: RunId, adapter: Executor, e: Env)
    requires t in d.tasks && FreshRun(d, r)
    ensures var d' := Dispatch(d, t, r, PostRuns(adapter), Running, e);
      var k' := d'.tasks[t];
      && k'.external == Some(r) && r in d'.runs && d'.runs[r].task == Some(t)
      && (d'.runs[r].status == k'.status <==> d.tasks[t].status == Running || IsLegal(d.tasks[t].status, Running))
      && (k'.hermes == Some(r) <==> IsLegal(d.tasks[t].status, Running))
  {
    assert d.tasks[t].hermes == Some(r) ==> Carrier(d.tasks, t, r);
  }
}
