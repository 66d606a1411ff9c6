/** The cross-table invariant over every interleaving. */
module TwoTables {
  import opened Models
  import opened Notification
  import opened Tasks
  import opened Runs
  import opened Lives
  import opened CompletionGate
  import opened Lifecycle

  /** A run id is carried by one task only, and a row under a carried id is linked to that task. */
  ghost predicate Owned(d: Tables) {
    && (forall t, r | Carrier(d.tasks, t, r) ::
          r != SubmitFailed && (r in d.runs ==> d.runs[r].task == Some(t)))
    && (forall t, u, r | Carrier(d.tasks, t, r) && Carrier(d.tasks, u, r) :: t == u)
  }

  /** What the two tables agree on for one task. */
  predicate Agrees(d: Tables, t: TaskId)
    requires t in d.tasks
  {
    var k := d.tasks[t];
    IsTerminal(k.status) && k.hermes.Some? ==>
      && k.hermes.value in d.runs
      && d.runs[k.hermes.value].task == Some(t)
      && d.runs[k.hermes.value].status == k.status
  }

  ghost predicate Agreement(d: Tables) {
    forall t | t in d.tasks :: Agrees(d, t)
  }

  ghost predicate AgreementExcept(d: Tables, t: TaskId) {
    forall u | u in d.tasks && u != t :: Agrees(d, u)
  }

  /** Rows are never deleted, keep their creation time and their task link, and never leave the
      terminal statuses. Only the constant id of failed submits is relinked, and its row is
      born terminal. */
  ghost predicate Grows(runs: Table, runs': Table) {
    && (forall r | r in runs ::
          && r in runs'
          && runs'[r].created == runs[r].created
          && (IsTerminal(runs[r].status) ==> IsTerminal(runs'[r].status))
          && (r != SubmitFailed ==> runs'[r].task == runs[r].task))
    && (SubmitFailed in runs' && SubmitFailed !in runs ==> IsTerminal(runs'[SubmitFailed].status))
  }

  /** A snapshot is of a row that still exists under its link. */
  ghost predicate SnapsOk(d: Tables, polls: set<Snap>) {
    forall s | s in polls ::
      s.id != SubmitFailed && s.id in d.runs && d.runs[s.id].task == s.row.task
  }

  lemma SnapsSurvive(d: Tables, d': Tables, polls: set<Snap>)
    requires SnapsOk(d, polls) && Grows(d.runs, d'.runs)
    ensures SnapsOk(d', polls)
  {
  }

  /** The new row of `t` carries nothing but what it carried, or a run linked to `t`. */
  ghost predicate CarriesNoMore(d: Tables, t: TaskId, k: Task)
    requires t in d.tasks
  {
    forall r | k.Carries(r) ::
      Carrier(d.tasks, t, r) || (r != SubmitFailed && r in d.runs && d.runs[r].task == Some(t))
  }

  lemma ReplacingKeepsOwned(d: Tables, t: TaskId, k: Task)
    requires Owned(d) && t in d.tasks && CarriesNoMore(d, t, k)
    ensures Owned(d.(tasks := d.tasks[t := k]))
  {
    var d1 := d.(tasks := d.tasks[t := k]);
    forall u, r | Carrier(d1.tasks, u, r)
      ensures Carrier(d.tasks, u, r)
        || (u == t && r != SubmitFailed && r in d.runs && d.runs[r].task == Some(t))
    {
      assert u == t ==> k.Carries(r);
      assert u != t ==> Carrier(d.tasks, u, r);
    }
  }

  /** The row lifecycle sync writes for `t` is carried by no other task. */
  lemma TargetIsOwn(d: Tables, t: TaskId, e: Env)
    requires Owned(d) && t in d.tasks && SyncTarget(d, t, e.pick).Some?
    ensures var r := SyncTarget(d, t, e.pick).value;
      && (r in d.runs ==> d.runs[r].task == Some(t))
      && (forall u | Carrier(d.tasks, u, r) :: u == t && r != SubmitFailed)
  {
    var r := SyncTarget(d, t, e.pick).value;
    assert d.tasks[t].RunKey() == Some(r) ==> Carrier(d.tasks, t, r);
  }

  /** Syncing a terminal task makes it agree and disturbs no other. */
  lemma SyncAgrees(d: Tables, t: TaskId, e: Env)
    requires Owned(d) && t in d.tasks && AgreementExcept(d, t)
    requires IsTerminal(d.tasks[t].status)
    ensures var d' := Sync(d, t, e);
      && d'.tasks == d.tasks && Owned(d') && Agreement(d') && Grows(d.runs, d'.runs)
  {
    var d' := Sync(d, t, e);
    if SyncTarget(d, t, e.pick).Some? {
      TargetIsOwn(d, t, e);
      var r := SyncTarget(d, t, e.pick).value;
      forall u | u in d'.tasks && u != t ensures Agrees(d', u) {
        assert Agrees(d, u);
        assert Carrier(d.tasks, u, r) || d.tasks[u].hermes != Some(r);
      }
      var k := d.tasks[t];
      PutKeepsOwned(d, r, Write(k.adapter, Some(t), k.status, None, NO_EVIDENCE), e.now);
    }
  }

  /** A manager operation keeps ownership and agreement. */
  lemma PostAgrees(d: Tables, t: TaskId, reply: Reply, e: Env)
    requires Owned(d) && t in d.tasks && AgreementExcept(d, t)
    requires CarriesNoMore(d, t, reply.task)
    requires reply.outcome == Settled ==> IsTerminal(reply.task.status)
    requires reply.outcome != Settled ==> !IsTerminal(reply.task.status) || (reply.task == d.tasks[t] && Agrees(d, t))
    ensures var d' := Post(d, t, reply, e);
      && d'.tasks == d.tasks[t := reply.task]
      && Owned(d') && Agreement(d') && Grows(d.runs, d'.runs)
  {
    var d1 := d.(tasks := d.tasks[t := reply.task]);
    ReplacingKeepsOwned(d, t, reply.task);
    assert AgreementExcept(d1, t) by {
      forall u | u in d1.tasks && u != t ensures Agrees(d1, u) {
        assert Agrees(d, u);
      }
    }
    if reply.outcome == Settled {
      SyncAgrees(d1, t, e);
    }
  }

  /** Writing a row nobody carries, or re-writing a carried row's link, keeps ownership. */
  lemma PutKeepsOwned(d: Tables, r: RunId, w: Write, now: Time)
    requires Owned(d)
    requires forall t | Carrier(d.tasks, t, r) :: w.task == Some(t)
    ensures Owned(PutRun(d, r, w, now))
  {
  }

  /** A row nobody's terminal status rests on may be written. */
  lemma PutAgrees(d: Tables, r: RunId, w: Write, now: Time)
    requires Agreement(d)
    requires forall t | t in d.tasks :: d.tasks[t].hermes != Some(r)
    ensures Agreement(PutRun(d, r, w, now))
  {
    var d' := PutRun(d, r, w, now);
    forall t | t in d'.tasks ensures Agrees(d', t) {
      assert Agrees(d, t);
    }
  }

  ghost predicate Consistent(d: Tables) {
    Owned(d) && Agreement(d) && forall t | t in d.tasks :: Sound(d.tasks[t])
  }

  /** What a row-only operation keeps: it leaves the run ids alone and ends no task. */
  lemma RowOnlyKeeps(d: Tables, t: TaskId, k: Task)
    requires Consistent(d) && t in d.tasks && Sound(k)
    requires k.hermes == d.tasks[t].hermes && k.external == d.tasks[t].external
    requires !IsTerminal(k.status) || k.status == d.tasks[t].status
    ensures Consistent(d.(tasks := d.tasks[t := k]))
  {
    var d' := d.(tasks := d.tasks[t := k]);
    ReplacingKeepsOwned(d, t, k);
    forall u | u in d'.tasks ensures Agrees(d', u) {
      assert Agrees(d, u);
    }
  }

  /** Giving `t` a run nobody has seen keeps ownership, with or without a row linked to it. */
  lemma AttachKeepsOwned(d: Tables, t: TaskId, k: Task, runs: Table, run: Option<RunId>)
    requires Owned(d) && (run.Some? ==> FreshRun(d, run.value))
    requires forall r | k.Carries(r) :: run == Some(r) || Carrier(d.tasks, t, r)
    requires forall r | r in runs && run != Some(r) :: r in d.runs && runs[r] == d.runs[r]
    requires run.Some? && run.value in runs ==> runs[run.value].task == Some(t)
    ensures Owned(Tables(d.tasks[t := k], runs))
  {
    var d' := Tables(d.tasks[t := k], runs);
    forall u, r | Carrier(d'.tasks, u, r)
      ensures (u == t && run == Some(r)) || (Carrier(d.tasks, u, r) && run != Some(r))
    {
      assert u != t ==> Carrier(d.tasks, u, r);
    }
  }

  lemma CreateKeeps(d: Tables, t: TaskId, k: Task)
    requires Consistent(d) && t !in d.tasks && Sound(k) && k.hermes.None? && k.external.None?
    ensures Consistent(d.(tasks := d.tasks[t := k]))
  {
    var d' := d.(tasks := d.tasks[t := k]);
    AttachKeepsOwned(d, t, k, d'.runs, None);
    forall u | u in d'.tasks ensures Agrees(d', u) {
      assert u != t ==> Agrees(d, u);
    }
  }

  lemma DispatchAgrees(d: Tables, t: TaskId, r: RunId, route: Route, reported: Status, e: Env)
    requires Owned(d) && Agreement(d) && t in d.tasks && FreshRun(d, r)
    ensures Agreement(Dispatch(d, t, r, route, reported, e))
  {
    var d' := Dispatch(d, t, r, route, reported, e);
    forall u | u in d'.tasks ensures Agrees(d', u) {
      assert Agrees(d, u);
      assert Carrier(d.tasks, u, r) || d.tasks[u].hermes != Some(r);
    }
  }

  lemma DispatchKeeps(d: Tables, t: TaskId, r: RunId, route: Route, reported: Status, e: Env)
    requires Consistent(d) && t in d.tasks && FreshRun(d, r)
    ensures var d' := Dispatch(d, t, r, route, reported, e);
      Consistent(d') && Grows(d.runs, d'.runs)
  {
    var d' := Dispatch(d, t, r, route, reported, e);
    StartIsSound(d.tasks[t], r);
    assert Sound(d'.tasks[t]);
    DispatchAgrees(d, t, r, route, reported, e);
    AttachKeepsOwned(d, t, d'.tasks[t], d'.runs, Some(r));
  }

  lemma ForceSettles(k: Task, run: Option<RunId>, verdict: Status, e: Env, net: Net)
    ensures var f := ForceReconcile(k, run, verdict, e, net);
      && (f.outcome == Settled <==> verdict == Completed || verdict == Failed)
      && (f.outcome == Settled ==> f.task.status == verdict)
      && (f.outcome != Settled ==> f.task == k)
      && (f.outcome == Settled && run.Some? ==> f.task.hermes == run)
      && (run.None? ==> f.task.hermes == k.hermes)
      && f.task.external == k.external
  {
  }

  lemma ForceKeeps(d: Tables, t: TaskId, run: Option<RunId>, verdict: Status, e: Env, net: Net)
    requires Owned(d) && t in d.tasks && AgreementExcept(d, t) && OwnRun(d, t, run)
    requires verdict == Completed || verdict == Failed || Agrees(d, t)
    requires forall u | u in d.tasks :: Sound(d.tasks[u])
    ensures var d' := Post(d, t, ForceReconcile(d.tasks[t], run, verdict, e, net), e);
      Consistent(d') && Grows(d.runs, d'.runs)
  {
    var f := ForceReconcile(d.tasks[t], run, verdict, e, net);
    ForceIsSound(d.tasks[t], run, verdict, e, net);
    ForceSettles(d.tasks[t], run, verdict, e, net);
    PostAgrees(d, t, f, e);
  }

  /** Another terminal task goes by the run a sync of `t` would write. */
  predicate Bystander(d: Tables, t: TaskId, target: Option<RunId>, u: TaskId) {
    u in d.tasks && u != t && IsTerminal(d.tasks[u].status) && d.tasks[u].hermes.Some? && d.tasks[u].hermes == target
  }

  lemma TerminalSyncAgreesExactly(d: Tables, t: TaskId, e: Env)
    requires t in d.tasks && IsTerminal(d.tasks[t].status) && AgreementExcept(d, t)
    ensures Agreement(Sync(d, t, e)) <==> !exists u :: Bystander(d, t, SyncTarget(d, t, e.pick), u)
  {
    var d' := Sync(d, t, e);
    var target := SyncTarget(d, t, e.pick);
    forall u | u in d'.tasks ensures Agrees(d', u) <==> !Bystander(d, t, target, u) {
      assert u != t ==> Agrees(d, u);
    }
  }

  /** A forced reconcile takes any run id from its caller. The tables still agree afterwards exactly
      when no other terminal task goes by the run that is written. */
  lemma ForceAgreesExactly(d: Tables, t: TaskId, run: Option<RunId>, verdict: Status, e: Env, net: Net)
    requires Agreement(d) && t in d.tasks && (verdict == Completed || verdict == Failed)
    ensures var reply := ForceReconcile(d.tasks[t], run, verdict, e, net);
      var target := SyncTarget(d.(tasks := d.tasks[t := reply.task]), t, e.pick);
      Agreement(Post(d, t, reply, e)) <==> !exists u :: Bystander(d, t, target, u)
  {
    hide Sync, NewestLinked, ForceReconcile, SyncTarget;
    var reply := ForceReconcile(d.tasks[t], run, verdict, e, net);
    ForceSettles(d.tasks[t], run, verdict, e, net);
    var mid := d.(tasks := d.tasks[t := reply.task]);
    forall u | u in mid.tasks && u != t ensures Agrees(mid, u) {
      assert Agrees(d, u);
    }
    TerminalSyncAgreesExactly(mid, t, e);
    var target := SyncTarget(mid, t, e.pick);
    assert forall u :: Bystander(mid, t, target, u) <==> Bystander(d, t, target, u);
  }

  /** What a manager operation may answer: a terminal status, a task left running, or a refusal
      without a trace; the run ids stay. */
  ghost predicate CallShape(k: Task, x: Reply) {
    && x.task.hermes == k.hermes && x.task.external == k.external && Sound(x.task)
    && (x.outcome == Settled ==> IsTerminal(x.task.status))
    && (x.outcome == Blocked ==> x.task.status == Running)
    && (x.outcome == Refused ==> x.task == k)
  }

  lemma CompleteShape(k: Task, c: Call, e: Env)
    requires Sound(k)
    ensures CallShape(k, Complete(k, c, e, 0))
    ensures Complete(k, c, e, 0).outcome == Refused <==> !IsLegal(k.status, Completed)
    ensures Complete(k, c, e, 0).outcome == Settled
      ==> Complete(k, c, e, 0).task.status == Completed || Complete(k, c, e, 0).task.status == Failed
  {
    CompleteIsSound(k, c, e, 0);
    if IsLegal(k.status, Completed) {
      GateIsSound(k, c, e, 0);
    }
  }

  lemma CloseShape(k: Task, to: Status, e: Env)
    requires Sound(k) && (to == Failed || to == Timeout || to == Cancelled)
    ensures CallShape(k, Close(k, to, e, 0))
    ensures Close(k, to, e, 0).outcome == Refused <==> !IsLegal(k.status, to)
    ensures Close(k, to, e, 0).outcome == Settled <==> IsLegal(k.status, to)
    ensures Close(k, to, e, 0).outcome == Settled ==> Close(k, to, e, 0).task.status == to
  {
    CloseIsSound(k, to, e, 0);
  }

  lemma MirrorShape(k: Task, verdict: Status, stdout: string, e: Env)
    requires Sound(k)
    ensures CallShape(k, Mirror(k, verdict, stdout, e))
  {
    CompleteShape(k, Call(OutputText(stdout), false), e);
    CloseShape(k, Failed, e);
  }

  lemma ManagerCallKeeps(d: Tables, t: TaskId, reply: Reply, e: Env)
    requires Consistent(d) && t in d.tasks && CallShape(d.tasks[t], reply)
    ensures var d' := Post(d, t, reply, e);
      Consistent(d') && Grows(d.runs, d'.runs)
  {
    assert Agrees(d, t);
    PostAgrees(d, t, reply, e);
  }

  /** A run row that takes a verdict disturbs at most the task it is linked to. */
  lemma VerdictRowKeeps(d: Tables, r: RunId, w: Write, now: Time)
    requires Consistent(d) && r != SubmitFailed && r in d.runs && d.runs[r].task == w.task
    requires IsTerminal(w.status)
    ensures var d1 := PutRun(d, r, w, now);
      && Owned(d1) && Grows(d.runs, d1.runs)
      && forall u | u in d1.tasks && w.task != Some(u) :: Agrees(d1, u)
  {
    var d1 := PutRun(d, r, w, now);
    PutKeepsOwned(d, r, w, now);
    forall u | u in d1.tasks && w.task != Some(u) ensures Agrees(d1, u) {
      assert Agrees(d, u);
      assert Carrier(d.tasks, u, r) || d.tasks[u].hermes != Some(r);
    }
  }

  /** A manager call followed, unless it settled, by a forced reconcile onto the task's own run. */
  lemma MirrorKeeps(d: Tables, t: TaskId, r: RunId, reply: Reply, verdict: Status, e: Env)
    requires Owned(d) && t in d.tasks && AgreementExcept(d, t) && OwnRun(d, t, Some(r))
    requires forall u | u in d.tasks :: Sound(d.tasks[u])
    requires CallShape(d.tasks[t], reply) && (verdict == Completed || verdict == Failed)
    ensures var d2 := Post(d, t, reply, e);
      if reply.outcome == Settled then Consistent(d2) && Grows(d.runs, d2.runs)
      else var d3 := Post(d2, t, ForceReconcile(d2.tasks[t], Some(r), verdict, e, e.again), e);
        Consistent(d3) && Grows(d.runs, d3.runs)
  {
    var d2 := Post(d, t, reply, e);
    if reply.outcome == Settled {
      PostAgrees(d, t, reply, e);
    } else {
      ReplacingKeepsOwned(d, t, reply.task);
      assert AgreementExcept(d2, t) by {
        forall u | u in d2.tasks && u != t ensures Agrees(d2, u) {
          assert Agrees(d, u);
        }
      }
      ForceKeeps(d2, t, Some(r), verdict, e, e.again);
    }
  }

  /** The terminal reconciliation of a run nobody's snapshot misattributes. */
  lemma PersistKeeps(d: Tables, r: RunId, seen: Run, verdict: Status, text: Option<string>, e: Env)
    requires Consistent(d) && r != SubmitFailed && r in d.runs && d.runs[r].task == seen.task
    requires IsTerminal(verdict)
    ensures var d' := Persist(d, r, seen, verdict, text, e);
      Consistent(d') && Grows(d.runs, d'.runs)
  {
    var stdout := text.GetOr(seen.evidence.stdout);
    var w := Write(seen.executor, seen.task, verdict, Some(e.now), seen.evidence.(stdout := stdout));
    var d1 := PutRun(d, r, w, e.now);
    VerdictRowKeeps(d, r, w, e.now);
    if seen.task.Some? && seen.task.value in d1.tasks {
      var t := seen.task.value;
      MirrorShape(d1.tasks[t], verdict, stdout, e);
      MirrorKeeps(d1, t, r, Mirror(d1.tasks[t], verdict, stdout, e), Coarse(verdict), e);
    }
  }
}
