/** The other direction of the agreement: a run that is over has ended its task. */
module EndedRuns {
  import opened Models
  import opened Notification
  import opened Tasks
  import opened Runs
  import opened Lives
  import opened Lifecycle
  import opened TwoTables
  import opened Interleavings
  import opened Safety
  import opened Polls
  import Text

  /** When the run the task goes by is over, so is the task, unless it was requeued since. */
  predicate EndsItsTask(d: Tables, t: TaskId)
    requires t in d.tasks
  {
    var k := d.tasks[t];
    k.hermes.Some? && k.hermes.value in d.runs && IsTerminal(d.runs[k.hermes.value].status)
    ==> IsTerminal(k.status) || k.audit.requeues > 0
  }

  ghost predicate AllEnd(d: Tables) {
    forall t | t in d.tasks :: EndsItsTask(d, t)
  }

  /** The task and the status of the run it goes by are untouched. */
  predicate Untouched(d: Tables, d': Tables, u: TaskId) {
    && u in d.tasks && u in d'.tasks && d'.tasks[u] == d.tasks[u]
    && (d.tasks[u].hermes.Some? ==>
          && (d.tasks[u].hermes.value in d'.runs <==> d.tasks[u].hermes.value in d.runs)
          && (d.tasks[u].hermes.value in d.runs ==>
                d'.runs[d.tasks[u].hermes.value].status == d.runs[d.tasks[u].hermes.value].status))
  }

  /** Every task but one is untouched. */
  ghost predicate Spares(d: Tables, d': Tables, t: Option<TaskId>) {
    && (forall u | u in d.tasks && t != Some(u) :: Untouched(d, d', u))
    && (forall u | u in d'.tasks && t != Some(u) :: u in d.tasks)
  }

  lemma SparedEnd(d: Tables, d': Tables, t: Option<TaskId>)
    requires AllEnd(d) && Spares(d, d', t)
    requires t.Some? && t.value in d'.tasks ==> EndsItsTask(d', t.value)
    ensures AllEnd(d')
  {
    forall u | u in d'.tasks ensures EndsItsTask(d', u) {
      assert t != Some(u) ==> Untouched(d, d', u) && EndsItsTask(d, u);
    }
  }

  lemma SparesTransitively(a: Tables, b: Tables, c: Tables, t: Option<TaskId>)
    requires Spares(a, b, t) && Spares(b, c, t)
    ensures Spares(a, c, t)
  {
    forall u | u in a.tasks && t != Some(u) ensures Untouched(a, c, u) {
      assert Untouched(a, b, u) && Untouched(b, c, u);
    }
  }

  /** Writing a row that at most the task `t` carries spares all others. */
  lemma PutSpares(d: Tables, r: RunId, w: Write, now: Time, t: Option<TaskId>)
    requires forall u | Carrier(d.tasks, u, r) :: t == Some(u)
    ensures Spares(d, PutRun(d, r, w, now), t)
  {
    var d' := PutRun(d, r, w, now);
    forall u | u in d.tasks && t != Some(u) ensures Untouched(d, d', u) {
      assert d.tasks[u].hermes == Some(r) ==> Carrier(d.tasks, u, r);
    }
  }

  /** A sync keeps ownership and spares all other tasks, whatever the status it mirrors. */
  lemma SyncSpares(d: Tables, t: TaskId, e: Env)
    requires Owned(d) && t in d.tasks
    ensures Owned(Sync(d, t, e)) && Spares(d, Sync(d, t, e), Some(t))
  {
    hide Owned, Upsert, NewestLinked, SyncTarget;
    var target := SyncTarget(d, t, e.pick);
    if target.Some? {
      TargetIsOwn(d, t, e);
      var k := d.tasks[t];
      var w := Write(k.adapter, Some(t), k.status, None, NO_EVIDENCE);
      PutKeepsOwned(d, target.value, w, e.now);
      PutSpares(d, target.value, w, e.now, Some(t));
    }
  }

  lemma PostSpares(d: Tables, t: TaskId, reply: Reply, e: Env)
    requires Owned(d) && t in d.tasks && CarriesNoMore(d, t, reply.task)
    ensures Owned(Post(d, t, reply, e)) && Spares(d, Post(d, t, reply, e), Some(t))
  {
    hide Owned, CarriesNoMore, Sync;
    var mid := d.(tasks := d.tasks[t := reply.task]);
    ReplacingKeepsOwned(d, t, reply.task);
    SyncSpares(mid, t, e);
    assert Spares(d, mid, Some(t));
    SparesTransitively(d, mid, Sync(mid, t, e), Some(t));
  }

  /** A manager call that ends the task when it is settled, and otherwise leaves its run alone. */
  lemma PostEnds(d: Tables, t: TaskId, reply: Reply, e: Env)
    requires Owned(d) && AllEnd(d) && t in d.tasks && CarriesNoMore(d, t, reply.task)
    requires reply.outcome == Settled ==> IsTerminal(reply.task.status)
    requires reply.outcome != Settled ==>
      && reply.task.hermes == d.tasks[t].hermes
      && reply.task.audit.requeues >= d.tasks[t].audit.requeues
      && (IsTerminal(d.tasks[t].status) ==> IsTerminal(reply.task.status))
    ensures AllEnd(Post(d, t, reply, e))
  {
    hide Owned, CarriesNoMore, Sync;
    PostSpares(d, t, reply, e);
    assert EndsItsTask(d, t);
    var mid := d.(tasks := d.tasks[t := reply.task]);
    SyncKeepsTasks(mid, t, e);
    SparedEnd(d, Post(d, t, reply, e), Some(t));
  }

  lemma SameRunCarriesNoMore(d: Tables, t: TaskId, k: Task)
    requires t in d.tasks && k.hermes == d.tasks[t].hermes && k.external == d.tasks[t].external
    ensures CarriesNoMore(d, t, k)
  {
    forall r | k.Carries(r) ensures Carrier(d.tasks, t, r) {
    }
  }

  /** A call of complete, fail, timeout or cancel. */
  lemma CallEnds(d: Tables, t: TaskId, reply: Reply, e: Env)
    requires Consistent(d) && AllEnd(d) && t in d.tasks
    requires CallShape(d.tasks[t], reply) && Advances(d.tasks[t], reply.task)
    requires reply.outcome == Blocked ==> !IsTerminal(d.tasks[t].status)
    ensures AllEnd(Post(d, t, reply, e))
  {
    hide Post, AllEnd, CarriesNoMore, Owned;
    SameRunCarriesNoMore(d, t, reply.task);
    PostEnds(d, t, reply, e);
  }

  lemma ForcedCarriesNoMore(d: Tables, t: TaskId, run: Option<RunId>, verdict: Status, e: Env, net: Net)
    requires t in d.tasks && OwnRun(d, t, run)
    ensures CarriesNoMore(d, t, ForceReconcile(d.tasks[t], run, verdict, e, net).task)
  {
    var k' := ForceReconcile(d.tasks[t], run, verdict, e, net).task;
    ForceSettles(d.tasks[t], run, verdict, e, net);
    forall r | k'.Carries(r)
      ensures Carrier(d.tasks, t, r) || (r != SubmitFailed && r in d.runs && d.runs[r].task == Some(t))
    {
      assert k'.hermes == Some(r) || d.tasks[t].external == Some(r);
      assert k'.hermes == run || k'.hermes == d.tasks[t].hermes;
    }
  }

  lemma ForceEnds(d: Tables, t: TaskId, run: Option<RunId>, verdict: Status, e: Env, net: Net)
    requires Owned(d) && AllEnd(d) && t in d.tasks && OwnRun(d, t, run)
    ensures AllEnd(Post(d, t, ForceReconcile(d.tasks[t], run, verdict, e, net), e))
  {
    hide Post, AllEnd, CarriesNoMore, Owned, OwnRun, ForceReconcile;
    ForceSettles(d.tasks[t], run, verdict, e, net);
    ForcedCarriesNoMore(d, t, run, verdict, e, net);
    PostEnds(d, t, ForceReconcile(d.tasks[t], run, verdict, e, net), e);
  }

  // ---- a persisted answer --------------------------------------------------------------------

  /** Persisting a verdict spares every task but the linked one. */
  lemma PersistSpares(d: Tables, r: RunId, seen: Run, verdict: Status, text: Option<string>, e: Env)
    requires Consistent(d) && r != SubmitFailed && r in d.runs && d.runs[r].task == seen.task
    requires IsTerminal(verdict)
    ensures Spares(d, Persist(d, r, seen, verdict, text, e), seen.task)
  {
    hide Consistent, Owned, Post, Mirror, ForceReconcile, Upsert, CarriesNoMore, Sound, Spares, OwnRun;
    var stdout := text.GetOr(seen.evidence.stdout);
    var w := Write(seen.executor, seen.task, verdict, Some(e.now), seen.evidence.(stdout := stdout));
    var d1 := PutRun(d, r, w, e.now);
    OnlyTheLinkCarries(d, r);
    PutSpares(d, r, w, e.now, seen.task);
    VerdictRowKeeps(d, r, w, e.now);
    if seen.task.Some? && seen.task.value in d1.tasks {
      var t := seen.task.value;
      SoundRow(d, t);
      var reply := Mirror(d1.tasks[t], verdict, stdout, e);
      MirrorShape(d1.tasks[t], verdict, stdout, e);
      SameRunCarriesNoMore(d1, t, reply.task);
      PostSpares(d1, t, reply, e);
      var d2 := Post(d1, t, reply, e);
      SparesTransitively(d, d1, d2, seen.task);
      if reply.outcome != Settled {
        UnsettledLeavesRuns(d1, t, reply, e);
        PutLinks(d, r, w, e.now, t);
        assert OwnRun(d2, t, Some(r)) by {
          OwnRunFrom(d1, d2, t, r);
        }
        ForcedCarriesNoMore(d2, t, Some(r), Coarse(verdict), e, e.again);
        var f := ForceReconcile(d2.tasks[t], Some(r), Coarse(verdict), e, e.again);
        PostSpares(d2, t, f, e);
        SparesTransitively(d, d2, Post(d2, t, f, e), seen.task);
      }
    }
  }

  lemma OnlyTheLinkCarries(d: Tables, r: RunId)
    requires Consistent(d) && r in d.runs
    ensures forall u | Carrier(d.tasks, u, r) :: d.runs[r].task == Some(u)
  {
  }

  lemma UnsettledLeavesRuns(d: Tables, t: TaskId, reply: Reply, e: Env)
    requires reply.outcome != Settled
    ensures Post(d, t, reply, e) == d.(tasks := d.tasks[t := reply.task])
  {
  }

  lemma PutLinks(d: Tables, r: RunId, w: Write, now: Time, t: TaskId)
    requires w.task == Some(t)
    ensures r in PutRun(d, r, w, now).runs && PutRun(d, r, w, now).runs[r].task == Some(t)
  {
  }

  lemma OwnRunFrom(d: Tables, d': Tables, t: TaskId, r: RunId)
    requires d'.runs == d.runs && r != SubmitFailed && r in d.runs && d.runs[r].task == Some(t)
    ensures OwnRun(d', t, Some(r))
  {
  }

  lemma PersistEnds(d: Tables, r: RunId, seen: Run, verdict: Status, text: Option<string>, e: Env)
    requires Consistent(d) && r != SubmitFailed && r in d.runs && d.runs[r].task == seen.task
    requires AllEnd(d) && IsTerminal(verdict)
    ensures AllEnd(Persist(d, r, seen, verdict, text, e))
  {
    hide Persist, Consistent, Spares, AllEnd;
    PersistSpares(d, r, seen, verdict, text, e);
    var d' := Persist(d, r, seen, verdict, text, e);
    if seen.task.Some? && seen.task.value in d.tasks {
      SoundRow(d, seen.task.value);
      PersistSettles(d, r, seen, verdict, text, e);
    } else {
      UnknownTaskStaysUnknown(d, r, seen, verdict, text, e);
    }
    SparedEnd(d, d', seen.task);
  }

  lemma UnknownTaskStaysUnknown(d: Tables, r: RunId, seen: Run, verdict: Status, text: Option<string>, e: Env)
    requires seen.task.None? || seen.task.value !in d.tasks
    ensures Persist(d, r, seen, verdict, text, e).tasks == d.tasks
  {
  }

  lemma AnswerEnds(d: Tables, polls: set<Snap>, seen: Snap, p: Poll, stamp: bool, e: Env)
    requires Consistent(d) && AllEnd(d) && SnapsOk(d, polls) && seen in polls
    ensures AllEnd(Answered(d, seen.id, seen.row, p, stamp, e))
  {
    hide Persist, Consistent, AllEnd, Heartbeat;
    match p
    case Transient =>
    case Alive => BeatEnds(d, seen.id, e.now);
    case Vanished => PersistEnds(d, seen.id, seen.row, Timeout, None, e);
    case Ended(word, output) =>
      PersistEnds(d, seen.id, seen.row, VerdictOf(word), Some(Text.Truncated(output)), e);
  }

  lemma BeatEnds(d: Tables, r: RunId, now: Time)
    requires AllEnd(d)
    ensures AllEnd(d.(runs := Heartbeat(d.runs, r, now)))
  {
    var d' := d.(runs := Heartbeat(d.runs, r, now));
    forall t | t in d'.tasks ensures EndsItsTask(d', t) {
      assert EndsItsTask(d, t);
    }
  }

  /** A sweep ends only rows without a task, which nobody goes by. */
  lemma SweepEnds(d: Tables, maxAge: int, now: Time)
    requires Consistent(d) && AllEnd(d)
    ensures AllEnd(d.(runs := Sweep(d.runs, maxAge, now)))
  {
    var d' := d.(runs := Sweep(d.runs, maxAge, now));
    forall t | t in d'.tasks ensures EndsItsTask(d', t) {
      assert EndsItsTask(d, t);
      var k := d.tasks[t];
      if k.hermes.Some? && k.hermes.value in d.runs {
        assert Carrier(d.tasks, t, k.hermes.value);
      }
    }
  }

  // ---- operations on one row -------------------------------------------------------------------

  lemma RowEnds(d: Tables, t: TaskId, k: Task)
    requires AllEnd(d) && t in d.tasks && k.hermes == d.tasks[t].hermes
    requires k.audit.requeues >= d.tasks[t].audit.requeues
    requires IsTerminal(d.tasks[t].status) ==> IsTerminal(k.status) || k.audit.requeues > 0
    ensures AllEnd(d.(tasks := d.tasks[t := k]))
  {
    var d' := d.(tasks := d.tasks[t := k]);
    forall u | u in d'.tasks ensures EndsItsTask(d', u) {
      assert EndsItsTask(d, u);
    }
  }

  lemma CreationEnds(d: Tables, t: TaskId, k: Task)
    requires AllEnd(d) && t !in d.tasks && k.hermes.None?
    ensures AllEnd(d.(tasks := d.tasks[t := k]))
  {
    var d' := d.(tasks := d.tasks[t := k]);
    forall u | u in d'.tasks ensures EndsItsTask(d', u) {
      assert u != t ==> EndsItsTask(d, u);
    }
  }

  /** A run nobody carries may be recorded in any status. */
  lemma UncarriedEnds(d: Tables, r: RunId, w: Write, now: Time)
    requires AllEnd(d) && forall u | u in d.tasks :: !Carrier(d.tasks, u, r)
    ensures AllEnd(PutRun(d, r, w, now))
  {
    hide Upsert;
    PutSpares(d, r, w, now, None);
    SparedEnd(d, PutRun(d, r, w, now), None);
  }

  lemma FailuresAreUncarried(d: Tables)
    requires Consistent(d)
    ensures forall u | u in d.tasks :: !Carrier(d.tasks, u, SubmitFailed)
  {
  }

  // ---- dispatch ------------------------------------------------------------------------------

  /** The submit reports a run that is over, the task starts, and it was never requeued. */
  predicate StartsOnEnded(k: Task, route: Route, reported: Status) {
    route.PostExecutor? && IsTerminal(reported) && IsLegal(k.status, Running) && k.audit.requeues == 0
  }

  /** A dispatch breaks the promise exactly when it starts a task that was never requeued on a run
      reported over: such a row is polled by nobody. */
  lemma DispatchEndsExactly(d: Tables, t: TaskId, r: RunId, route: Route, reported: Status, e: Env)
    requires AllEnd(d) && t in d.tasks && FreshRun(d, r)
    ensures AllEnd(Dispatch(d, t, r, route, reported, e)) <==> !StartsOnEnded(d.tasks[t], route, reported)
  {
    var d' := Dispatch(d, t, r, route, reported, e);
    forall u | u in d'.tasks && u != t ensures EndsItsTask(d', u) {
      assert EndsItsTask(d, u);
      assert !Carrier(d.tasks, u, r);
    }
    assert EndsItsTask(d, t);
    assert !Carrier(d.tasks, t, r);
    assert EndsItsTask(d', t) <==> !StartsOnEnded(d.tasks[t], route, reported);
  }

  // ---- every run -------------------------------------------------------------------------------

  /** No submit reports a run that is over already. */
  predicate ReportsOpen(a: Action) {
    a.Submitted? && a.route.PostExecutor? ==> !IsTerminal(a.reported)
  }

  lemma CompleteEnds(d: Tables, t: TaskId, c: Call, e: Env)
    requires Consistent(d) && AllEnd(d) && t in d.tasks
    ensures AllEnd(Post(d, t, Complete(d.tasks[t], c, e, 0), e))
  {
    hide Post, AllEnd, Consistent, Advances, Sound;
    SoundRow(d, t);
    CompleteShape(d.tasks[t], c, e);
    CompleteIsSound(d.tasks[t], c, e, 0);
    CallEnds(d, t, Complete(d.tasks[t], c, e, 0), e);
  }

  lemma CloseEnds(d: Tables, t: TaskId, to: Status, e: Env)
    requires Consistent(d) && AllEnd(d) && t in d.tasks && (to.Failed? || to.Timeout? || to.Cancelled?)
    ensures AllEnd(Post(d, t, Close(d.tasks[t], to, e, 0), e))
  {
    hide Post, AllEnd, Consistent, Advances, Sound;
    SoundRow(d, t);
    CloseShape(d.tasks[t], to, e);
    CloseIsSound(d.tasks[t], to, e, 0);
    CallEnds(d, t, Close(d.tasks[t], to, e, 0), e);
  }

  lemma RejectionEnds(d: Tables, t: TaskId, e: Env)
    requires Consistent(d) && AllEnd(d) && t in d.tasks
    ensures AllEnd(SubmitRaised(d, t, e))
  {
    hide Post, AllEnd, ForceReconcile, Upsert, Keeps;
    FailuresAreUncarried(d);
    UncarriedEnds(d, SubmitFailed, Write(Hermes, Some(t), Failed, Some(e.now), NO_EVIDENCE), e.now);
    FailedRowKeeps(d, Some(t), e);
    KeepsIsOwned(d, PutFailed(d, Some(t), e));
    ForceEnds(PutFailed(d, Some(t), e), t, None, Failed, e, e.net);
  }

  lemma KeepsIsOwned(d: Tables, d': Tables)
    requires Keeps(d, d')
    ensures Owned(d')
  {
  }

  lemma StepEnds(d: Tables, polls: set<Snap>, a: Action)
    requires Consistent(d) && SnapsOk(d, polls) && AllEnd(d) && ReportsOpen(a)
    ensures AllEnd(StepTables(d, polls, a))
  {
    hide AllEnd, SnapsOk, Post, Dispatch, PutRun, SubmitRaised, Answered, Heartbeat, Sweep, OwnRun, FreshRun;
    hide Complete, Close, ForceReconcile, Consistent;
    match a
    case Create(t, spec, adapter, rescues, queued) =>
      if t !in d.tasks { CreationEnds(d, t, Fresh(spec.(maxRescues := ClampRescues(rescues)), adapter, queued)); }
    case Requeue(t) =>
      if t in d.tasks { RowEnds(d, t, Queue(d.tasks[t]).0); }
    case Submitted(t, r, route, reported, e) =>
      if t in d.tasks && FreshRun(d, r) { DispatchEndsExactly(d, t, r, route, reported, e); }
    case SubmittedUnlinked(r, executor, reported, e) =>
      if FreshRun(d, r) { UnlinkedEnds(d, r, executor, reported, e); }
    case SubmitRejected(t, e) =>
      if t in d.tasks { RejectionEnds(d, t, e); }
    case SubmitRejectedUnlinked(e) =>
      FailuresAreUncarried(d);
      UncarriedEnds(d, SubmitFailed, Write(Hermes, None, Failed, Some(e.now), NO_EVIDENCE), e.now);
    case Report(t, pct) =>
      if t in d.tasks { RowEnds(d, t, Progress(d.tasks[t], pct).0); }
    case Finished(t, c, e) =>
      if t in d.tasks { CompleteEnds(d, t, c, e); }
    case Closed(t, to, e) =>
      if t in d.tasks && (to.Failed? || to.Timeout? || to.Cancelled?) { CloseEnds(d, t, to, e); }
    case Forced(t, run, verdict, e) =>
      if t in d.tasks && OwnRun(d, t, run) { ConsistentIsOwned(d); ForceEnds(d, t, run, verdict, e, e.net); }
    case Read(r) =>
    case PollAnswered(seen, p, stamp, e) =>
      if seen in polls { AnswerEnds(d, polls, seen, p, stamp, e); }
    case Beaten(r, e) => BeatEnds(d, r, e.now);
    case Cleaned(maxAge, e) => SweepEnds(d, maxAge, e.now);
    case Found(_, _, _, _) =>
    case Claimed(ticket, token) =>
      if ticket.task in d.tasks { RowEnds(d, ticket.task, Claim(d.tasks[ticket.task], ticket.worker, token).0); }
  }

  lemma ConsistentIsOwned(d: Tables)
    requires Consistent(d)
    ensures Owned(d)
  {
  }

  lemma UnlinkedEnds(d: Tables, r: RunId, executor: Executor, reported: Status, e: Env)
    requires AllEnd(d) && FreshRun(d, r)
    ensures AllEnd(PutRun(d, r, Write(executor, None, reported, Some(e.now), NO_EVIDENCE), e.now))
  {
    hide AllEnd, Upsert;
    UncarriedEnds(d, r, Write(executor, None, reported, Some(e.now), NO_EVIDENCE), e.now);
  }

  lemma {:induction false} RunsEndTheirTasks(actions: seq<Action>)
    requires forall i | 0 <= i < |actions| :: ReportsOpen(actions[i])
    ensures AllEnd(Execute(actions).db)
    decreases |actions|
  {
    hide StepTables, AllEnd, Inv, Consistent, SnapsOk, ReportsOpen;
    if actions == [] {
      NothingEnds();
    } else {
      var n := |actions| - 1;
      RunsEndTheirTasks(actions[..n]);
      Reachable(actions[..n]);
      InvParts(Execute(actions[..n]));
      StepEnds(Execute(actions[..n]).db, Execute(actions[..n]).polls, actions[n]);
    }
  }

  lemma NothingEnds()
    ensures AllEnd(START.db)
  {
  }

  lemma InvParts(m: Machine)
    requires Inv(m)
    ensures Consistent(m.db) && SnapsOk(m.db, m.polls)
  {
  }

  /** Over every interleaving in which no submit reports a run over: once the run a task goes by is
      terminal, the task is terminal or was requeued; and for a task never requeued, as soon as
      either of task and run is terminal, both show the same status. */
  lemma TablesAgreeBothWays(actions: seq<Action>, t: TaskId)
    requires forall i | 0 <= i < |actions| :: ReportsOpen(actions[i])
    requires t in Execute(actions).db.tasks
    ensures var d := Execute(actions).db;
      var k := d.tasks[t];
      && EndsItsTask(d, t)
      && (k.hermes.Some? && k.hermes.value in d.runs && k.audit.requeues == 0
          && (IsTerminal(k.status) || IsTerminal(d.runs[k.hermes.value].status)) ==>
            d.runs[k.hermes.value].status == k.status && d.runs[k.hermes.value].task == Some(t))
  {
    RunsEndTheirTasks(actions);
    TablesAgree(actions, t);
  }
}
