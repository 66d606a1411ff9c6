/** Blocking mode over whole runs, and how tight the delivery bound is. */
module Blocking {
  import opened Models
  import opened Notification
  import opened Tasks
  import opened Runs
  import opened Lives
  import opened CompletionGate
  import opened Lifecycle
  import opened TwoTables
  import opened Interleavings
  import opened Safety
  import Text

  /** The gate is on whenever the step may complete a task. */
  predicate Gated(a: Action) {
    match a
    case Finished(_, _, e) => e.blocking
    case PollAnswered(_, _, _, e) => e.blocking
    case _ => true
  }

  ghost predicate AllTruthful(d: Tables) {
    forall t | t in d.tasks :: Truthful(d.tasks[t])
  }

  lemma PostIsTruthful(d: Tables, t: TaskId, reply: Reply, e: Env)
    requires AllTruthful(d) && Truthful(reply.task)
    ensures AllTruthful(Post(d, t, reply, e))
  {
    PostWritesOneTask(d, t, reply, e);
  }

  lemma ForceIsTruthful(k: Task, run: Option<RunId>, verdict: Status, e: Env, net: Net)
    requires Truthful(k)
    ensures Truthful(ForceReconcile(k, run, verdict, e, net).task)
  {
  }

  lemma CloseIsTruthful(k: Task, to: Status, e: Env)
    requires Truthful(k) && to != Completed
    ensures Truthful(Close(k, to, e, 0).task)
  {
  }

  lemma MirrorIsTruthful(k: Task, verdict: Status, stdout: string, e: Env)
    requires Sound(k) && Truthful(k) && e.blocking
    ensures Truthful(Mirror(k, verdict, stdout, e).task)
  {
    BlockingCompleteIsTruthful(k, Call(OutputText(stdout), false), e, 0);
    CloseIsTruthful(k, Failed, e);
  }

  lemma PersistIsTruthful(d: Tables, r: RunId, seen: Run, verdict: Status, text: Option<string>, e: Env)
    requires Consistent(d) && AllTruthful(d) && e.blocking
    ensures AllTruthful(Persist(d, r, seen, verdict, text, e))
  {
    hide Consistent, Truthful, Post, Mirror, ForceReconcile, Upsert;
    var stdout := text.GetOr(seen.evidence.stdout);
    var w := Write(seen.executor, seen.task, verdict, Some(e.now), seen.evidence.(stdout := stdout));
    var d1 := PutRun(d, r, w, e.now);
    if seen.task.Some? && seen.task.value in d1.tasks {
      var t := seen.task.value;
      SoundRow(d, t);
      var reply := Mirror(d1.tasks[t], verdict, stdout, e);
      MirrorIsTruthful(d1.tasks[t], verdict, stdout, e);
      PostIsTruthful(d1, t, reply, e);
      var d2 := Post(d1, t, reply, e);
      PostWritesOneTask(d1, t, reply, e);
      ForceIsTruthful(d2.tasks[t], Some(r), Coarse(verdict), e, e.again);
      PostIsTruthful(d2, t, ForceReconcile(d2.tasks[t], Some(r), Coarse(verdict), e, e.again), e);
    }
  }

  lemma OneRowIsTruthful(d: Tables, t: TaskId, k: Task)
    requires AllTruthful(d) && Truthful(k)
    ensures AllTruthful(d.(tasks := d.tasks[t := k]))
  {
  }

  lemma RowsAreTruthful(d: Tables, polls: set<Snap>, a: Action)
    requires AllTruthful(d)
    requires a.Create? || a.Requeue? || a.Report? || a.Claimed? || a.Submitted?
    ensures AllTruthful(StepTables(d, polls, a))
  {
    hide FreshRun, Upsert;
    match a
    case Create(t, spec, adapter, rescues, queued) =>
      OneRowIsTruthful(d, t, Fresh(spec.(maxRescues := ClampRescues(rescues)), adapter, queued));
    case Requeue(t) =>
      if t in d.tasks { OneRowIsTruthful(d, t, Queue(d.tasks[t]).0); }
    case Report(t, pct) =>
      if t in d.tasks { OneRowIsTruthful(d, t, Progress(d.tasks[t], pct).0); }
    case Claimed(ticket, token) =>
      if ticket.task in d.tasks {
        OneRowIsTruthful(d, ticket.task, Claim(d.tasks[ticket.task], ticket.worker, token).0);
      }
    case Submitted(t, r, route, reported, e) =>
      if t in d.tasks && FreshRun(d, r) {
        var started := Start(d.tasks[t], r).0;
        OneRowIsTruthful(d, t, started);
        OneRowIsTruthful(d, t, started.(external := Some(r), adapter := if route.PostRuns? then route.adapter else started.adapter));
      }
  }

  lemma StepIsTruthful(d: Tables, polls: set<Snap>, a: Action)
    requires Consistent(d) && AllTruthful(d) && Gated(a)
    ensures AllTruthful(StepTables(d, polls, a))
  {
    hide Truthful, Consistent, Post, Dispatch, Complete, Close, ForceReconcile, Persist, Upsert;
    hide Heartbeat, Sweep, FreshRun, OwnRun;
    match a
    case SubmitRejected(t, e) =>
      if t in d.tasks {
        var w := Write(Hermes, Some(t), Failed, Some(e.now), NO_EVIDENCE);
        ForceIsTruthful(d.tasks[t], None, Failed, e, e.net);
        PostIsTruthful(PutRun(d, SubmitFailed, w, e.now), t, ForceReconcile(d.tasks[t], None, Failed, e, e.net), e);
      }
    case Finished(t, c, e) =>
      if t in d.tasks {
        SoundRow(d, t);
        BlockingCompleteIsTruthful(d.tasks[t], c, e, 0);
        PostIsTruthful(d, t, Complete(d.tasks[t], c, e, 0), e);
      }
    case Closed(t, to, e) =>
      if t in d.tasks && (to.Failed? || to.Timeout? || to.Cancelled?) {
        CloseIsTruthful(d.tasks[t], to, e);
        PostIsTruthful(d, t, Close(d.tasks[t], to, e, 0), e);
      }
    case Forced(t, run, verdict, e) =>
      if t in d.tasks && OwnRun(d, t, run) {
        ForceIsTruthful(d.tasks[t], run, verdict, e, e.net);
        PostIsTruthful(d, t, ForceReconcile(d.tasks[t], run, verdict, e, e.net), e);
      }
    case PollAnswered(seen, p, stamp, e) =>
      if seen in polls && p.Vanished? {
        PersistIsTruthful(d, seen.id, seen.row, Timeout, None, e);
      } else if seen in polls && p.Ended? {
        PersistIsTruthful(d, seen.id, seen.row, VerdictOf(p.word), Some(Text.Truncated(p.output)), e);
      }
    case SubmittedUnlinked(r, executor, reported, e) =>
    case SubmitRejectedUnlinked(e) =>
    case Beaten(r, e) =>
    case Cleaned(maxAge, e) =>
    case Read(r) =>
    case Found(_, _, _, _) =>
    case _ => RowsAreTruthful(d, polls, a);
  }

  /** With the gate on throughout, a completed task is finally completed, its delivery confirmed,
      unless its completion was forced. */
  lemma {:induction false} BlockingModeIsTruthful(actions: seq<Action>)
    requires forall i | 0 <= i < |actions| :: Gated(actions[i])
    ensures AllTruthful(Execute(actions).db)
    ensures forall t | t in Execute(actions).db.tasks && Execute(actions).db.tasks[t].status == Completed ::
      var k := Execute(actions).db.tasks[t];
      || (StageOf(k) == FinalCompleted && ConfirmedBlob(k.out.blob) && k.out.blob.value.status == Completed)
      || (k.audit.trail.Moved? && k.audit.trail.how == Force)
    decreases |actions|
  {
    hide StepTables, Inv, AllTruthful, Consistent;
    if actions == [] {
      NothingIsUntruthful();
    } else {
      var n := |actions| - 1;
      BlockingModeIsTruthful(actions[..n]);
      Reachable(actions[..n]);
      InvIsConsistent(Execute(actions[..n]));
      StepIsTruthful(Execute(actions[..n]).db, Execute(actions[..n]).polls, actions[n]);
    }
    TruthInColumns(Execute(actions).db);
  }

  lemma TruthInColumns(d: Tables)
    requires AllTruthful(d)
    ensures forall t | t in d.tasks && d.tasks[t].status == Completed ::
      || (StageOf(d.tasks[t]) == FinalCompleted && ConfirmedBlob(d.tasks[t].out.blob)
          && d.tasks[t].out.blob.value.status == Completed)
      || (d.tasks[t].audit.trail.Moved? && d.tasks[t].audit.trail.how == Force)
  {
  }

  lemma NothingIsUntruthful()
    ensures AllTruthful(START.db)
  {
  }

  lemma InvIsConsistent(m: Machine)
    requires Inv(m)
    ensures Consistent(m.db)
  {
  }

  // ---- the delivery bound is attained -----------------------------------------------------

  /** A world whose gateway confirms every send. */
  const TALKATIVE := Env(0, Net(false, Answer(true, Some(1)), false, Answer(false, None)),
                         Net(true, Answer(false, None), false, Answer(false, None)), SubmitFailed, false,
                         (i: nat, p: string) => false, false)

  const ONLY: TaskId := "TASK"

  /** The life that fails and times out by turns, requeued in between. */
  function Restless(rounds: nat): seq<Action> {
    if rounds == 0 then
      [Create(ONLY, Spec([], 0, 50, 0, [], true), Hermes, None, true), Closed(ONLY, Failed, TALKATIVE)]
    else
      Restless(rounds - 1)
      + [Requeue(ONLY), Closed(ONLY, if rounds % 2 == 0 then Failed else Timeout, TALKATIVE)]
  }

  lemma ExecuteTwo(actions: seq<Action>, a: Action, b: Action)
    ensures Execute(actions + [a, b]) == Step(Step(Execute(actions), a), b)
  {
    hide Step;
    ExecuteOne(actions, a);
    ExecuteOne(actions + [a], b);
    assert actions + [a, b] == actions + [a] + [b];
  }

  /** What one more failure or timeout leaves of a job whose last delivery was confirmed for
      another verdict, or that has none. */
  lemma AnotherDelivery(k: Task, to: Status)
    requires IsLegal(k.status, to) && (to == Failed || to == Timeout)
    requires !Deduped(k.out.blob, to)
    ensures var k' := Close(k, to, TALKATIVE, 0).task;
      && k'.status == to && k'.audit.confirmed == k.audit.confirmed + 1
      && k'.audit.requeues == k.audit.requeues
      && ConfirmedBlob(k'.out.blob) && k'.out.blob.value.status == to
  {
  }

  lemma ClosingStep(m: Machine, to: Status)
    requires ONLY in m.db.tasks && (to == Failed || to == Timeout)
    ensures var d := Step(m, Closed(ONLY, to, TALKATIVE)).db;
      ONLY in d.tasks && d.tasks[ONLY] == Close(m.db.tasks[ONLY], to, TALKATIVE, 0).task
  {
    hide Close, Sync;
    PostWritesOneTask(m.db, ONLY, Close(m.db.tasks[ONLY], to, TALKATIVE, 0), TALKATIVE);
  }

  /** The state after that many rounds. */
  predicate OneAhead(m: Machine, rounds: nat) {
    && ONLY in m.db.tasks
    && var k := m.db.tasks[ONLY];
    && k.audit.requeues == rounds && k.audit.confirmed == rounds + 1
    && k.status == (if rounds % 2 == 0 then Failed else Timeout)
    && ConfirmedBlob(k.out.blob) && k.out.blob.value.status == k.status
  }

  lemma FirstRound()
    ensures OneAhead(Execute(Restless(0)), 0)
  {
    var spec := Spec([], 0, 50, 0, [], true);
    var create := Create(ONLY, spec, Hermes, None, true);
    ExecuteTwo([], create, Closed(ONLY, Failed, TALKATIVE));
    assert [] + [create, Closed(ONLY, Failed, TALKATIVE)] == Restless(0);
    var m := Step(START, create);
    assert m.db.tasks[ONLY] == Fresh(spec.(maxRescues := ClampRescues(None)), Hermes, true);
    ClosingStep(m, Failed);
    AnotherDelivery(m.db.tasks[ONLY], Failed);
  }

  lemma NextRound(m: Machine, rounds: nat)
    requires OneAhead(m, rounds)
    ensures var to := if (rounds + 1) % 2 == 0 then Failed else Timeout;
      OneAhead(Step(Step(m, Requeue(ONLY)), Closed(ONLY, to, TALKATIVE)), rounds + 1)
  {
    hide Close;
    var to := if (rounds + 1) % 2 == 0 then Failed else Timeout;
    var mid := Step(m, Requeue(ONLY));
    assert mid.db.tasks[ONLY] == Queue(m.db.tasks[ONLY]).0;
    ClosingStep(mid, to);
    AnotherDelivery(mid.db.tasks[ONLY], to);
  }

  /** For every number of requeues there is a run in which the task gets one confirmed delivery
      more than it was requeued: the bound of one delivery per life is exact. */
  lemma {:induction false} DeliveryBoundIsAttained(rounds: nat)
    ensures var d := Execute(Restless(rounds)).db;
      && ONLY in d.tasks
      && d.tasks[ONLY].audit.requeues == rounds
      && d.tasks[ONLY].audit.confirmed == rounds + 1
    ensures OneAhead(Execute(Restless(rounds)), rounds)
    decreases rounds
  {
    hide Step;
    if rounds == 0 {
      FirstRound();
    } else {
      DeliveryBoundIsAttained(rounds - 1);
      NextRound(Execute(Restless(rounds - 1)), rounds - 1);
      var to := if rounds % 2 == 0 then Failed else Timeout;
      ExecuteTwo(Restless(rounds - 1), Requeue(ONLY), Closed(ONLY, to, TALKATIVE));
    }
  }
}
