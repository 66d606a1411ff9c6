/** The task manager as the service has it: rows rewritten in place step by step, `complete` and
    the rescue calling each other. Every method is proved against the functions of Tasks and
    Lifecycle. */
module Managers {
  import opened Models
  import opened Notification
  import opened Tasks
  import opened Runs
  import opened RunStores
  import opened Lifecycle

  /** Entering the gate again after a successful rescue is entering it once with the whole
      budget: the mutual recursion of `complete` and the rescue unfolds into `Inspect`. */
  lemma RescueUnfolds(k: Task, c: Call, e: Env, tick: nat)
    requires IsLegal(k.status, Completed) && RescuesLeft(k) > 0
    requires var missing := Missing(e.disk, tick, k.spec.declared);
      && missing != []
      && Missing(e.disk, tick + |k.spec.declared|, missing) == []
    ensures var missing := Missing(e.disk, tick, k.spec.declared);
      Tasks.Complete(k, c, e, tick)
      == Tasks.Complete(Rescued(k), Call(None, false), e, tick + |k.spec.declared| + |missing|)
  {
    hide Finish, Close;
    var next := tick + |k.spec.declared| + |Missing(e.disk, tick, k.spec.declared)|;
    assert RescuesLeft(Rescued(k)) == RescuesLeft(k) - 1;
    var v := Inspect(e.disk, next, k.spec.declared, RescuesLeft(k) - 1);
    assert Inspect(e.disk, tick, k.spec.declared, RescuesLeft(k)) == v.(spent := v.spent + 1);
    assert Detours(k, v.spent + 1) == Detours(Rescued(k), v.spent);
  }

  /** A rescue whose re-check still misses something fails the task. */
  lemma RescueGivesUp(k: Task, c: Call, e: Env, tick: nat)
    requires IsLegal(k.status, Completed) && RescuesLeft(k) > 0
    requires var missing := Missing(e.disk, tick, k.spec.declared);
      && missing != []
      && Missing(e.disk, tick + |k.spec.declared|, missing) != []
    ensures var missing := Missing(e.disk, tick, k.spec.declared);
      Tasks.Complete(k, c, e, tick)
      == Tasks.Close(Rescued(k), Failed, e, tick + |k.spec.declared| + |missing|)
  {
    hide Close;
    assert Detours(k, 1) == Detours(Rescued(k), 0) == Rescued(k);
  }

  /** Nothing missing: the gate is passed. */
  lemma GatePasses(k: Task, c: Call, e: Env, tick: nat)
    requires IsLegal(k.status, Completed) && Missing(e.disk, tick, k.spec.declared) == []
    ensures Tasks.Complete(k, c, e, tick) == Finish(k, c, e, tick + |k.spec.declared|)
  {
    assert Detours(k, 0) == k;
  }

  /** Something missing and no rescue left: the task fails. */
  lemma GateFails(k: Task, c: Call, e: Env, tick: nat)
    requires IsLegal(k.status, Completed) && Missing(e.disk, tick, k.spec.declared) != []
    requires RescuesLeft(k) == 0
    ensures Tasks.Complete(k, c, e, tick) == Tasks.Close(k, Failed, e, tick + |k.spec.declared|)
  {
    assert Detours(k, 0) == k;
  }

  lemma MissingStep(disk: Disk, tick: nat, paths: seq<string>, i: nat, missing: seq<string>)
    requires i < |paths|
    ensures missing + Missing(disk, tick, paths[i..])
      == (if disk(tick, paths[i]) then missing else missing + [paths[i]]) + Missing(disk, tick + 1, paths[i + 1..])
  {
    assert paths[i..][0] == paths[i] && paths[i..][1..] == paths[i + 1..];
  }

  /** The stat loop of the gate and of the rescue. */
  method CollectMissing(disk: Disk, tick: nat, paths: seq<string>) returns (missing: seq<string>, clock: nat)
    ensures missing == Missing(disk, tick, paths)
    ensures clock == tick + |paths|
  {
    hide Missing;
    missing, clock := [], tick;
    ghost var all := Missing(disk, tick, paths);
    assert paths[0..] == paths;
    for i := 0 to |paths|
      invariant clock == tick + i
      invariant missing + Missing(disk, clock, paths[i..]) == all
    {
      MissingStep(disk, clock, paths, i, missing);
      if !disk(clock, paths[i]) {
        missing := missing + [paths[i]];
      }
      clock := clock + 1;
    }
    NothingToMiss(disk, clock, paths[|paths|..]);
  }

  lemma NothingToMiss(disk: Disk, tick: nat, paths: seq<string>)
    requires paths == []
    ensures Missing(disk, tick, paths) == []
  {
  }

  /** `notify_terminal_with_fallback`, then the in-process second chance. */
  method SendThroughChain(net: Net) returns (record: Answer)
    ensures record == Attempt(net)
  {
    record := Answer(net.legacy, None);
    if net.gateway.sent && net.gateway.mid.Some? {
      record := net.gateway;
    }
    if !(record.sent && record.mid.Some?) {
      var inprocess := net.inprocess;
      if inprocess.sent && inprocess.mid.Some? {
        record := inprocess;
      }
    }
  }

  /** Only the last row of one task counts. */
  lemma PostOverwrites(d: Tables, t: TaskId, k: Task, reply: Reply, e: Env)
    requires t in d.tasks
    ensures Post(d.(tasks := d.tasks[t := k]), t, reply, e) == Post(d, t, reply, e)
  {
    assert d.tasks[t := k][t := reply.task] == d.tasks[t := reply.task];
  }

  lemma RefusalChangesNothing(d: Tables, t: TaskId, tick: nat, e: Env)
    requires t in d.tasks
    ensures Post(d, t, Reply(d.tasks[t], Refused, tick), e) == d
  {
    assert d.tasks[t := d.tasks[t]] == d.tasks;
  }

  class TaskManager {
    var tasks: map<TaskId, Task>
    const store: RunStore

    ghost function View(): Tables
      reads this, store
    {
      Tables(tasks, store.rows)
    }

    constructor (store: RunStore)
      ensures this.store == store && tasks == map[]
    {
      this.store := store;
      tasks := map[];
    }

    /** An id already present violates the primary key. */
    method Create(t: TaskId, spec: Spec, adapter: Executor, rescues: Option<int>, queued: bool) returns (created: bool)
      modifies this
      ensures View() == StepTables(old(View()), {}, Action.Create(t, spec, adapter, rescues, queued))
      ensures created <==> t !in old(tasks)
    {
      if t in tasks {
        return false;
      }
      var budget: nat := DEFAULT_MAX_RESCUES;
      match rescues {
        case None =>
        case Some(n) =>
          var clamped := if n < MAX_RESCUES_CAP then n else MAX_RESCUES_CAP;
          budget := if 0 < clamped then clamped else 0;
      }
      var status := if queued then Queued else Pending;
      tasks := tasks[t := Task(spec.(maxRescues := budget), status, if queued then 5 else 0, None, None, None,
                               adapter, 0, None, None, Output(None, false, None), Audit(Born(status), 0, 0, 0))];
      return true;
    }

    /** `_set_status` with the target queued. */
    method Queue(t: TaskId) returns (outcome: Outcome)
      modifies this
      ensures t in old(tasks) ==>
        tasks == old(tasks)[t := Tasks.Queue(old(tasks)[t]).0] && outcome == Tasks.Queue(old(tasks)[t]).1
      ensures t !in old(tasks) ==> tasks == old(tasks) && outcome == Refused
    {
      if t !in tasks {
        return Refused;
      }
      var from := tasks[t].status;
      if from == Queued {
        return Settled;
      }
      if !IsLegal(from, Queued) {
        return Refused;
      }
      tasks := tasks[t := tasks[t].To(Queued, Edge)];
      if IsTerminal(from) {
        tasks := tasks[t := tasks[t].(audit := tasks[t].audit.(requeues := tasks[t].audit.requeues + 1))];
      }
      return Settled;
    }

    method Start(t: TaskId, r: RunId) returns (outcome: Outcome)
      modifies this
      ensures t in old(tasks) ==>
        tasks == old(tasks)[t := Tasks.Start(old(tasks)[t], r).0] && outcome == Tasks.Start(old(tasks)[t], r).1
      ensures t !in old(tasks) ==> tasks == old(tasks) && outcome == Refused
    {
      if t !in tasks || !IsLegal(tasks[t].status, Running) {
        return Refused;
      }
      tasks := tasks[t := tasks[t].To(Running, Edge).(hermes := Some(r))];
      return Settled;
    }

    method Progress(t: TaskId, pct: int) returns (outcome: Outcome)
      modifies this
      ensures t in old(tasks) ==>
        tasks == old(tasks)[t := Tasks.Progress(old(tasks)[t], pct).0]
        && outcome == Tasks.Progress(old(tasks)[t], pct).1
      ensures t !in old(tasks) ==> tasks == old(tasks) && outcome == Refused
    {
      if !IsLegalProgress(pct) || t !in tasks {
        return Refused;
      }
      if pct < tasks[t].pct {
        return Refused;
      }
      tasks := tasks[t := tasks[t].(pct := pct)];
      return Settled;
    }

    /** `_notify_terminal`. */
    method NotifyTerminal(t: TaskId, status: Status, net: Net) returns (confirmed: bool)
      requires t in tasks
      modifies this`tasks
      ensures tasks == old(tasks)[t := Notify(old(tasks)[t], status, net).0]
      ensures confirmed == Notify(old(tasks)[t], status, net).1
    {
      hide Attempt;
      if net.muted {
        return false;
      }
      var prior := tasks[t].out.blob;
      if prior.Some? && prior.value.answer.sent && prior.value.answer.mid.Some? && prior.value.status == status {
        return true;
      }
      var record := SendThroughChain(net);
      var k := tasks[t];
      k := k.(out := k.out.(blob := Some(Blob(status, record))));
      confirmed := record.sent && record.mid.Some?;
      if confirmed {
        k := k.(audit := k.audit.(confirmed := k.audit.confirmed + 1));
      }
      tasks := tasks[t := k];
    }

    /** `_sync_executor_runs_status`. */
    method SyncExecutorRunsStatus(t: TaskId, e: Env)
      requires t in tasks
      modifies store
      ensures View() == Sync(old(View()), t, e)
    {
      var run := tasks[t].hermes;
      if run.None? {
        run := tasks[t].external;
      }
      if run.None? {
        if !NewestLinked(store.rows, t, e.pick) {
          return;
        }
        run := Some(e.pick);
      }
      var _ := store.UpsertRun(run.value,
        Write(tasks[t].adapter, Some(t), tasks[t].status, None, NO_EVIDENCE), e.now);
    }

    /** `fail`, `timeout` and `cancel`: they differ in the status they write. */
    method Close(t: TaskId, to: Status, e: Env, tick: nat) returns (outcome: Outcome)
      modifies this`tasks, store
      ensures t in old(tasks) ==>
        var reply := Tasks.Close(old(tasks)[t], to, e, tick);
        View() == Post(old(View()), t, reply, e) && outcome == reply.outcome
      ensures t in old(tasks) && outcome == Settled ==>
        && t in tasks && tasks[t].status == to && tasks[t].finishedAt == Some(e.now)
        && tasks[t].pct == old(tasks)[t].pct && tasks[t].out.text == old(tasks)[t].out.text
      ensures t !in old(tasks) ==> View() == old(View()) && outcome == Refused
    {
      if t !in tasks {
        return Refused;
      }
      if !IsLegal(tasks[t].status, to) {
        assert tasks[t := tasks[t]] == tasks;
        return Refused;
      }
      tasks := tasks[t := tasks[t].To(to, Edge).(finishedAt := Some(e.now))];
      var _ := NotifyTerminal(t, to, e.net);
      assert tasks == old(tasks)[t := Tasks.Close(old(tasks)[t], to, e, tick).task];
      SyncExecutorRunsStatus(t, e);
      return Settled;
    }

    /** The completion transaction: the task row, and the output columns when there is anything to
        store. The notification column is not touched. */
    method StoreCompletion(t: TaskId, c: Call, e: Env)
      requires t in tasks
      modifies this`tasks
      ensures var k := old(tasks)[t];
        var out := if c.text.Some? || c.extra || e.artifacts
                   then k.out.(text := c.text, evidence := e.artifacts) else k.out;
        tasks == old(tasks)[t := k.To(Completed, Edge).(pct := 100, finishedAt := Some(e.now), out := out)]
    {
      tasks := tasks[t := tasks[t].To(Completed, Edge).(pct := 100, finishedAt := Some(e.now))];
      if c.text.Some? || c.extra || e.artifacts {
        var out := tasks[t].out.(text := c.text, evidence := e.artifacts);
        tasks := tasks[t := tasks[t].(out := out)];
      }
    }

    /** The part of `complete` behind the artifact gate. */
    method Deliver(t: TaskId, c: Call, e: Env, tick: nat) returns (outcome: Outcome)
      requires t in tasks
      modifies this`tasks, store
      ensures var reply := Finish(old(tasks)[t], c, e, tick);
        View() == Post(old(View()), t, reply, e) && outcome == reply.outcome
    {
      hide NotifyGate, Sync;
      StoreCompletion(t, c, e);
      var confirmed := NotifyTerminal(t, Completed, e.net);
      if e.blocking && !confirmed {
        tasks := tasks[t := tasks[t].To(Running, Revert).(finishedAt := None, pct := 80)];
        assert tasks == old(tasks)[t := Finish(old(tasks)[t], c, e, tick).task];
        return Blocked;
      }
      assert tasks == old(tasks)[t := Finish(old(tasks)[t], c, e, tick).task];
      SyncExecutorRunsStatus(t, e);
      return Settled;
    }

    method Complete(t: TaskId, c: Call, e: Env, tick: nat) returns (outcome: Outcome)
      modifies this`tasks, store
      ensures t in old(tasks) ==>
        var reply := Tasks.Complete(old(tasks)[t], c, e, tick);
        View() == Post(old(View()), t, reply, e) && outcome == reply.outcome
      ensures t !in old(tasks) ==> View() == old(View()) && outcome == Refused
      decreases if t in tasks then RescuesLeft(tasks[t]) else 0, 2
    {
      hide Finish, Tasks.Close, Post, Inspect, Missing;
      if t !in tasks {
        return Refused;
      }
      if !IsLegal(tasks[t].status, Completed) {
        RefusalChangesNothing(View(), t, tick, e);
        return Refused;
      }
      ghost var k := tasks[t];
      var missing, clock := CollectMissing(e.disk, tick, tasks[t].spec.declared);
      if missing != [] {
        if tasks[t].rescues < tasks[t].spec.maxRescues {
          outcome := Hold(t, missing, c, e, tick, clock);
        } else {
          GateFails(k, c, e, tick);
          outcome := Close(t, Failed, e, clock);
        }
      } else {
        GatePasses(k, c, e, tick);
        outcome := Deliver(t, c, e, clock);
      }
    }

    /** The rescue-eligible branch of `complete`: hold the task, then rescue it. */
    method Hold(t: TaskId, missing: seq<string>, ghost c: Call, e: Env, ghost tick: nat, clock: nat)
      returns (outcome: Outcome)
      requires t in tasks && IsLegal(tasks[t].status, Completed) && RescuesLeft(tasks[t]) > 0
      requires missing != [] && missing == Missing(e.disk, tick, tasks[t].spec.declared)
      requires clock == tick + |tasks[t].spec.declared|
      modifies this`tasks, store
      ensures var reply := Tasks.Complete(old(tasks)[t], c, e, tick);
        View() == Post(old(View()), t, reply, e) && outcome == reply.outcome
      decreases RescuesLeft(tasks[t]), 1
    {
      hide Finish, Tasks.Close, Post, Inspect, Missing, Tasks.Complete;
      ghost var k := tasks[t];
      tasks := tasks[t := tasks[t].To(IncompleteDelivery, Edge)];
      ghost var held := tasks[t];
      assert held.To(Running, Edge).(rescues := held.rescues + 1) == Rescued(k);
      outcome := Rescue(t, missing, e, clock);
      PostOverwrites(old(View()), t, held, Tasks.Complete(k, c, e, tick), e);
      if Missing(e.disk, clock, missing) == [] {
        RescueUnfolds(k, c, e, tick);
      } else {
        RescueGivesUp(k, c, e, tick);
      }
    }

    /** `_rescue`: back to running, one rescue spent, only the missing paths re-checked. A status
        that does not lead back to running is left alone. */
    method Rescue(t: TaskId, missing: seq<string>, e: Env, tick: nat) returns (outcome: Outcome)
      requires t in tasks && RescuesLeft(tasks[t]) > 0
      modifies this`tasks, store
      ensures IsLegal(old(tasks)[t].status, Running) ==>
        var k := old(tasks)[t];
        var back := k.To(Running, Edge).(rescues := k.rescues + 1);
        var clock := tick + |missing|;
        var reply := if Missing(e.disk, tick, missing) == []
                     then Tasks.Complete(back, Call(None, false), e, clock)
                     else Tasks.Close(back, Failed, e, clock);
        View() == Post(old(View()), t, reply, e) && outcome == reply.outcome
      ensures !IsLegal(old(tasks)[t].status, Running) ==> View() == old(View()) && outcome == Settled
      decreases RescuesLeft(tasks[t]), 0
    {
      hide Finish, Tasks.Close, Sync, Tasks.Complete;
      if !IsLegal(tasks[t].status, Running) {
        return Settled;
      }
      tasks := tasks[t := tasks[t].To(Running, Edge).(rescues := tasks[t].rescues + 1)];
      ghost var back := tasks[t];
      var still, clock := CollectMissing(e.disk, tick, missing);
      if still == [] {
        outcome := Complete(t, Call(None, false), e, clock);
        PostOverwrites(old(View()), t, back, Tasks.Complete(back, Call(None, false), e, clock), e);
      } else {
        outcome := Close(t, Failed, e, clock);
        PostOverwrites(old(View()), t, back, Tasks.Close(back, Failed, e, clock), e);
      }
    }

    /** The direct UPDATE of a forced reconcile. */
    method WriteVerdict(t: TaskId, run: Option<RunId>, verdict: Status, e: Env)
      requires t in tasks && (verdict == Completed || verdict == Failed)
      modifies this`tasks
      ensures var k := old(tasks)[t];
        tasks == old(tasks)[t := k.To(verdict, Force).(
          pct := if verdict.Completed? then 100 else k.pct,
          finishedAt := Some(e.now),
          hermes := if run.Some? then run else k.hermes)]
    {
      if verdict == Completed {
        tasks := tasks[t := tasks[t].To(Completed, Force).(pct := 100, finishedAt := Some(e.now))];
      } else {
        tasks := tasks[t := tasks[t].To(Failed, Force).(finishedAt := Some(e.now))];
      }
      if run.Some? {
        tasks := tasks[t := tasks[t].(hermes := run)];
      }
    }

    /** The idempotency guard in front of the notification of a forced reconcile. */
    method MayNotify(t: TaskId, verdict: Status) returns (fire: bool)
      requires t in tasks
      ensures fire == ShouldFire(tasks[t].out.blob, verdict)
    {
      var prior := tasks[t].out.blob;
      fire := true;
      if prior.Some? {
        var delivered := prior.value.answer.sent && prior.value.answer.mid.Some?;
        if delivered || prior.value.status == verdict {
          fire := false;
        }
      }
    }

    /** `reconcile_executor_completion`: the only writer above the transition table. */
    method ReconcileExecutorCompletion(t: TaskId, run: Option<RunId>, verdict: Status, e: Env, net: Net)
      returns (outcome: Outcome)
      modifies this`tasks, store
      ensures t in old(tasks) ==>
        var reply := ForceReconcile(old(tasks)[t], run, verdict, e, net);
        View() == Post(old(View()), t, reply, e) && outcome == reply.outcome
      ensures t !in old(tasks) ==> View() == old(View()) && outcome == Refused
    {
      hide NotifyGate, Sync, ShouldFire;
      if t !in tasks {
        return Refused;
      }
      if verdict != Completed && verdict != Failed {
        assert tasks[t := tasks[t]] == tasks;
        return Refused;
      }
      WriteVerdict(t, run, verdict, e);
      ghost var forced := tasks[t];
      SyncExecutorRunsStatus(t, e);
      var fire := MayNotify(t, verdict);
      if fire {
        var _ := NotifyTerminal(t, verdict, net);
      }
      NotifyingAfterSync(Tables(old(tasks), old(store.rows)), t, forced, tasks[t], e);
      assert tasks == old(tasks)[t := ForceReconcile(old(tasks)[t], run, verdict, e, net).task];
      return Settled;
    }

    /** `claim_job`: one UPDATE guarded by status and worker. */
    method ClaimJob(t: TaskId, worker: string, token: string) returns (claimed: bool)
      modifies this`tasks
      ensures t in old(tasks) ==>
        tasks == old(tasks)[t := Claim(old(tasks)[t], worker, token).0]
        && (claimed <==> Claim(old(tasks)[t], worker, token).1 == Settled)
      ensures t !in old(tasks) ==> tasks == old(tasks) && !claimed
    {
      if t !in tasks || tasks[t].status != Queued || tasks[t].worker.Some? {
        return false;
      }
      var k := tasks[t].To(Running, Edge).(worker := Some(worker), token := Some(token));
      tasks := tasks[t := k.(audit := k.audit.(claims := k.audit.claims + 1))];
      return true;
    }

    /** `verify_claim_token`: true for the token hash of the claim and for nothing else. */
    method VerifyClaimToken(t: TaskId, presented: string) returns (valid: bool)
      ensures valid <==> t in tasks && tasks[t].token == Some(presented)
    {
      if t !in tasks || tasks[t].token.None? {
        return false;
      }
      return tasks[t].token.value == presented;
    }
  }

  /** The run table is mirrored before the notification is sent; the notification changes nothing
      the mirror reads. */
  lemma NotifyingAfterSync(d: Tables, t: TaskId, forced: Task, told: Task, e: Env)
    requires told.RunKey() == forced.RunKey() && told.adapter == forced.adapter && told.status == forced.status
    ensures Sync(d.(tasks := d.tasks[t := told]), t, e)
         == Sync(d.(tasks := d.tasks[t := forced]), t, e).(tasks := d.tasks[t := told])
  {
  }
}
