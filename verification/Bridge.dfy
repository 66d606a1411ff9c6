/** The bridge process, written as the service runs it, and proved to walk through runs of the
    machine of Lifecycle: every theorem of Safety is a theorem about these objects. */
module Bridges {
  import opened Models
  import opened Tasks
  import opened Runs
  import opened RunStores
  import opened Claims
  import opened Lifecycle
  import opened Managers
  import ClaimDesk
  import Text

  /** What the environment grants an action: upstream run ids are fresh, a forced run belongs to
      the task, a poll answers for a row that was read, and a claim follows a find. */
  predicate Enabled(d: Tables, polls: set<Snap>, tickets: set<Ticket>, a: Action) {
    match a
    case Submitted(t, r, _, _, _) => FreshRun(d, r)
    case SubmittedUnlinked(r, _, _, _) => FreshRun(d, r)
    case Forced(t, run, _, _) => OwnRun(d, t, run)
    case PollAnswered(seen, _, _, _) => seen in polls
    case Claimed(ticket, _) => ticket in tickets
    case _ => true
  }

  lemma PollsGrow(m: Machine, a: Action)
    ensures m.polls <= Step(m, a).polls
  {
  }

  lemma StepMovesTables(m: Machine, a: Action)
    requires Enabled(m.db, m.polls, m.tickets, a)
    ensures Step(m, a).db == StepTables(m.db, m.polls, a)
  {
    hide Persist, Post, Dispatch, SubmitRaised, Heartbeat, Sweep, Upsert;
  }

  /** The answer of `find_by_hermes_run_id`: the newest task that carries the run; ties are open. */
  predicate NewestHolder(tasks: map<TaskId, Task>, r: RunId, n: TaskId) {
    && n in tasks && tasks[n].hermes == Some(r)
    && forall t | t in tasks && tasks[t].hermes == Some(r) :: tasks[t].spec.createdAt <= tasks[n].spec.createdAt
  }

  /** A registered worker. */
  datatype Worker = Worker(workerType: Executor, caps: seq<string>, maxConcurrent: int)

  datatype ClaimReply = Unregistered | Busy | NoJob | Lost | Granted(task: TaskId)

  /** A request that names no capabilities stands for the registered ones. */
  function Effective(worker: Worker, caps: seq<string>): seq<string> {
    if caps == [] then worker.caps else caps
  }

  function RunningJobs(tasks: map<TaskId, Task>, worker: string): set<TaskId> {
    set t | t in tasks && tasks[t].worker == Some(worker) && tasks[t].status == Running
  }

  lemma OneMoreRunning(tasks: map<TaskId, Task>, t: TaskId, worker: string, k: Task)
    requires t in tasks && tasks[t].worker.None?
    requires k.worker == Some(worker) && k.status == Running
    ensures |RunningJobs(tasks[t := k], worker)| == |RunningJobs(tasks, worker)| + 1
  {
    assert RunningJobs(tasks[t := k], worker) == RunningJobs(tasks, worker) + {t};
  }

  class Bridge {
    const manager: TaskManager
    const store: RunStore
    /** What suspended requests hold: rows read before an await, and jobs found. */
    var polls: set<Snap>
    var tickets: set<Ticket>
    /** Every action performed so far. */
    ghost var history: seq<Action>

    constructor ()
      ensures Valid() && history == []
      ensures fresh(manager) && fresh(store)
    {
      var s := new RunStore();
      var m := new TaskManager(s);
      store := s;
      manager := m;
      polls, tickets := {}, {};
      history := [];
    }

    ghost function View(): Tables
      reads this, manager, manager.store
    {
      manager.View()
    }

    ghost predicate Valid()
      reads this, manager, store, manager.store
    {
      && manager.store == store
      && View() == Execute(history).db
      && polls == Execute(history).polls
      && tickets == Execute(history).tickets
    }

    // ---- dispatch -------------------------------------------------------------------------

    /** What follows a successful submit on each of the three routes. */
    method RecordSubmit(t: TaskId, r: RunId, route: Route, reported: Status, e: Env)
      requires manager.store == store && t in manager.tasks
      modifies manager, store
      ensures View() == Dispatch(old(View()), t, r, route, reported, e)
    {
      var outcome := manager.Start(t, r);
      match route {
        case PostRuns(adapter) =>
          var k := manager.tasks[t].(external := Some(r), adapter := adapter);
          manager.tasks := manager.tasks[t := k];
          var _ := store.UpsertRun(r, Write(Hermes, Some(t), Running, Some(e.now), NO_EVIDENCE), e.now);
        case PostExecutor =>
          var _ := store.UpsertRun(r, Write(Hermes, Some(t), reported, Some(e.now), NO_EVIDENCE), e.now);
        case Rerun =>
          if outcome == Settled {
            var k := manager.tasks[t].(external := Some(r));
            manager.tasks := manager.tasks[t := k];
          } else {
            assert manager.tasks == old(manager.tasks);
          }
      }
      assert manager.tasks == Dispatch(old(View()), t, r, route, reported, e).tasks;
    }

    /** The submit raised: a failed row under the constant id, then a forced verdict for the task if
        there is one. */
    method RecordSubmitFailure(task: Option<TaskId>, e: Env)
      requires manager.store == store && (task.Some? ==> task.value in manager.tasks)
      modifies manager, store
      ensures View() == match task
        case Some(t) => SubmitRaised(old(View()), t, e)
        case None => PutFailed(old(View()), None, e)
      ensures SubmitFailed in store.rows
        && store.rows[SubmitFailed].status == Failed && store.rows[SubmitFailed].task == task
      ensures task.Some? ==>
        && task.value in manager.tasks && manager.tasks[task.value].status == Failed
        && manager.tasks[task.value].RunKey() == old(manager.tasks)[task.value].RunKey()
    {
      var _ := store.UpsertRun(SubmitFailed, Write(Hermes, task, Failed, Some(e.now), NO_EVIDENCE), e.now);
      if task.Some? {
        var _ := manager.ReconcileExecutorCompletion(task.value, None, Failed, e, e.net);
      }
    }

    // ---- reconciliation -------------------------------------------------------------------

    /** `_persist_terminal_reconciliation`: the run row, then the task through the manager, then by
        force when the manager raised. */
    method PersistTerminalReconciliation(r: RunId, seen: Run, verdict: Status, text: Option<string>, e: Env)
      requires manager.store == store
      modifies manager, store
      ensures View() == Persist(old(View()), r, seen, verdict, text, e)
    {
      hide Tasks.Complete, Tasks.Close, Post, ForceReconcile, Upsert;
      var stdout := seen.evidence.stdout;
      if text.Some? {
        stdout := text.value;
      }
      var _ := store.UpsertRun(r,
        Write(seen.executor, seen.task, verdict, Some(e.now), seen.evidence.(stdout := stdout)), e.now);
      if seen.task.Some? && seen.task.value in manager.tasks {
        var t := seen.task.value;
        ghost var mid := View();
        var outcome: Outcome;
        if verdict == Completed {
          outcome := manager.Complete(t, Call(OutputText(stdout), false), e, 0);
        } else {
          outcome := manager.Close(t, Failed, e, 0);
        }
        if outcome != Settled {
          PostKeepsRows(mid, t, Mirror(mid.tasks[t], verdict, stdout, e), e);
          var coarse := if verdict == Completed then Completed else Failed;
          var _ := manager.ReconcileExecutorCompletion(t, Some(r), coarse, e, e.again);
        }
      }
    }

    lemma PostKeepsRows(d: Tables, t: TaskId, reply: Reply, e: Env)
      requires t in d.tasks
      ensures t in Post(d, t, reply, e).tasks
    {
    }

    /** The part of `_reconcile_hermes_run_once` behind the await. */
    method HandleAnswer(r: RunId, seen: Run, p: Poll, stamp: bool, e: Env)
      requires manager.store == store
      modifies manager, store
      ensures View() == Answered(old(View()), r, seen, p, stamp, e)
    {
      match p {
        case Vanished =>
          PersistTerminalReconciliation(r, seen, Timeout, None, e);
        case Transient =>
        case Alive =>
          if stamp {
            var _ := store.UpdateHeartbeat(r, "running", e.now);
          }
        case Ended(word, output) =>
          var status := Translate(word);
          PersistTerminalReconciliation(r, seen, status, Some(Text.Truncated(output)), e);
      }
    }

    /** An empty word counts as completed, success words are completed, unknown words failed. */
    method Translate(word: string) returns (status: Status)
      ensures status == VerdictOf(word)
      ensures status == Completed <==> word in {"", "completed", "succeeded", "success"}
      ensures status == Timeout <==> word == "timeout"
      ensures status == Cancelled <==> word == "cancelled"
      ensures status == Failed
        <==> word !in {"", "completed", "succeeded", "success", "timeout", "cancelled"}
    {
      var normal := if word == "" then "completed" else word;
      if normal in {"completed", "failed", "timeout", "cancelled"} {
        status :=
          if normal == "completed" then Completed
          else if normal == "failed" then Failed
          else if normal == "timeout" then Timeout
          else Cancelled;
      } else {
        status := if normal in {"completed", "succeeded", "success"} then Completed else Failed;
      }
    }

    // ---- one step of the machine ----------------------------------------------------------

    /** The imperative body of each action. */
    method Carry(a: Action, ghost m: Machine)
      requires manager.store == store && View() == m.db && Enabled(m.db, m.polls, m.tickets, a)
      modifies manager, store
      ensures View() == StepTables(m.db, m.polls, a)
    {
      hide Tasks.Complete, Tasks.Close, ForceReconcile, Post, Dispatch, SubmitRaised, Answered, Sweep, Heartbeat;
      hide FreshRun, OwnRun;
      match a {
        case Create(t, spec, adapter, rescues, queued) =>
          var _ := manager.Create(t, spec, adapter, rescues, queued);
        case Requeue(t) =>
          var _ := manager.Queue(t);
        case Submitted(t, r, route, reported, e) =>
          if t in manager.tasks {
            RecordSubmit(t, r, route, reported, e);
          }
        case SubmittedUnlinked(r, executor, reported, e) =>
          var _ := store.UpsertRun(r, Write(executor, None, reported, Some(e.now), NO_EVIDENCE), e.now);
        case SubmitRejected(t, e) =>
          if t in manager.tasks {
            RecordSubmitFailure(Some(t), e);
          }
        case SubmitRejectedUnlinked(e) =>
          RecordSubmitFailure(None, e);
        case Report(t, pct) =>
          var _ := manager.Progress(t, pct);
        case Finished(t, c, e) =>
          var _ := manager.Complete(t, c, e, 0);
        case Closed(t, to, e) =>
          if to == Failed || to == Timeout || to == Cancelled {
            var _ := manager.Close(t, to, e, 0);
          }
        case Forced(t, run, verdict, e) =>
          var _ := manager.ReconcileExecutorCompletion(t, run, verdict, e, e.net);
        case Read(r) =>
        case PollAnswered(seen, p, stamp, e) =>
          HandleAnswer(seen.id, seen.row, p, stamp, e);
        case Beaten(r, e) =>
          var _ := store.UpdateHeartbeat(r, "running", e.now);
        case Cleaned(maxAge, e) =>
          var _, _ := store.ReconcileStaleRuns(maxAge, e.now);
        case Found(worker, workerType, caps, rows) =>
        case Claimed(ticket, token) =>
          var _ := manager.ClaimJob(ticket.task, ticket.worker, token);
      }
    }

    /** Whatever an actor does between two awaits is one step of the machine. */
    method Perform(a: Action)
      requires Valid() && Enabled(View(), polls, tickets, a)
      modifies this`history, this`polls, this`tickets, manager, store
      ensures Valid() && history == old(history) + [a]
    {
      hide StepTables, IsWindow;
      ghost var m := Execute(history);
      Carry(a, m);
      StepMovesTables(m, a);
      ExecuteOne(history, a);
      history := history + [a];
      if a.Read? && a.r in store.rows && Pollable(store.rows[a.r]) {
        assert StepTables(m.db, m.polls, a) == m.db;
        polls := polls + {Snap(a.r, store.rows[a.r])};
      } else if a.Found? {
        assert StepTables(m.db, m.polls, a) == m.db;
        var ticket := FoundTicket(Tables(manager.tasks, store.rows), a);
        if ticket.Some? {
          tickets := tickets + {ticket.value};
        }
      }
    }

    /** While one request awaits, others run: every action of the script the environment grants at
        its moment is performed. */
    method Yield(script: seq<Action>) returns (ghost performed: seq<Action>)
      requires Valid()
      modifies this`history, this`polls, this`tickets, manager, store
      ensures Valid() && history == old(history) + performed
      ensures old(polls) <= polls
    {
      hide FreshRun, OwnRun, IsWindow, Step;
      performed := [];
      for i := 0 to |script|
        invariant Valid() && history == old(history) + performed
        invariant old(polls) <= polls
      {
        var d := Tables(manager.tasks, store.rows);
        if Enabled(d, polls, tickets, script[i]) {
          PollsGrow(Execute(history), script[i]);
          ghost var before := history;
          Perform(script[i]);
          ExecuteOne(before, script[i]);
          performed := performed + [script[i]];
        }
      }
    }

    /** A worker's search is a step too; the ticket it hands out is the machine's. */
    method Search(worker: string, workerType: Executor, caps: seq<string>) returns (found: Option<TaskId>)
      requires Valid()
      modifies this`history, this`tickets
      ensures Valid()
      ensures exists rows ::
        && history == old(history) + [Found(worker, workerType, caps, rows)]
        && IsWindow(manager.tasks, workerType, rows)
        && found == Pick(manager.tasks, rows, caps)
      ensures found.None? ==>
        && (forall u | Suitable(manager.tasks, workerType, caps, u) :: CrowdedOut(manager.tasks, workerType, caps, u))
        && (forall u | Open(manager.tasks, workerType, caps, u) :: FiveInFront(manager.tasks, workerType, caps, u))
      ensures found.Some? ==>
        && Suitable(manager.tasks, workerType, caps, found.value)
        && (forall u | Suitable(manager.tasks, workerType, caps, u) ::
              !Ahead(manager.tasks[u], manager.tasks[found.value]))
        && Open(manager.tasks, workerType, caps, found.value)
        && (forall u | Open(manager.tasks, workerType, caps, u) ::
              NotBehind(manager.tasks[found.value], manager.tasks[u]))
        && Ticket(found.value, worker, caps) in Execute(history).tickets
    {
      var rows;
      found, rows := ClaimDesk.FindClaimableJob(manager.tasks, workerType, caps);
      ghost var a := Found(worker, workerType, caps, rows);
      ExecuteOne(history, a);
      history := history + [a];
      if found.Some? {
        tickets := tickets + {Ticket(found.value, worker, caps)};
      }
    }

    /** `POST /jobs/claim`: registration, the soft cap, the search and the claim, with no await in
        between; so the claim of a job just found is never lost. */
    method ClaimNext(worker: string, registered: Option<Worker>, workerType: Option<Executor>,
                     caps: seq<string>, token: string)
      returns (reply: ClaimReply)
      requires Valid()
      modifies this`history, this`polls, this`tickets, manager, store
      ensures Valid() && old(history) <= history
      ensures reply == Unregistered <==> registered.None?
      ensures reply == Busy <==>
        registered.Some? && |RunningJobs(old(manager.tasks), worker)| >= registered.value.maxConcurrent
      ensures reply == Unregistered || reply == Busy ==> history == old(history)
      ensures reply == NoJob ==>
        && manager.tasks == old(manager.tasks)
        && forall u | Open(manager.tasks, workerType.GetOr(registered.value.workerType),
                           Effective(registered.value, caps), u) ::
             FiveInFront(manager.tasks, workerType.GetOr(registered.value.workerType),
                         Effective(registered.value, caps), u)
      ensures reply != Lost
      ensures reply.Granted? ==>
        var t := reply.task;
        var kind := workerType.GetOr(registered.value.workerType);
        && Open(old(manager.tasks), kind, Effective(registered.value, caps), t)
        && (forall u | Open(old(manager.tasks), kind, Effective(registered.value, caps), u) ::
              NotBehind(old(manager.tasks)[t], old(manager.tasks)[u]))
        && t in manager.tasks
        && manager.tasks[t].worker == Some(worker) && manager.tasks[t].token == Some(token)
        && manager.tasks[t].status == Running
        && |RunningJobs(manager.tasks, worker)| <= registered.value.maxConcurrent
    {
      hide Suitable, CrowdedOut, FiveInFront, NotBehind, Execute;
      if registered.None? {
        return Unregistered;
      }
      var kind := workerType.GetOr(registered.value.workerType);
      var offered := if caps == [] then registered.value.caps else caps;
      if |RunningJobs(manager.tasks, worker)| >= registered.value.maxConcurrent {
        return Busy;
      }
      var found := Search(worker, kind, offered);
      if found.None? {
        return NoJob;
      }
      var won := TakeJob(found.value, worker, offered, token);
      if !won {
        return Lost;
      }
      return Granted(found.value);
    }

    /** The claim of a job found; it is lost only if the job is gone from the queue or owned. */
    method TakeJob(t: TaskId, worker: string, caps: seq<string>, token: string) returns (won: bool)
      requires Valid() && Ticket(t, worker, caps) in tickets && t in manager.tasks
      modifies this`history, this`polls, this`tickets, manager, store
      ensures Valid() && history == old(history) + [Claimed(Ticket(t, worker, caps), token)]
      ensures won <==> old(manager.tasks)[t].status == Queued && old(manager.tasks)[t].worker.None?
      ensures won ==>
        && t in manager.tasks && manager.tasks[t].status == Running
        && manager.tasks[t].worker == Some(worker) && manager.tasks[t].token == Some(token)
        && |RunningJobs(manager.tasks, worker)| == |RunningJobs(old(manager.tasks), worker)| + 1
    {
      hide Execute;
      won := manager.tasks[t].status == Queued && manager.tasks[t].worker.None?;
      ghost var was := manager.tasks;
      var a := Claimed(Ticket(t, worker, caps), token);
      ghost var m := Execute(history);
      Perform(a);
      ExecuteOne(old(history), a);
      StepMovesTables(m, a);
      if won {
        OneMoreRunning(was, t, worker, Claim(was[t], worker, token).0);
      }
    }

    /** The end of `_stop_run_executor_neutral`: behind the upstream cancel, the newest task that
        carries the run is cancelled when it is still open. */
    method StopRun(r: RunId, e: Env) returns (task: Option<TaskId>)
      requires Valid()
      modifies this`history, this`polls, this`tickets, manager, store
      ensures Valid()
      ensures match task
        case None => history == old(history)
        case Some(t) =>
          && NewestHolder(old(manager.tasks), r, t)
          && history == old(history) + [Closed(t, Cancelled, e)]
          && t in manager.tasks && manager.tasks[t].status == Cancelled
      ensures task.None? && (exists t | t in manager.tasks :: manager.tasks[t].hermes == Some(r)) ==>
        exists n | NewestHolder(manager.tasks, r, n) :: manager.tasks[n].status !in {Queued, Running, Waiting}
    {
      var holders := set t | t in manager.tasks && manager.tasks[t].hermes == Some(r);
      if holders == {} {
        assert forall t | t in manager.tasks && manager.tasks[t].hermes == Some(r) :: t in holders;
        return None;
      }
      var newest := NewestTask(holders);
      assert NewestHolder(manager.tasks, r, newest);
      if manager.tasks[newest].status !in {Queued, Running, Waiting} {
        return None;
      }
      ghost var k := manager.tasks[newest];
      ghost var d := View();
      Perform(Closed(newest, Cancelled, e));
      ExecuteOne(old(history), Closed(newest, Cancelled, e));
      CancelLands(d, Execute(old(history)).polls, newest, e);
      return Some(newest);
    }

    method NewestTask(candidates: set<TaskId>) returns (best: TaskId)
      requires candidates != {} && forall t | t in candidates :: t in manager.tasks
      ensures best in candidates
      ensures forall t | t in candidates :: manager.tasks[t].spec.createdAt <= manager.tasks[best].spec.createdAt
    {
      best :| best in candidates;
      var rest := candidates - {best};
      while rest != {}
        invariant best in candidates && rest <= candidates
        invariant forall t | t in candidates - rest ::
          manager.tasks[t].spec.createdAt <= manager.tasks[best].spec.createdAt
        decreases rest
      {
        var t :| t in rest;
        if manager.tasks[t].spec.createdAt > manager.tasks[best].spec.createdAt {
          best := t;
        }
        rest := rest - {t};
      }
    }
  }

  lemma CancelLands(d: Tables, polls: set<Snap>, t: TaskId, e: Env)
    requires t in d.tasks && IsLegal(d.tasks[t].status, Cancelled)
    ensures var d' := StepTables(d, polls, Closed(t, Cancelled, e));
      t in d'.tasks && d'.tasks[t].status == Cancelled
  {
  }
}
