/** What polls, submits and the other steps do to both tables, in the words and columns themselves. */
module Answers {
  import opened Models
  import opened Notification
  import opened Tasks
  import opened Runs
  import opened Claims
  import opened Lives
  import opened CompletionGate
  import opened Lifecycle
  import opened TwoTables
  import opened Interleavings
  import opened Safety
  import opened Polls
  import opened Columns
  import Text

  // ---- the word of a poll ----------------------------------------------------------------------

  /** The words that mean success. */
  const SUCCESS: set<string> := {"", "completed", "succeeded", "success"}

  /** The status a word stands for. */
  predicate Names(status: Status, word: string) {
    && (status == Completed <==> word in SUCCESS)
    && (status == Timeout <==> word == "timeout")
    && (status == Cancelled <==> word == "cancelled")
    && (status == Failed <==> word !in SUCCESS && word != "timeout" && word != "cancelled")
  }

  lemma WordIsTaken(word: string)
    ensures Names(VerdictOf(word), word)
    ensures Coarse(VerdictOf(word)) == if word in SUCCESS then Completed else Failed
    ensures IsTerminal(VerdictOf(word))
  {
  }

  /** The manager does not take the word: the task cannot be failed any more; or, for a success, it
      cannot be completed, or its completion is blocked for want of a confirmed delivery. */
  predicate NotTaken(k: Task, word: string, e: Env) {
    if word !in SUCCESS then k.status !in {Pending, Queued, Running, Waiting, IncompleteDelivery}
    else
      || k.status !in {Running, IncompleteDelivery}
      || (Inspect(e.disk, 0, k.spec.declared, RescuesLeft(k)).passed
          && e.blocking && !NotifyGate(k.out.blob, Completed, e.net).confirmed)
  }

  lemma NotTakenIsForced(k: Task, word: string, stdout: string, e: Env)
    requires Sound(k)
    ensures MustForce(k, VerdictOf(word), stdout, e) <==> NotTaken(k, word, e)
  {
    hide Complete, Inspect, NotifyGate, Close;
    WordIsTaken(word);
    WhoMayEnter(k.status, Completed);
    var c := Call(OutputText(stdout), false);
    if word in SUCCESS {
      if NothingHolds(k, e) {
        UnsettledRecord(k, c, e);
      } else {
        HeldCompletionFails(k, c, e);
      }
    } else {
      ClosedRow(k, Failed, e, 0);
    }
  }

  /** A row no task hides from the answer shows the verdict itself. */
  lemma UnlinkedRowShowsTheVerdict(d: Tables, r: RunId, seen: Run, verdict: Status, text: Option<string>, e: Env)
    requires seen.task.None? || seen.task.value !in d.tasks
    ensures var d' := Persist(d, r, seen, verdict, text, e);
      && d'.tasks == d.tasks && r in d'.runs
      && d'.runs[r].status == verdict && d'.runs[r].task == seen.task && d'.runs[r].beat == Some(e.now)
      && d'.runs[r].evidence == seen.evidence.(stdout := text.GetOr(seen.evidence.stdout))
      && forall q | q in d.runs && q != r :: q in d'.runs && d'.runs[q] == d.runs[q]
  {
  }

  /** What the word of a final answer decides, in every reachable state and for every snapshot. A
      word of no success fails the linked task; a success completes it exactly when nothing holds it
      back. A row without a task, or of a task that settles under another run, shows the status the
      word names; the row of a task that goes by the run, or had to be forced, shows the task's. */
  lemma WordDecides(actions: seq<Action>, seen: Snap, word: string, output: string, stamp: bool, e: Env)
    requires seen in Execute(actions).polls
    ensures var d := Execute(actions).db;
      var d' := Step(Execute(actions), PollAnswered(seen, Ended(word, output), stamp, e)).db;
      && seen.id in d'.runs
      && (seen.row.task.None? || seen.row.task.value !in d.tasks ==>
            Names(d'.runs[seen.id].status, word) && d'.tasks == d.tasks)
      && (seen.row.task.Some? && seen.row.task.value in d.tasks ==>
            var t := seen.row.task.value;
            var k := d.tasks[t];
            && t in d'.tasks
            && (word !in SUCCESS ==> d'.tasks[t].status == Failed)
            && (word in SUCCESS ==> d'.tasks[t].status == if NothingHolds(k, e) then Completed else Failed)
            && (NotTaken(k, word, e) || k.RunKey() == Some(seen.id) ==>
                  d'.runs[seen.id].status == d'.tasks[t].status)
            && (!NotTaken(k, word, e) && k.RunKey().Some? && k.RunKey() != Some(seen.id) ==>
                  Names(d'.runs[seen.id].status, word)))
  {
    hide Persist, Inv, Sound, Names, NothingHolds, NotTaken, MustForce, VerdictOf, Coarse;
    Reachable(actions);
    var d := Execute(actions).db;
    var verdict := VerdictOf(word);
    var text := Some(Text.Truncated(output));
    WordIsTaken(word);
    if seen.row.task.Some? && seen.row.task.value in d.tasks {
      var t := seen.row.task.value;
      ReachableRow(Execute(actions), t);
      NotTakenIsForced(d.tasks[t], word, text.value, e);
      PersistSettles(d, seen.id, seen.row, verdict, text, e);
      if word in SUCCESS {
        VerdictOfSuccess(word);
        SuccessCompletes(d, seen.id, seen.row, text, e);
      } else {
        VerdictOfOther(word);
      }
    } else {
      UnlinkedRowShowsTheVerdict(d, seen.id, seen.row, verdict, text, e);
    }
  }

  lemma VerdictOfSuccess(word: string)
    requires word in SUCCESS
    ensures VerdictOf(word) == Completed
  {
  }

  lemma VerdictOfOther(word: string)
    requires word !in SUCCESS
    ensures VerdictOf(word) != Completed
  {
  }

  /** A success completes the linked task exactly when nothing holds it back, gate or no gate. */
  lemma SuccessCompletes(d: Tables, r: RunId, seen: Run, text: Option<string>, e: Env)
    requires seen.task.Some? && seen.task.value in d.tasks && Sound(d.tasks[seen.task.value])
    ensures var t := seen.task.value;
      var d' := Persist(d, r, seen, Completed, text, e);
      t in d'.tasks && d'.tasks[t].status == if NothingHolds(d.tasks[t], e) then Completed else Failed
  {
    hide Persist, Complete, ForceReconcile, Sound, NothingHolds, NotifyGate;
    var k := d.tasks[seen.task.value];
    var stdout := text.GetOr(seen.evidence.stdout);
    var c := Call(OutputText(stdout), false);
    PersistWritesThePolledTask(d, r, seen, text, e);
    if NothingHolds(k, e) {
      UnsettledRecord(k, c, e);
      ForcedCompletion(Complete(k, c, e, 0).task, r, e);
    } else {
      HeldCompletionFails(k, c, e);
    }
  }

  /** A run upstream no longer knows: its task fails, and a row without a task shows timeout. */
  lemma VanishedRunFails(actions: seq<Action>, seen: Snap, stamp: bool, e: Env)
    requires seen in Execute(actions).polls
    ensures var d := Execute(actions).db;
      var d' := Step(Execute(actions), PollAnswered(seen, Vanished, stamp, e)).db;
      && seen.id in d'.runs
      && (seen.row.task.None? || seen.row.task.value !in d.tasks ==> d'.runs[seen.id].status == Timeout)
      && (seen.row.task.Some? && seen.row.task.value in d.tasks ==>
            seen.row.task.value in d'.tasks && d'.tasks[seen.row.task.value].status == Failed)
  {
    hide Persist, Inv, Sound;
    Reachable(actions);
    var d := Execute(actions).db;
    if seen.row.task.Some? && seen.row.task.value in d.tasks {
      ReachableRow(Execute(actions), seen.row.task.value);
      PersistSettles(d, seen.id, seen.row, Timeout, None, e);
    } else {
      UnlinkedRowShowsTheVerdict(d, seen.id, seen.row, Timeout, None, e);
    }
  }

  /** A failed poll changes nothing; one that finds the run alive stamps an open row for the watcher
      and changes nothing for a GET. */
  lemma OpenAnswers(d: Tables, r: RunId, seen: Run, stamp: bool, e: Env)
    ensures Answered(d, r, seen, Transient, stamp, e) == d
    ensures Answered(d, r, seen, Alive, false, e) == d
    ensures var d' := Answered(d, r, seen, Alive, true, e);
      && d'.tasks == d.tasks
      && d'.runs == (if r in d.runs && d.runs[r].status !in {Completed, Failed, Cancelled, Timeout}
                     then d.runs[r := d.runs[r].(beat := Some(e.now), updated := e.now)] else d.runs)
  {
  }

  // ---- lifecycle sync ------------------------------------------------------------------------------

  /** The row a sync writes: the one the task goes by, else a newest one linked to it, else none. */
  lemma SyncTargetDecided(d: Tables, t: TaskId, pick: RunId)
    requires t in d.tasks
    ensures var k := d.tasks[t];
      var target := SyncTarget(d, t, pick);
      && (k.hermes.Some? ==> target == k.hermes)
      && (k.hermes.None? && k.external.Some? ==> target == k.external)
      && (k.hermes.None? && k.external.None? && target.Some? ==>
            && target.value in d.runs && d.runs[target.value].task == Some(t)
            && forall q | q in d.runs && d.runs[q].task == Some(t) ::
                 d.runs[q].created <= d.runs[target.value].created)
      && (k.hermes.None? && k.external.None? && pick in d.runs && d.runs[pick].task == Some(t)
          && (forall q | q in d.runs && d.runs[q].task == Some(t) :: d.runs[q].created <= d.runs[pick].created) ==>
            target == Some(pick))
  {
  }

  /** A sync writes that one row: the task's adapter and status, its link, no heartbeat and no
      evidence. */
  lemma SyncedRow(d: Tables, t: TaskId, e: Env)
    requires t in d.tasks
    ensures var d' := Sync(d, t, e);
      var target := SyncTarget(d, t, e.pick);
      && d'.tasks == d.tasks
      && (target.None? ==> d'.runs == d.runs)
      && (target.Some? ==>
            && d'.runs.Keys == d.runs.Keys + {target.value}
            && (forall q | q in d.runs && q != target.value :: d'.runs[q] == d.runs[q])
            && var row := d'.runs[target.value];
            && row.executor == d.tasks[t].adapter && row.task == Some(t) && row.status == d.tasks[t].status
            && row.beat == None && row.updated == e.now
            && row.evidence == Evidence("", [], [], None, Answer(false, None)))
  {
    hide NewestLinked;
  }

  // ---- submits ---------------------------------------------------------------------------------------

  /** `POST /runs`: the run id is stamped as external in any case and as the task's Hermes run when
      the start is accepted; a running row is written either way. */
  lemma PostRunsWrites(d: Tables, t: TaskId, r: RunId, adapter: Executor, reported: Status, e: Env)
    requires t in d.tasks && r !in d.runs
    ensures var d' := Dispatch(d, t, r, PostRuns(adapter), reported, e);
      var k, k' := d.tasks[t], d'.tasks[t];
      && d'.tasks == d.tasks[t := k'] && k'.external == Some(r) && k'.adapter == adapter
      && (k.status in {Pending, Queued, Waiting, IncompleteDelivery} ==> k'.status == Running && k'.hermes == Some(r))
      && (k.status !in {Pending, Queued, Waiting, IncompleteDelivery} ==> k'.status == k.status && k'.hermes == k.hermes)
      && d'.runs == d.runs[r := Run(Hermes, Some(t), Running, e.now, e.now, None, Some(e.now),
                                    Evidence("", [], [], None, Answer(false, None)))]
  {
  }

  /** The executor endpoint: the Hermes run of a task whose start is accepted, and a row with the
      status reported either way. */
  lemma PostExecutorWrites(d: Tables, t: TaskId, r: RunId, reported: Status, e: Env)
    requires t in d.tasks && r !in d.runs
    ensures var d' := Dispatch(d, t, r, PostExecutor, reported, e);
      var k, k' := d.tasks[t], d'.tasks[t];
      && d'.tasks == d.tasks[t := k'] && k'.external == k.external && k'.adapter == k.adapter
      && (k.status in {Pending, Queued, Waiting, IncompleteDelivery} ==> k'.status == Running && k'.hermes == Some(r))
      && (k.status !in {Pending, Queued, Waiting, IncompleteDelivery} ==> k' == k)
      && d'.runs.Keys == d.runs.Keys + {r} && (forall q | q in d.runs :: d'.runs[q] == d.runs[q])
      && d'.runs[r].status == reported && d'.runs[r].task == Some(t) && d'.runs[r].executor == Hermes
      && d'.runs[r].created == e.now && d'.runs[r].beat == Some(e.now)
      && (d'.runs[r].completed == if reported in {Completed, Failed, Cancelled, Timeout} then Some(e.now) else None)
  {
  }

  /** A rerun starts its task and stamps both run ids, without a row; a refused start changes nothing. */
  lemma RerunWrites(d: Tables, t: TaskId, r: RunId, reported: Status, e: Env)
    requires t in d.tasks
    ensures var d' := Dispatch(d, t, r, Rerun, reported, e);
      var k, k' := d.tasks[t], d'.tasks[t];
      && d'.runs == d.runs && d'.tasks == d.tasks[t := k']
      && (k.status in {Pending, Queued, Waiting, IncompleteDelivery} ==>
            k'.status == Running && k'.hermes == Some(r) && k'.external == Some(r) && k'.adapter == k.adapter)
      && (k.status !in {Pending, Queued, Waiting, IncompleteDelivery} ==> k' == k)
  {
  }

  /** A submit that raised, in every reachable state: the task is failed by force, whatever its status
      was, under the run ids it had, and the row of failed submits says so and is linked to it. */
  lemma RejectedSubmitFailsItsTask(actions: seq<Action>, t: TaskId, e: Env)
    requires t in Execute(actions).db.tasks
    ensures var k := Execute(actions).db.tasks[t];
      var d' := Step(Execute(actions), SubmitRejected(t, e)).db;
      && t in d'.tasks
      && var k' := d'.tasks[t];
      && k'.status == Failed && k'.audit.trail == Moved(k.audit.trail, Failed, Force)
      && k'.hermes == k.hermes && k'.external == k.external && k'.finishedAt == Some(e.now)
      && (forall u | u in Execute(actions).db.tasks && u != t ::
            u in d'.tasks && d'.tasks[u] == Execute(actions).db.tasks[u])
      && SubmitFailed in d'.runs
      && d'.runs[SubmitFailed].status == Failed && d'.runs[SubmitFailed].task == Some(t)
  {
    hide ForceReconcile, Sync, SyncTarget, Upsert;
    var d := Execute(actions).db;
    var k := d.tasks[t];
    var d1 := PutFailed(d, Some(t), e);
    FailedRow(d, Some(t), e);
    ForcedRow(k, None, Failed, e, e.net);
    var f := ForceReconcile(k, None, Failed, e, e.net);
    var mid := d1.(tasks := d1.tasks[t := f.task]);
    SyncedRow(mid, t, e);
  }

  lemma FailedRow(d: Tables, task: Option<TaskId>, e: Env)
    ensures var d' := PutFailed(d, task, e);
      && d'.tasks == d.tasks && d'.runs.Keys == d.runs.Keys + {SubmitFailed}
      && (forall q | q in d.runs && q != SubmitFailed :: d'.runs[q] == d.runs[q])
      && var row := d'.runs[SubmitFailed];
      && row.status == Failed && row.task == task && row.executor == Hermes && row.beat == Some(e.now)
      && row.evidence == Evidence("", [], [], None, Answer(false, None)) && row.completed.Some?
  {
  }

  /** Without a task only the row of failed submits is written, linked to none. */
  lemma RejectedSubmitWithoutATask(m: Machine, e: Env)
    ensures var d' := Step(m, SubmitRejectedUnlinked(e)).db;
      && d'.tasks == m.db.tasks && d'.runs.Keys == m.db.runs.Keys + {SubmitFailed}
      && (forall q | q in m.db.runs && q != SubmitFailed :: d'.runs[q] == m.db.runs[q])
      && d'.runs[SubmitFailed].status == Failed && d'.runs[SubmitFailed].task == None
  {
    hide PutFailed;
    FailedRow(m.db, None, e);
  }

  // ---- the other steps ---------------------------------------------------------------------------------

  /** A heartbeat stamps an open row and nothing else. */
  lemma BeatStep(m: Machine, r: RunId, e: Env)
    ensures var d' := Step(m, Beaten(r, e)).db;
      && d'.tasks == m.db.tasks
      && d'.runs == (if r in m.db.runs && m.db.runs[r].status !in {Completed, Failed, Cancelled, Timeout}
                     then m.db.runs[r := m.db.runs[r].(beat := Some(e.now), updated := e.now)] else m.db.runs)
  {
  }

  /** A submit without a task writes the row reported. */
  lemma UnlinkedSubmitStep(m: Machine, r: RunId, executor: Executor, reported: Status, e: Env)
    requires FreshRun(m.db, r)
    ensures var d' := Step(m, SubmittedUnlinked(r, executor, reported, e)).db;
      && d'.tasks == m.db.tasks
      && d'.runs.Keys == m.db.runs.Keys + {r} && (forall q | q in m.db.runs :: d'.runs[q] == m.db.runs[q])
      && d'.runs[r] == Run(executor, None, reported, e.now, e.now,
           if reported in {Completed, Failed, Cancelled, Timeout} then Some(e.now) else None, Some(e.now),
           Evidence("", [], [], None, Answer(false, None)))
  {
  }

  /** A sweep cancels exactly the aged rows in flight without a task, at their creation time. */
  lemma SweepStep(m: Machine, maxAge: int, e: Env)
    ensures var d' := Step(m, Cleaned(maxAge, e)).db;
      && d'.tasks == m.db.tasks && d'.runs.Keys == m.db.runs.Keys
      && forall q | q in m.db.runs ::
           d'.runs[q] == if m.db.runs[q].status in {Running, Queued, Started} && m.db.runs[q].task == None
                            && e.now - m.db.runs[q].created >= maxAge
                         then m.db.runs[q].(status := Cancelled, completed := Some(m.db.runs[q].created), updated := e.now)
                         else m.db.runs[q]
  {
  }

  /** Steps that write one task and no run row. */
  lemma TaskSteps(m: Machine, t: TaskId, pct: int, ticket: Ticket, token: string)
    requires t in m.db.tasks
    ensures Step(m, Requeue(t)).db == m.db.(tasks := m.db.tasks[t := Queue(m.db.tasks[t]).0])
    ensures Step(m, Report(t, pct)).db == m.db.(tasks := m.db.tasks[t := Progress(m.db.tasks[t], pct).0])
    ensures ticket in m.tickets && ticket.task == t ==>
      && Step(m, Claimed(ticket, token)).db
         == m.db.(tasks := m.db.tasks[t := Claim(m.db.tasks[t], ticket.worker, token).0])
      && Step(m, Claimed(ticket, token)).won
         == if m.db.tasks[t].status == Queued && m.db.tasks[t].worker == None then m.won + [ticket] else m.won
    ensures ticket !in m.tickets ==> Step(m, Claimed(ticket, token)) == m
  {
    hide Queue, Progress;
  }

  /** A new id gets a new row, its budget clamped; a known one changes nothing. */
  lemma CreateStep(m: Machine, t: TaskId, spec: Spec, adapter: Executor, rescues: Option<int>, queued: bool)
    ensures var d' := Step(m, Create(t, spec, adapter, rescues, queued)).db;
      && d'.runs == m.db.runs
      && (t in m.db.tasks ==> d'.tasks == m.db.tasks)
      && (t !in m.db.tasks ==>
            && d'.tasks == m.db.tasks[t := d'.tasks[t]]
            && d'.tasks[t].status == (if queued then Queued else Pending) && d'.tasks[t].adapter == adapter
            && d'.tasks[t].spec == spec.(maxRescues := ClampRescues(rescues)))
  {
  }

  /** Completing, closing and forcing write one task, and mirror it into its run row exactly when the
      manager settled the call. */
  lemma ManagerSteps(m: Machine, t: TaskId, c: Call, to: Status, run: Option<RunId>, e: Env)
    requires t in m.db.tasks
    ensures Mirrored(m.db, Step(m, Finished(t, c, e)).db, t, Complete(m.db.tasks[t], c, e, 0), e)
    ensures to in {Failed, Timeout, Cancelled} ==>
      Mirrored(m.db, Step(m, Closed(t, to, e)).db, t, Close(m.db.tasks[t], to, e, 0), e)
    ensures OwnRun(m.db, t, run) ==>
      Mirrored(m.db, Step(m, Forced(t, run, to, e)).db, t, ForceReconcile(m.db.tasks[t], run, to, e, e.net), e)
  {
    hide Complete, Close, ForceReconcile, OwnRun, Sync;
    PostMirrors(m.db, t, Complete(m.db.tasks[t], c, e, 0), e);
    PostMirrors(m.db, t, Close(m.db.tasks[t], to, e, 0), e);
    PostMirrors(m.db, t, ForceReconcile(m.db.tasks[t], run, to, e, e.net), e);
  }

  /** The task row of the reply, and when it was settled the row of its run shows the same status. */
  predicate Mirrored(d: Tables, d': Tables, t: TaskId, reply: Reply, e: Env) {
    && d'.tasks == d.tasks[t := reply.task]
    && (reply.outcome != Settled ==> d'.runs == d.runs)
    && (reply.outcome == Settled && reply.task.RunKey().Some? ==>
          && reply.task.RunKey().value in d'.runs
          && d'.runs[reply.task.RunKey().value].status == reply.task.status
          && d'.runs[reply.task.RunKey().value].task == Some(t))
  }

  lemma PostMirrors(d: Tables, t: TaskId, reply: Reply, e: Env)
    ensures Mirrored(d, Post(d, t, reply, e), t, reply, e)
  {
    hide Sync, NewestLinked;
    SyncedRow(d.(tasks := d.tasks[t := reply.task]), t, e);
    SyncTargetDecided(d.(tasks := d.tasks[t := reply.task]), t, e.pick);
  }

  /** A reader takes a snapshot of exactly the Hermes rows that are not terminal. */
  lemma ReadStep(m: Machine, r: RunId)
    ensures var m' := Step(m, Read(r));
      && m'.db == m.db && m'.tickets == m.tickets && m'.won == m.won
      && m'.polls == if r in m.db.runs && m.db.runs[r].executor == Hermes
                        && m.db.runs[r].status !in {Completed, Failed, Cancelled, Timeout}
                     then m.polls + {Snap(r, m.db.runs[r])} else m.polls
  {
  }
}
