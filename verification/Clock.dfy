/** Run timestamps over whole runs of the machine, under one monotone clock. */
module Clock {
  import opened Models
  import opened Tasks
  import opened Runs
  import opened Lifecycle
  import Text

  /** The clock reading a step uses, if it uses one. */
  function Reading(a: Action): Option<Time> {
    match a
    case Create(_, spec, _, _, _) => Some(spec.createdAt)
    case Submitted(_, _, _, _, e) => Some(e.now)
    case SubmittedUnlinked(_, _, _, e) => Some(e.now)
    case SubmitRejected(_, e) => Some(e.now)
    case SubmitRejectedUnlinked(e) => Some(e.now)
    case Finished(_, _, e) => Some(e.now)
    case Closed(_, _, e) => Some(e.now)
    case Forced(_, _, _, e) => Some(e.now)
    case PollAnswered(_, _, _, e) => Some(e.now)
    case Beaten(_, e) => Some(e.now)
    case Cleaned(_, e) => Some(e.now)
    case _ => None
  }

  /** The latest reading of a run of the machine. */
  function Latest(actions: seq<Action>): Time {
    if actions == [] then 0
    else Reading(actions[|actions| - 1]).GetOr(Latest(actions[..|actions| - 1]))
  }

  /** The readings of a run never go back. */
  predicate Forward(actions: seq<Action>) {
    actions == []
    || (Forward(actions[..|actions| - 1]) && Latest(actions[..|actions| - 1]) <= Latest(actions))
  }

  lemma PutIsTimely(d: Tables, r: RunId, w: Write, before: Time, now: Time)
    requires AllTimely(d.runs, before) && before <= now
    ensures AllTimely(PutRun(d, r, w, now).runs, now)
  {
    ApplyIsTimely(d.runs, Put(r, w), before, now);
  }

  lemma LaterIsTimely(d: Tables, before: Time, now: Time)
    requires AllTimely(d.runs, before) && before <= now
    ensures AllTimely(d.runs, now)
  {
  }

  lemma SyncIsTimely(d: Tables, t: TaskId, e: Env, before: Time)
    requires AllTimely(d.runs, before) && before <= e.now && t in d.tasks
    ensures AllTimely(Sync(d, t, e).runs, e.now)
  {
    hide AllTimely, Upsert, NewestLinked;
    LaterIsTimely(d, before, e.now);
    var target := SyncTarget(d, t, e.pick);
    if target.Some? {
      var k := d.tasks[t];
      PutIsTimely(d, target.value, Write(k.adapter, Some(t), k.status, None, NO_EVIDENCE), before, e.now);
    }
  }

  lemma PostIsTimely(d: Tables, t: TaskId, reply: Reply, e: Env, before: Time)
    requires AllTimely(d.runs, before) && before <= e.now
    ensures AllTimely(Post(d, t, reply, e).runs, e.now)
  {
    hide AllTimely, Sync;
    LaterIsTimely(d, before, e.now);
    SyncIsTimely(d.(tasks := d.tasks[t := reply.task]), t, e, before);
  }

  lemma PersistIsTimely(d: Tables, r: RunId, seen: Run, verdict: Status, text: Option<string>, e: Env, before: Time)
    requires AllTimely(d.runs, before) && before <= e.now
    ensures AllTimely(Persist(d, r, seen, verdict, text, e).runs, e.now)
  {
    hide AllTimely, Upsert, Post, Mirror, ForceReconcile;
    var stdout := text.GetOr(seen.evidence.stdout);
    var w := Write(seen.executor, seen.task, verdict, Some(e.now), seen.evidence.(stdout := stdout));
    var d1 := PutRun(d, r, w, e.now);
    PutIsTimely(d, r, w, before, e.now);
    if seen.task.Some? && seen.task.value in d1.tasks {
      var t := seen.task.value;
      var reply := Mirror(d1.tasks[t], verdict, stdout, e);
      PostIsTimely(d1, t, reply, e, e.now);
      var d2 := Post(d1, t, reply, e);
      PostHasTheTask(d1, t, reply, e);
      PostIsTimely(d2, t, ForceReconcile(d2.tasks[t], Some(r), Coarse(verdict), e, e.again), e, e.now);
    }
  }

  lemma PostHasTheTask(d: Tables, t: TaskId, reply: Reply, e: Env)
    ensures t in Post(d, t, reply, e).tasks
  {
  }

  lemma DispatchIsTimely(d: Tables, t: TaskId, r: RunId, route: Route, reported: Status, e: Env, before: Time)
    requires AllTimely(d.runs, before) && before <= e.now && t in d.tasks
    ensures AllTimely(Dispatch(d, t, r, route, reported, e).runs, e.now)
  {
    hide AllTimely, Upsert;
    LaterIsTimely(d, before, e.now);
    PutIsTimely(d, r, Write(Hermes, Some(t), Running, Some(e.now), NO_EVIDENCE), before, e.now);
    PutIsTimely(d, r, Write(Hermes, Some(t), reported, Some(e.now), NO_EVIDENCE), before, e.now);
  }

  lemma StepIsTimely(d: Tables, polls: set<Snap>, a: Action, before: Time)
    requires AllTimely(d.runs, before) && before <= Reading(a).GetOr(before)
    ensures AllTimely(StepTables(d, polls, a).runs, Reading(a).GetOr(before))
  {
    hide AllTimely, Upsert, Post, Dispatch, Complete, Close, ForceReconcile, Persist, FreshRun, OwnRun;
    hide Heartbeat, Sweep;
    var now := Reading(a).GetOr(before);
    LaterIsTimely(d, before, now);
    match a
    case Submitted(t, r, route, reported, e) =>
      if t in d.tasks { DispatchIsTimely(d, t, r, route, reported, e, before); }
    case SubmittedUnlinked(r, executor, reported, e) =>
      PutIsTimely(d, r, Write(executor, None, reported, Some(e.now), NO_EVIDENCE), before, now);
    case SubmitRejected(t, e) =>
      if t in d.tasks {
        var w := Write(Hermes, Some(t), Failed, Some(e.now), NO_EVIDENCE);
        PutIsTimely(d, SubmitFailed, w, before, now);
        PostIsTimely(PutRun(d, SubmitFailed, w, now), t, ForceReconcile(d.tasks[t], None, Failed, e, e.net), e, now);
      }
    case SubmitRejectedUnlinked(e) =>
      PutIsTimely(d, SubmitFailed, Write(Hermes, None, Failed, Some(e.now), NO_EVIDENCE), before, now);
    case Finished(t, c, e) =>
      if t in d.tasks { PostIsTimely(d, t, Complete(d.tasks[t], c, e, 0), e, before); }
    case Closed(t, to, e) =>
      if t in d.tasks { PostIsTimely(d, t, Close(d.tasks[t], to, e, 0), e, before); }
    case Forced(t, run, verdict, e) =>
      if t in d.tasks { PostIsTimely(d, t, ForceReconcile(d.tasks[t], run, verdict, e, e.net), e, before); }
    case PollAnswered(seen, p, stamp, e) =>
      AnswerIsTimely(d, seen, p, stamp, e, before);
    case Beaten(r, e) =>
      ApplyIsTimely(d.runs, Beat(r), before, now);
    case Cleaned(maxAge, e) =>
      ApplyIsTimely(d.runs, Clean(maxAge), before, now);
    case Create(_, _, _, _, _) =>
    case Requeue(_) =>
    case Report(_, _) =>
    case Read(_) =>
    case Found(_, _, _, _) =>
    case Claimed(_, _) =>
  }

  lemma AnswerIsTimely(d: Tables, seen: Snap, p: Poll, stamp: bool, e: Env, before: Time)
    requires AllTimely(d.runs, before) && before <= e.now
    ensures AllTimely(Answered(d, seen.id, seen.row, p, stamp, e).runs, e.now)
  {
    hide AllTimely, Persist, Heartbeat;
    LaterIsTimely(d, before, e.now);
    match p
    case Transient =>
    case Alive => ApplyIsTimely(d.runs, Beat(seen.id), before, e.now);
    case Vanished => PersistIsTimely(d, seen.id, seen.row, Timeout, None, e, before);
    case Ended(word, output) =>
      PersistIsTimely(d, seen.id, seen.row, VerdictOf(word), Some(Text.Truncated(output)), e, before);
  }

  /** In every reachable state of a run under a monotone clock, each run row was created no later
      than it completed, completed no later than it was last updated, and a terminal row has a
      completion time. */
  lemma {:induction false} TimestampsHoldThroughout(actions: seq<Action>)
    requires Forward(actions)
    ensures AllTimely(Execute(actions).db.runs, Latest(actions))
    ensures forall r | r in Execute(actions).db.runs ::
      var row := Execute(actions).db.runs[r];
      && row.created <= row.updated <= Latest(actions)
      && (row.completed.Some? ==> row.created <= row.completed.value <= row.updated)
      && (row.status in {Completed, Failed, Cancelled, Timeout} ==> row.completed.Some?)
    decreases |actions|
  {
    hide AllTimely, StepTables;
    if actions == [] {
      NothingIsTimely();
    } else {
      var n := |actions| - 1;
      TimestampsHoldThroughout(actions[..n]);
      StepIsTimely(Execute(actions[..n]).db, Execute(actions[..n]).polls, actions[n], Latest(actions[..n]));
      LaterIsTimely(Execute(actions[..n]).db, Latest(actions[..n]), Latest(actions));
    }
    TimelyInColumns(Execute(actions).db.runs, Latest(actions));
  }

  lemma TimelyInColumns(runs: Table, now: Time)
    requires AllTimely(runs, now)
    ensures forall r | r in runs ::
      && runs[r].created <= runs[r].updated <= now
      && (runs[r].completed.Some? ==> runs[r].created <= runs[r].completed.value <= runs[r].updated)
      && (runs[r].status in {Completed, Failed, Cancelled, Timeout} ==> runs[r].completed.Some?)
  {
  }

  lemma NothingIsTimely()
    ensures AllTimely(START.db.runs, 0)
  {
  }
}
