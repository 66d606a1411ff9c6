/** Under one monotone clock every task is older than the rows of its runs, so in the run list a
    matching row always wins over its task. */
module Precedence {
  import opened Models
  import opened Tasks
  import opened Runs
  import opened Lives
  import opened Lifecycle
  import opened TwoTables
  import opened Interleavings
  import opened Safety
  import opened Clock
  import opened Listing
  import Text

  /** The rows of a step: the old ones keep their creation time, new ones are born now. */
  ghost predicate BornNow(runs: Table, runs': Table, now: Time) {
    && (forall r | r in runs :: r in runs')
    && (forall r | r in runs' :: runs'[r].created == if r in runs then runs[r].created else now)
  }

  lemma BornTransitively(a: Table, b: Table, c: Table, now: Time)
    requires BornNow(a, b, now) && BornNow(b, c, now)
    ensures BornNow(a, c, now)
  {
  }

  /** Every row is linked to a task that exists, or to none. */
  ghost predicate LinksKnown(d: Tables) {
    forall r | r in d.runs && d.runs[r].task.Some? :: d.runs[r].task.value in d.tasks
  }

  lemma PutBears(d: Tables, r: RunId, w: Write, now: Time)
    ensures BornNow(d.runs, PutRun(d, r, w, now).runs, now)
    ensures LinksKnown(d) && (w.task.Some? ==> w.task.value in d.tasks) ==> LinksKnown(PutRun(d, r, w, now))
  {
  }

  lemma NothingBorn(d: Tables, now: Time)
    ensures BornNow(d.runs, d.runs, now)
  {
  }

  lemma SyncBears(d: Tables, t: TaskId, e: Env)
    requires t in d.tasks
    ensures BornNow(d.runs, Sync(d, t, e).runs, e.now) && (LinksKnown(d) ==> LinksKnown(Sync(d, t, e)))
  {
    hide BornNow, LinksKnown, Upsert, NewestLinked;
    NothingBorn(d, e.now);
    var target := SyncTarget(d, t, e.pick);
    if target.Some? {
      var k := d.tasks[t];
      PutBears(d, target.value, Write(k.adapter, Some(t), k.status, None, NO_EVIDENCE), e.now);
    }
  }

  lemma PostBears(d: Tables, t: TaskId, reply: Reply, e: Env)
    ensures var d' := Post(d, t, reply, e);
      && t in d'.tasks
      && BornNow(d.runs, d'.runs, e.now) && (LinksKnown(d) ==> LinksKnown(d'))
  {
    hide BornNow, Sync;
    NothingBorn(d, e.now);
    var mid := d.(tasks := d.tasks[t := reply.task]);
    assert LinksKnown(d) ==> LinksKnown(mid);
    SyncBears(mid, t, e);
    SyncKeepsItsTasks(mid, t, e);
  }

  lemma SyncKeepsItsTasks(d: Tables, t: TaskId, e: Env)
    requires t in d.tasks
    ensures Sync(d, t, e).tasks == d.tasks
  {
  }

  lemma PersistBears(d: Tables, r: RunId, seen: Run, verdict: Status, text: Option<string>, e: Env)
    requires LinksKnown(d) && r in d.runs && d.runs[r].task == seen.task
    ensures var d' := Persist(d, r, seen, verdict, text, e);
      BornNow(d.runs, d'.runs, e.now) && LinksKnown(d')
  {
    hide BornNow, Upsert, Post, Mirror, ForceReconcile;
    var stdout := text.GetOr(seen.evidence.stdout);
    var w := Write(seen.executor, seen.task, verdict, Some(e.now), seen.evidence.(stdout := stdout));
    var d1 := PutRun(d, r, w, e.now);
    PutBears(d, r, w, e.now);
    if seen.task.Some? && seen.task.value in d1.tasks {
      var t := seen.task.value;
      var reply := Mirror(d1.tasks[t], verdict, stdout, e);
      PostBears(d1, t, reply, e);
      var d2 := Post(d1, t, reply, e);
      BornTransitively(d.runs, d1.runs, d2.runs, e.now);
      var f := ForceReconcile(d2.tasks[t], Some(r), Coarse(verdict), e, e.again);
      PostBears(d2, t, f, e);
      BornTransitively(d.runs, d2.runs, Post(d2, t, f, e).runs, e.now);
    }
  }

  lemma AnswerBears(d: Tables, polls: set<Snap>, seen: Snap, p: Poll, stamp: bool, e: Env)
    requires LinksKnown(d) && SnapsOk(d, polls) && seen in polls
    ensures var d' := Answered(d, seen.id, seen.row, p, stamp, e);
      BornNow(d.runs, d'.runs, e.now) && LinksKnown(d')
  {
    hide BornNow, LinksKnown, Persist, Heartbeat;
    NothingBorn(d, e.now);
    match p
    case Transient =>
    case Alive => TouchBears(d, Heartbeat(d.runs, seen.id, e.now), e.now);
      BeatTouches(d, seen.id, e.now);
    case Vanished => PersistBears(d, seen.id, seen.row, Timeout, None, e);
    case Ended(word, output) =>
      PersistBears(d, seen.id, seen.row, VerdictOf(word), Some(Text.Truncated(output)), e);
  }

  /** Same rows, same links, same creation times. */
  ghost predicate SameBirths(runs: Table, runs': Table) {
    runs'.Keys == runs.Keys && forall r | r in runs :: runs'[r].created == runs[r].created && runs'[r].task == runs[r].task
  }

  lemma TouchBears(d: Tables, runs: Table, now: Time)
    ensures SameBirths(d.runs, runs) ==> BornNow(d.runs, runs, now)
    ensures SameBirths(d.runs, runs) && LinksKnown(d) ==> LinksKnown(d.(runs := runs))
  {
    if SameBirths(d.runs, runs) {
      assert forall r :: r in runs <==> r in d.runs;
    }
  }

  lemma BeatTouches(d: Tables, r: RunId, now: Time)
    ensures SameBirths(d.runs, Heartbeat(d.runs, r, now))
  {
  }

  lemma SweepTouches(d: Tables, maxAge: int, now: Time)
    ensures SameBirths(d.runs, Sweep(d.runs, maxAge, now))
  {
  }

  lemma DispatchBears(d: Tables, t: TaskId, r: RunId, route: Route, reported: Status, e: Env)
    requires LinksKnown(d) && t in d.tasks
    ensures var d' := Dispatch(d, t, r, route, reported, e);
      BornNow(d.runs, d'.runs, e.now) && LinksKnown(d')
  {
    hide BornNow, Upsert;
    NothingBorn(d, e.now);
    PutBears(d, r, Write(Hermes, Some(t), Running, Some(e.now), NO_EVIDENCE), e.now);
    PutBears(d, r, Write(Hermes, Some(t), reported, Some(e.now), NO_EVIDENCE), e.now);
  }

  lemma StepBears(d: Tables, polls: set<Snap>, a: Action, before: Time)
    requires LinksKnown(d) && SnapsOk(d, polls)
    ensures var d' := StepTables(d, polls, a);
      BornNow(d.runs, d'.runs, Reading(a).GetOr(before)) && LinksKnown(d')
  {
    hide BornNow, Upsert, Post, Dispatch, Complete, Close, ForceReconcile, Answered, SnapsOk, FreshRun, OwnRun;
    hide Heartbeat, Sweep;
    var now := Reading(a).GetOr(before);
    NothingBorn(d, now);
    match a
    case Submitted(t, r, route, reported, e) =>
      if t in d.tasks { DispatchBears(d, t, r, route, reported, e); }
    case SubmittedUnlinked(r, executor, reported, e) =>
      PutBears(d, r, Write(executor, None, reported, Some(e.now), NO_EVIDENCE), e.now);
    case SubmitRejected(t, e) =>
      if t in d.tasks {
        var d1 := PutFailed(d, Some(t), e);
        var f := ForceReconcile(d.tasks[t], None, Failed, e, e.net);
        PutBears(d, SubmitFailed, Write(Hermes, Some(t), Failed, Some(e.now), NO_EVIDENCE), e.now);
        PostBears(d1, t, f, e);
        BornTransitively(d.runs, d1.runs, Post(d1, t, f, e).runs, e.now);
      }
    case SubmitRejectedUnlinked(e) =>
      PutBears(d, SubmitFailed, Write(Hermes, None, Failed, Some(e.now), NO_EVIDENCE), e.now);
    case Finished(t, c, e) =>
      if t in d.tasks { PostBears(d, t, Complete(d.tasks[t], c, e, 0), e); }
    case Closed(t, to, e) =>
      if t in d.tasks { PostBears(d, t, Close(d.tasks[t], to, e, 0), e); }
    case Forced(t, run, verdict, e) =>
      if t in d.tasks { PostBears(d, t, ForceReconcile(d.tasks[t], run, verdict, e, e.net), e); }
    case PollAnswered(seen, p, stamp, e) =>
      if seen in polls { AnswerBears(d, polls, seen, p, stamp, e); }
    case Beaten(r, e) =>
      BeatTouches(d, r, e.now);
      TouchBears(d, Heartbeat(d.runs, r, e.now), e.now);
    case Cleaned(maxAge, e) =>
      SweepTouches(d, maxAge, e.now);
      TouchBears(d, Sweep(d.runs, maxAge, e.now), e.now);
    case Create(_, _, _, _, _) =>
    case Requeue(_) =>
    case Report(_, _) =>
    case Read(_) =>
    case Found(_, _, _, _) =>
    case Claimed(_, _) =>
  }

  // ---- tasks come first ------------------------------------------------------------------------

  ghost predicate CreatedBy(d: Tables, now: Time) {
    forall t | t in d.tasks :: d.tasks[t].spec.createdAt <= now
  }

  /** A task is created before every row linked to it; the row of failed submits passes from task to
      task and is nobody's run. */
  ghost predicate LinkedLater(d: Tables) {
    forall r | r in d.runs && r != SubmitFailed && d.runs[r].task.Some? && d.runs[r].task.value in d.tasks ::
      d.tasks[d.runs[r].task.value].spec.createdAt <= d.runs[r].created
  }

  /** A step creates at most one task, now. */
  lemma StepCreates(d: Tables, polls: set<Snap>, a: Action, before: Time)
    requires Consistent(d) && SnapsOk(d, polls)
    requires CreatedBy(d, before) && before <= Reading(a).GetOr(before)
    ensures CreatedBy(StepTables(d, polls, a), Reading(a).GetOr(before))
  {
    hide Consistent, SnapsOk, Advances, StepTables, Grows;
    StepKeepsTables(d, polls, a);
    StepAddsTasks(d, polls, a);
    var d' := StepTables(d, polls, a);
    forall t | t in d'.tasks ensures d'.tasks[t].spec.createdAt <= Reading(a).GetOr(before) {
      if t in d.tasks {
        SpecStays(d.tasks[t], d'.tasks[t]);
      }
    }
  }

  lemma SpecStays(k: Task, k': Task)
    requires Advances(k, k')
    ensures k'.spec == k.spec
  {
  }

  lemma StepAddsTasks(d: Tables, polls: set<Snap>, a: Action)
    ensures forall t | t in StepTables(d, polls, a).tasks && t !in d.tasks ::
      a.Create? && StepTables(d, polls, a).tasks[t].spec.createdAt == a.spec.createdAt
  {
    hide Upsert, Dispatch, Complete, Close, ForceReconcile, Persist, FreshRun, OwnRun, Sync, Mirror;
    match a
    case Submitted(t, r, route, reported, e) =>
      if t in d.tasks { DispatchAddsNone(d, t, r, route, reported, e); }
    case SubmitRejected(t, e) =>
      if t in d.tasks { PostAddsNone(PutFailed(d, Some(t), e), t, ForceReconcile(d.tasks[t], None, Failed, e, e.net), e); }
    case Finished(t, c, e) =>
      if t in d.tasks { PostAddsNone(d, t, Complete(d.tasks[t], c, e, 0), e); }
    case Closed(t, to, e) =>
      if t in d.tasks { PostAddsNone(d, t, Close(d.tasks[t], to, e, 0), e); }
    case Forced(t, run, verdict, e) =>
      if t in d.tasks { PostAddsNone(d, t, ForceReconcile(d.tasks[t], run, verdict, e, e.net), e); }
    case PollAnswered(seen, p, stamp, e) =>
      if p.Vanished? {
        PersistAddsNone(d, seen.id, seen.row, Timeout, None, e);
      } else if p.Ended? {
        PersistAddsNone(d, seen.id, seen.row, VerdictOf(p.word), Some(Text.Truncated(p.output)), e);
      }
    case Create(_, _, _, _, _) =>
    case Requeue(_) =>
    case SubmittedUnlinked(_, _, _, _) =>
    case SubmitRejectedUnlinked(_) =>
    case Report(_, _) =>
    case Read(_) =>
    case Beaten(_, _) =>
    case Cleaned(_, _) =>
    case Found(_, _, _, _) =>
    case Claimed(_, _) =>
  }

  lemma DispatchAddsNone(d: Tables, t: TaskId, r: RunId, route: Route, reported: Status, e: Env)
    requires t in d.tasks
    ensures forall u | u in Dispatch(d, t, r, route, reported, e).tasks :: u in d.tasks
  {
    hide Upsert, Start;
  }

  lemma PostAddsNone(d: Tables, t: TaskId, reply: Reply, e: Env)
    requires t in d.tasks
    ensures t in Post(d, t, reply, e).tasks && forall u | u in Post(d, t, reply, e).tasks :: u in d.tasks
  {
    hide Sync;
    SyncKeepsItsTasks(d.(tasks := d.tasks[t := reply.task]), t, e);
  }

  lemma PersistAddsNone(d: Tables, r: RunId, seen: Run, verdict: Status, text: Option<string>, e: Env)
    ensures forall u | u in Persist(d, r, seen, verdict, text, e).tasks :: u in d.tasks
  {
    hide Upsert, Post, Mirror, ForceReconcile;
    var stdout := text.GetOr(seen.evidence.stdout);
    var w := Write(seen.executor, seen.task, verdict, Some(e.now), seen.evidence.(stdout := stdout));
    var d1 := PutRun(d, r, w, e.now);
    if seen.task.Some? && seen.task.value in d1.tasks {
      var t := seen.task.value;
      var reply := Mirror(d1.tasks[t], verdict, stdout, e);
      PostAddsNone(d1, t, reply, e);
      var d2 := Post(d1, t, reply, e);
      PostAddsNone(d2, t, ForceReconcile(d2.tasks[t], Some(r), Coarse(verdict), e, e.again), e);
    }
  }

  lemma StepLinksLater(d: Tables, d': Tables, now: Time)
    requires LinkedLater(d) && LinksKnown(d) && Keeps(d, d') && BornNow(d.runs, d'.runs, now) && CreatedBy(d', now)
    ensures LinkedLater(d')
  {
    hide Consistent;
    forall r | r in d'.runs && r != SubmitFailed && d'.runs[r].task.Some? && d'.runs[r].task.value in d'.tasks
      ensures d'.tasks[d'.runs[r].task.value].spec.createdAt <= d'.runs[r].created
    {
      if r in d.runs {
        var t := d.runs[r].task.value;
        assert d'.runs[r].task == d.runs[r].task && t in d.tasks;
        SpecStays(d.tasks[t], d'.tasks[t]);
      }
    }
  }

  /** What a run under a monotone clock keeps. */
  ghost predicate Ordered(d: Tables, now: Time) {
    LinksKnown(d) && CreatedBy(d, now) && LinkedLater(d)
  }

  lemma {:induction false} RunsAreOrdered(actions: seq<Action>)
    requires Forward(actions)
    ensures Ordered(Execute(actions).db, Clock.Latest(actions))
    decreases |actions|
  {
    hide StepTables, Inv, Consistent, SnapsOk, LinksKnown, CreatedBy, LinkedLater, BornNow, Keeps;
    if actions == [] {
      NothingIsOrdered();
    } else {
      var n := |actions| - 1;
      var m := Execute(actions[..n]);
      var before := Clock.Latest(actions[..n]);
      RunsAreOrdered(actions[..n]);
      Reachable(actions[..n]);
      InvariantParts(m);
      StepStaysOrdered(m.db, m.polls, actions[n], before);
      WaitingStaysOrdered(m.db, before, Clock.Latest(actions));
    }
  }

  lemma StepStaysOrdered(d: Tables, polls: set<Snap>, a: Action, before: Time)
    requires Consistent(d) && SnapsOk(d, polls) && Ordered(d, before) && before <= Reading(a).GetOr(before)
    ensures Ordered(StepTables(d, polls, a), Reading(a).GetOr(before))
  {
    hide StepTables, Consistent, SnapsOk, LinksKnown, CreatedBy, LinkedLater, BornNow, Keeps;
    StepBears(d, polls, a, before);
    StepCreates(d, polls, a, before);
    StepKeepsTables(d, polls, a);
    StepLinksLater(d, StepTables(d, polls, a), Reading(a).GetOr(before));
  }

  lemma WaitingStaysOrdered(d: Tables, before: Time, now: Time)
    requires Ordered(d, before) && before <= now
    ensures Ordered(d, now)
  {
  }

  lemma InvariantParts(m: Machine)
    requires Inv(m)
    ensures Consistent(m.db) && SnapsOk(m.db, m.polls)
  {
  }

  lemma NothingIsOrdered()
    ensures Ordered(START.db, 0)
  {
  }

  lemma OrderedTasksComeFirst(d: Tables, now: Time)
    requires Consistent(d) && Ordered(d, now)
    ensures TasksComeFirst(d)
  {
    forall t | t in d.tasks && d.tasks[t].hermes.Some? && d.tasks[t].hermes.value in d.runs
      ensures d.tasks[t].spec.createdAt <= d.runs[d.tasks[t].hermes.value].created
    {
      assert Carrier(d.tasks, t, d.tasks[t].hermes.value);
    }
  }

  /** In every state reachable under a monotone clock: a list shows a task in place of its run only
      when the run has no row or its row fails the filters. */
  lemma MatchingRowAlwaysWins(actions: seq<Action>, q: Query, items: seq<Item>)
    requires Forward(actions) && IsList(Execute(actions).db, q, items)
    ensures Correct(Execute(actions).db, q, items)
    ensures forall i | 0 <= i < |items| && items[i].fromTasks :: !Wanted(Execute(actions).db.runs, q, items[i].id)
  {
    hide Inv, Consistent, Ordered, Correct, ListedFrom;
    var d := Execute(actions).db;
    RunsAreOrdered(actions);
    Reachable(actions);
    InvariantParts(Execute(actions));
    OrderedTasksComeFirst(d, Clock.Latest(actions));
    var rows, found, sorted :| ListedFrom(d, q, items, rows, found, sorted);
    CutIsCorrect(d, q, items, rows, found, sorted);
    MatchingRowWins(d, q, items);
  }
}
