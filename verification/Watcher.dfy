/** The background watcher: one tick sweeps now and then, reads the Hermes rows in flight once and
    then awaits one poll per row, while every other actor may run. */
module Watchers {
  import opened Models
  import opened Tasks
  import opened RunStores
  import opened Lifecycle
  import opened Lives
  import opened Interleavings
  import opened Safety
  import opened Polls
  import opened Bridges
  import Text

  const MAX_ROWS_PER_TICK: nat := 200
  const STALE_ORPHAN_MAX_AGE: int := 3600

  /** One await: what the others try meanwhile, what the poll answers, and what the world looks
      like when the answer is handled. */
  datatype Await = Await(meanwhile: seq<Action>, answer: Poll, e: Env)

  predicate Final(p: Poll) {
    p.Vanished? || p.Ended?
  }

  function Reads(ids: seq<RunId>): seq<Action> {
    if ids == [] then [] else Reads(ids[..|ids| - 1]) + [Read(ids[|ids| - 1])]
  }

  /** The actions of the awaits of a tick: for each row read, the others' actions and the answer. */
  function Rounds(snaps: seq<Snap>, others: seq<seq<Action>>, world: nat -> Await): seq<Action>
    requires |others| == |snaps|
  {
    if snaps == [] then []
    else
      var n := |snaps| - 1;
      Rounds(snaps[..n], others[..n], world) + others[n]
        + [PollAnswered(snaps[n], world(n).answer, true, world(n).e)]
  }

  /** A final answer leaves the polled row terminal. */
  lemma AnswerEndsTheRow(actions: seq<Action>, seen: Snap, p: Poll, e: Env)
    requires seen in Execute(actions).polls && Final(p)
    ensures var d := Step(Execute(actions), PollAnswered(seen, p, true, e)).db;
      seen.id in d.runs && IsTerminal(d.runs[seen.id].status)
  {
    hide Persist;
    Reachable(actions);
    AllSound(Execute(actions));
    var d := Execute(actions).db;
    var verdict := PolledVerdict(p);
    var text := if p.Vanished? then None else Some(Text.Truncated(p.output));
    PersistEndsTheRow(d, seen.id, seen.row, verdict, text, e);
  }

  lemma AllSound(m: Machine)
    requires Inv(m)
    ensures forall t | t in m.db.tasks :: Sound(m.db.tasks[t])
  {
  }

  /** The rows a history has ended, and no later action re-opens. */
  ghost predicate Over(actions: seq<Action>, r: RunId) {
    r in Execute(actions).db.runs && IsTerminal(Execute(actions).db.runs[r].status)
  }

  lemma OverForGood(actions: seq<Action>, more: seq<Action>, r: RunId)
    requires Over(actions, r)
    ensures Over(actions + more, r)
  {
    assert (actions + more)[..|actions|] == actions;
    TerminalRunsStayTerminal(actions + more, |actions|, r);
  }

  class ExecutorRunWatcher {
    const bridge: Bridge
    const every: nat
    var tickCount: nat

    constructor (bridge: Bridge, every: int)
      ensures this.bridge == bridge && tickCount == 0
      ensures this.every == if every < 1 then 1 else every
    {
      this.bridge := bridge;
      this.every := if every < 1 then 1 else every;
      tickCount := 0;
    }

    ghost predicate Valid()
      reads this, bridge, bridge.manager, bridge.store, bridge.manager.store
    {
      every >= 1 && bridge.Valid()
    }

    /** Every N-th tick sweeps first. */
    method SweepWhenDue(e: Env) returns (ghost swept: seq<Action>)
      requires Valid()
      modifies this, bridge, bridge.manager, bridge.store
      ensures Valid() && tickCount == old(tickCount) + 1
      ensures swept == if tickCount % every == 0 then [Cleaned(3600, e)] else []
      ensures bridge.history == old(bridge.history) + swept
    {
      tickCount := tickCount + 1;
      swept := [];
      if tickCount % every == 0 {
        bridge.Perform(Cleaned(STALE_ORPHAN_MAX_AGE, e));
        swept := [Cleaned(STALE_ORPHAN_MAX_AGE, e)];
      }
    }

    method ListRows() returns (ids: seq<RunId>)
      requires Valid()
      ensures var rows := bridge.store.rows;
        && NewestFirst(rows, Watched(rows, Hermes), 200, ids)
        && forall i | 0 <= i < |ids| :: ids[i] in rows && Pollable(rows[ids[i]])
    {
      ids := bridge.store.ListNonTerminalRuns(Hermes, MAX_ROWS_PER_TICK);
    }

    /** The rows of this tick, all read before the first await. */
    method ReadRows() returns (snaps: seq<Snap>, ghost ids: seq<RunId>)
      requires Valid()
      modifies bridge, bridge.manager, bridge.store
      ensures Valid() && tickCount == old(tickCount)
      ensures bridge.history == old(bridge.history) + Reads(ids)
      ensures bridge.store.rows == old(bridge.store.rows)
      ensures NewestFirst(bridge.store.rows, Watched(bridge.store.rows, Hermes), 200, ids)
      ensures |snaps| == |ids|
      ensures forall i | 0 <= i < |snaps| ::
        && snaps[i].id == ids[i] && ids[i] in bridge.store.rows
        && snaps[i].row == bridge.store.rows[ids[i]] && snaps[i] in bridge.polls
    {
      hide Step, Execute, NewestFirst;
      var rows := ListRows();
      ids := rows;
      snaps := [];
      for i := 0 to |rows|
        invariant Valid() && tickCount == old(tickCount)
        invariant bridge.store.rows == old(bridge.store.rows)
        invariant |snaps| == i
        invariant bridge.history == old(bridge.history) + Reads(rows[..i])
        invariant forall j | 0 <= j < i ::
          && snaps[j].id == rows[j] && snaps[j].row == bridge.store.rows[rows[j]] && snaps[j] in bridge.polls
      {
        ghost var before := bridge.history;
        var snap := Snap(rows[i], bridge.store.rows[rows[i]]);
        bridge.Perform(Read(rows[i]));
        ReadTakesASnapshot(before, rows[i]);
        snaps := snaps + [snap];
        assert rows[..i + 1][..i] == rows[..i];
      }
      assert rows[..|rows|] == rows;
    }

    /** One row of a tick: await the poll while the others run, then handle the answer. */
    method AwaitPoll(snap: Snap, w: Await, ghost over: set<RunId>) returns (ghost done: seq<Action>)
      requires Valid() && snap in bridge.polls
      requires forall r | r in over :: Over(bridge.history, r)
      modifies bridge, bridge.manager, bridge.store
      ensures Valid() && tickCount == old(tickCount)
      ensures bridge.history == old(bridge.history) + done + [PollAnswered(snap, w.answer, true, w.e)]
      ensures old(bridge.polls) <= bridge.polls
      ensures forall r | r in over :: Over(bridge.history, r)
      ensures Final(w.answer) ==> Over(bridge.history, snap.id)
    {
      hide Step, Over;
      done := bridge.Yield(w.meanwhile);
      ghost var during := bridge.history;
      var a := PollAnswered(snap, w.answer, true, w.e);
      bridge.Perform(a);
      StillOver(old(bridge.history), done + [a], over);
      assert old(bridge.history) + (done + [a]) == bridge.history;
      ExecuteOne(during, a);
      PollsGrow(Execute(during), a);
      if Final(w.answer) {
        AnswerEndsTheRow(during, snap, w.answer, w.e);
        OverNow(during, a, snap.id);
      }
    }

    /** The per-row loop. */
    method AwaitPolls(snaps: seq<Snap>, world: nat -> Await) returns (ghost others: seq<seq<Action>>)
      requires Valid() && forall i | 0 <= i < |snaps| :: snaps[i] in bridge.polls
      modifies bridge, bridge.manager, bridge.store
      ensures Valid() && tickCount == old(tickCount) && |others| == |snaps|
      ensures bridge.history == old(bridge.history) + Rounds(snaps, others, world)
      ensures forall i | 0 <= i < |snaps| && Final(world(i).answer) :: Over(bridge.history, snaps[i].id)
    {
      hide Over, Execute, Final, Enabled;
      others := [];
      ghost var over := {};
      for i := 0 to |snaps|
        invariant Valid() && tickCount == old(tickCount)
        invariant |others| == i
        invariant forall j | 0 <= j < |snaps| :: snaps[j] in bridge.polls
        invariant bridge.history == old(bridge.history) + Rounds(snaps[..i], others, world)
        invariant forall r | r in over :: Over(bridge.history, r)
        invariant forall j | 0 <= j < i && Final(world(j).answer) :: snaps[j].id in over
      {
        ghost var done := AwaitPoll(snaps[i], world(i), over);
        if Final(world(i).answer) {
          over := over + {snaps[i].id};
        }
        RoundsGrow(snaps, i, others, done, world);
        others := others + [done];
      }
      assert snaps[..|snaps|] == snaps;
    }

    /** One tick, whatever the others do at each await: the bridge has performed the sweep, the
        reads and, in order, one answer per row read, each between the others' actions; and every
        run whose poll came back final is over by the end of the tick. */
    method Tick(e: Env, world: nat -> Await)
      returns (snaps: seq<Snap>, ghost ids: seq<RunId>, ghost others: seq<seq<Action>>)
      requires Valid()
      modifies this, bridge, bridge.manager, bridge.store
      ensures Valid() && tickCount == old(tickCount) + 1
      ensures |ids| == |snaps| == |others| <= 200
      ensures var swept := if tickCount % every == 0 then [Cleaned(3600, e)] else [];
        var rows := Execute(old(bridge.history) + swept).db.runs;
        && NewestFirst(rows, Watched(rows, Hermes), 200, ids)
        && (forall i | 0 <= i < |snaps| :: ids[i] in rows && snaps[i] == Snap(ids[i], rows[ids[i]]))
        && bridge.history == old(bridge.history) + swept + Reads(ids) + Rounds(snaps, others, world)
      ensures forall i | 0 <= i < |snaps| && Final(world(i).answer) ::
        snaps[i].id in bridge.store.rows && IsTerminal(bridge.store.rows[snaps[i].id].status)
    {
      ghost var swept := SweepWhenDue(e);
      snaps, ids := ReadRows();
      others := AwaitPolls(snaps, world);
      assert bridge.store.rows == Execute(bridge.history).db.runs;
    }
  }

  lemma ReadTakesASnapshot(actions: seq<Action>, r: RunId)
    requires r in Execute(actions).db.runs && Pollable(Execute(actions).db.runs[r])
    ensures Execute(actions + [Read(r)]).polls == Execute(actions).polls + {Snap(r, Execute(actions).db.runs[r])}
    ensures Execute(actions + [Read(r)]).db == Execute(actions).db
  {
    ExecuteOne(actions, Read(r));
  }

  /** What was over before an await is over after the answer. */
  lemma StillOver(before: seq<Action>, more: seq<Action>, over: set<RunId>)
    requires forall r | r in over :: Over(before, r)
    ensures forall r | r in over :: Over(before + more, r)
  {
    forall r | r in over ensures Over(before + more, r) {
      OverForGood(before, more, r);
    }
  }

  lemma OverNow(actions: seq<Action>, a: Action, r: RunId)
    requires r in Step(Execute(actions), a).db.runs && IsTerminal(Step(Execute(actions), a).db.runs[r].status)
    ensures Over(actions + [a], r)
  {
    ExecuteOne(actions, a);
  }

  lemma RoundsGrow(snaps: seq<Snap>, i: nat, others: seq<seq<Action>>, done: seq<Action>, world: nat -> Await)
    requires |others| == i < |snaps|
    ensures Rounds(snaps[..i + 1], others + [done], world)
      == Rounds(snaps[..i], others, world) + done + [PollAnswered(snaps[i], world(i).answer, true, world(i).e)]
  {
    assert snaps[..i + 1][..i] == snaps[..i] && (others + [done])[..i] == others;
  }
}
