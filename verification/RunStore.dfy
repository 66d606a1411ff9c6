/** The run store as the service has it: one table updated in place. Every method is proved
    against the functions of Runs. */
module RunStores {
  import opened Models
  import opened Runs

  const LIFECYCLE_STEPS: set<string> := {
    "queued", "starting", "running", "collecting_output", "verifying_artifacts",
    "completed", "failed", "timeout", "cancelled"
  }

  /** What a heartbeat did: stamped the row, skipped a missing or terminal one, or was refused. */
  datatype Stamp = Stamped | Skipped | Rejected

  /** One SELECT of run rows: newest first, at most `limit`, none left out that is newer than one
      that is in. Ties are open. */
  ghost predicate NewestFirst(rows: Table, chosen: set<RunId>, limit: nat, ids: seq<RunId>) {
    && |ids| <= limit
    && (forall i | 0 <= i < |ids| :: ids[i] in rows && ids[i] in chosen)
    && (forall i, j | 0 <= i < j < |ids| ::
          ids[i] != ids[j] && rows[ids[i]].created >= rows[ids[j]].created)
    && (forall r | r in chosen && r in rows && r !in ids ::
          |ids| == limit && forall i | 0 <= i < |ids| :: rows[ids[i]].created >= rows[r].created)
  }

  /** The rows in flight of one executor. */
  function Watched(rows: Table, executor: Executor): set<RunId> {
    set r | r in rows && InFlight(rows[r]) && rows[r].executor == executor
  }

  method Newest(rows: Table, candidates: set<RunId>) returns (best: RunId)
    requires candidates != {} && forall r | r in candidates :: r in rows
    ensures best in candidates
    ensures forall r | r in candidates :: rows[r].created <= rows[best].created
  {
    best :| best in candidates;
    var rest := candidates - {best};
    while rest != {}
      invariant best in candidates && rest <= candidates
      invariant forall r | r in candidates - rest :: rows[r].created <= rows[best].created
      decreases rest
    {
      var r :| r in rest;
      if rows[r].created > rows[best].created {
        best := r;
      }
      rest := rest - {r};
    }
  }

  /** Part of a sweep: the rows named are swept, the others untouched. */
  ghost predicate SweptUpTo(was: Table, rows: Table, maxAge: int, now: Time, done: seq<RunId>) {
    && rows.Keys == was.Keys
    && forall r | r in was :: rows[r] == if r in done then Swept(was[r], maxAge, now) else was[r]
  }

  lemma SweptAll(was: Table, rows: Table, maxAge: int, now: Time, done: seq<RunId>)
    requires SweptUpTo(was, rows, maxAge, now, done)
    requires forall r :: r in done <==> r in was && Orphan(was[r]) && Aged(was[r], maxAge, now)
    ensures rows == Sweep(was, maxAge, now)
  {
    assert forall r | r in was :: rows[r] == Swept(was[r], maxAge, now);
  }

  class RunStore {
    var rows: Table

    constructor ()
      ensures rows == map[]
    {
      rows := map[];
    }

    /** INSERT OR REPLACE; returns the envelope written. */
    method UpsertRun(r: RunId, w: Write, now: Time) returns (envelope: Run)
      modifies this
      ensures rows == Upsert(old(rows), r, w, now)
      ensures envelope == rows[r]
    {
      envelope := Run(w.executor, w.task, w.status, now, now, None, w.beat, w.evidence);
      if r in rows {
        var existing := rows[r];
        envelope := envelope.(created := existing.created);
        if existing.completed.Some? {
          envelope := envelope.(completed := existing.completed);
        }
        if IsTerminal(w.status) {
          envelope := envelope.(completed := Some(envelope.completed.GetOr(now)));
        }
      } else {
        if IsTerminal(w.status) {
          envelope := envelope.(completed := Some(now));
        }
      }
      rows := rows[r := envelope];
    }

    /** A step outside the vocabulary is an error before anything is read. */
    method UpdateHeartbeat(r: RunId, step: string, now: Time) returns (stamp: Stamp)
      modifies this
      ensures stamp == Rejected <==> step !in LIFECYCLE_STEPS
      ensures stamp == Stamped <==>
        step in LIFECYCLE_STEPS && r in old(rows) && !IsTerminal(old(rows)[r].status)
      ensures rows == if stamp == Rejected then old(rows) else Heartbeat(old(rows), r, now)
    {
      if step !in LIFECYCLE_STEPS {
        return Rejected;
      }
      if r !in rows {
        return Skipped;
      }
      if IsTerminal(rows[r].status) {
        return Skipped;
      }
      rows := rows[r := rows[r].(beat := Some(now), updated := now)];
      return Stamped;
    }

    /** Select the orphans and keep the aged ones. */
    method SelectStale(maxAge: int, now: Time) returns (scanned: nat, stale: seq<RunId>)
      ensures scanned == |set r | r in rows && Orphan(rows[r])|
      ensures forall r :: r in stale <==> r in rows && Orphan(rows[r]) && Aged(rows[r], maxAge, now)
      ensures forall i, j | 0 <= i < j < |stale| :: stale[i] != stale[j]
    {
      var selected := set r | r in rows && Orphan(rows[r]);
      scanned := |selected|;
      stale := [];
      var rest := selected;
      while rest != {}
        invariant rest <= selected
        invariant forall r :: r in stale <==> r in selected - rest && Aged(rows[r], maxAge, now)
        invariant forall i, j | 0 <= i < j < |stale| :: stale[i] != stale[j]
        decreases rest
      {
        var r :| r in rest;
        assert r !in stale;
        if now - rows[r].created >= maxAge {
          stale := stale + [r];
        }
        rest := rest - {r};
      }
    }

    /** The UPDATE of one stale row, guarded once more by the missing task. */
    method CancelOrphan(r: RunId, now: Time)
      requires r in rows && rows[r].task.None?
      modifies this
      ensures rows
        == old(rows)[r := old(rows)[r].(status := Cancelled, completed := Some(old(rows)[r].created), updated := now)]
    {
      if rows[r].task.None? {
        rows := rows[r := rows[r].(status := Cancelled, completed := Some(rows[r].created), updated := now)];
      }
    }

    /** Select, then update row by row. */
    method ReconcileStaleRuns(maxAge: int, now: Time) returns (scanned: nat, reconciled: seq<RunId>)
      modifies this
      ensures rows == Sweep(old(rows), maxAge, now)
      ensures scanned == |set r | r in old(rows) && Orphan(old(rows)[r])|
      ensures forall r ::
        r in reconciled <==> r in old(rows) && Orphan(old(rows)[r]) && Aged(old(rows)[r], maxAge, now)
      ensures forall i, j | 0 <= i < j < |reconciled| :: reconciled[i] != reconciled[j]
    {
      scanned, reconciled := SelectStale(maxAge, now);
      for i := 0 to |reconciled|
        invariant SweptUpTo(old(rows), rows, maxAge, now, reconciled[..i])
      {
        var r := reconciled[i];
        assert r in reconciled && r !in reconciled[..i];
        CancelOrphan(r, now);
        assert reconciled[..i + 1] == reconciled[..i] + [r];
      }
      assert reconciled[..|reconciled|] == reconciled;
      SweptAll(old(rows), rows, maxAge, now, reconciled);
    }

    /** The rows in flight of one executor, newest first. */
    method ListNonTerminalRuns(executor: Executor, limit: nat) returns (ids: seq<RunId>)
      ensures NewestFirst(rows, Watched(rows, executor), limit, ids)
      ensures forall i | 0 <= i < |ids| ::
        && ids[i] in rows && rows[ids[i]].executor == executor
        && rows[ids[i]].status in {Queued, Started, Running}
      ensures forall r | r in rows && rows[r].executor == executor && rows[r].status in {Queued, Started, Running} ::
        r in ids || |ids| == limit
    {
      var chosen := Watched(rows, executor);
      var rest := chosen;
      ids := [];
      while rest != {} && |ids| < limit
        invariant rest <= chosen && |ids| <= limit
        invariant forall r :: r in ids <==> r in chosen - rest
        invariant forall i | 0 <= i < |ids| :: ids[i] in chosen && ids[i] in rows
        invariant forall i, j | 0 <= i < j < |ids| ::
          ids[i] != ids[j] && rows[ids[i]].created >= rows[ids[j]].created
        invariant forall i, r | 0 <= i < |ids| && r in rest :: rows[ids[i]].created >= rows[r].created
        decreases rest
      {
        var best := Newest(rows, rest);
        assert forall i | 0 <= i < |ids| :: ids[i] in ids;
        ids := ids + [best];
        rest := rest - {best};
      }
      assert forall r | r in chosen && r !in ids :: r in rest;
    }
  }
}
