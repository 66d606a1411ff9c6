/** What a reader of a run is shown: the run row, with the evidence the linked task kept merged in
    where the row has none. */
module EvidenceMerge {
  import opened Models
  import opened Notification
  import opened Tasks
  import opened Runs
  import opened Lives
  import opened Lifecycle
  import opened TwoTables
  import opened Polls
  import Text

  datatype Source = Stored | MergedIn

  datatype Envelope = Envelope(row: Run, source: Source)

  /** What `_collect_task_evidence` finds for a task. */
  datatype TaskEvidence = TaskEvidence(text: string, artifacts: seq<string>, checks: seq<string>,
                                       telegram: Option<Answer>)

  /** `_collect_task_evidence`: the stored text and notification, and the artifacts on record;
      nothing when none of them says anything. */
  function Collected(out: Output, artifacts: seq<string>, checks: seq<string>): Option<TaskEvidence> {
    var text := out.text.GetOr("");
    var telegram := match out.blob { case None => None case Some(b) => Some(b.answer) };
    if Text.Blank(text) && artifacts == [] && checks == [] && telegram.None? then None
    else Some(TaskEvidence(text, artifacts, checks, telegram))
  }

  predicate EvidenceIsEmpty(v: Evidence) {
    Text.Blank(v.stdout) && v.artifacts == [] && v.checks == [] && v.git.None?
  }

  /** `_merge_task_evidence_into_envelope`, the collected evidence given. */
  function MergeTaskEvidence(env: Envelope, found: Option<TaskEvidence>): Envelope {
    var v := env.row.evidence;
    if env.row.task.None? || found.None? then env
    else
      var f := found.value;
      var telegram := if !Delivered(v.telegram) && f.telegram.Some? then f.telegram.value else v.telegram;
      if !EvidenceIsEmpty(v) then env.(row := env.row.(evidence := v.(telegram := telegram)))
      else if Text.Blank(f.text) && f.artifacts == [] then env
      else
        Envelope(env.row.(evidence := Evidence(
          if Text.Blank(v.stdout) && f.text != "" then Text.Truncated(f.text) else v.stdout,
          if v.artifacts == [] then f.artifacts else v.artifacts,
          if v.checks == [] then f.checks else v.checks,
          v.git,
          telegram)), MergedIn)
  }

  /** The lifecycle half of a row. */
  predicate SameLifecycle(a: Run, b: Run) {
    a.(evidence := NO_EVIDENCE) == b.(evidence := NO_EVIDENCE)
  }

  lemma TruncationIsNotBlank(s: string)
    requires !Text.Blank(s)
    ensures !Text.Blank(Text.Truncated(s))
  {
    if |s| > Text.CAP {
      assert Text.Truncated(s)[Text.CAP] == '.';
    }
  }

  /** Merging keeps every lifecycle field, replaces no evidence the row has, never a confirmed
      delivery, and does nothing the second time. */
  lemma MergeIsSafe(env: Envelope, found: Option<TaskEvidence>)
    ensures var m := MergeTaskEvidence(env, found);
      var v, v' := env.row.evidence, m.row.evidence;
      && SameLifecycle(m.row, env.row)
      && (!Text.Blank(v.stdout) ==> v'.stdout == v.stdout)
      && (v.artifacts != [] ==> v'.artifacts == v.artifacts)
      && (v.checks != [] ==> v'.checks == v.checks)
      && v'.git == v.git
      && (Delivered(v.telegram) ==> v'.telegram == v.telegram)
      && MergeTaskEvidence(m, found) == m
  {
    var m := MergeTaskEvidence(env, found);
    if found.Some? && !Text.Blank(found.value.text) {
      TruncationIsNotBlank(found.value.text);
    }
    assert m.row.evidence == env.row.evidence || !EvidenceIsEmpty(m.row.evidence) || m == env;
  }

  /** What a merge fills in, column by column. A row that has evidence of its own takes only the
      notification, and only while it has no confirmed delivery; a row without evidence also takes the
      stored text, cut to size, and the artifacts and checks on record, if there is a text or an
      artifact, and is marked as merged. */
  lemma MergeFills(env: Envelope, f: TaskEvidence)
    requires env.row.task.Some?
    ensures var m := MergeTaskEvidence(env, Some(f));
      var v, v' := env.row.evidence, m.row.evidence;
      var own := !Text.Blank(v.stdout) || v.artifacts != [] || v.checks != [] || v.git.Some?;
      var offered := !Text.Blank(f.text) || f.artifacts != [];
      && (own ==> m.source == env.source && v' == v.(telegram := v'.telegram))
      && (!own && !offered ==> m == env)
      && (!own && offered ==>
            && m.source == MergedIn && v'.artifacts == f.artifacts && v'.checks == f.checks && v'.git == v.git
            && v'.stdout == (if f.text == "" then v.stdout else Text.Truncated(f.text)))
      && (own || offered ==>
            v'.telegram == if !(v.telegram.sent && v.telegram.mid.Some?) && f.telegram.Some?
                           then f.telegram.value else v.telegram)
  {
  }

  /** What is collected for a task: its text, its notification and what is on record; nothing when
      none of them says anything. Without a task, or without anything collected, nothing is merged. */
  lemma CollectedExactly(env: Envelope, out: Output, artifacts: seq<string>, checks: seq<string>)
    ensures Collected(out, artifacts, checks) == None <==>
      (out.text.None? || Text.Blank(out.text.value)) && artifacts == [] && checks == [] && out.blob.None?
    ensures var f := Collected(out, artifacts, checks);
      f.Some? ==>
        && f.value.artifacts == artifacts && f.value.checks == checks
        && f.value.text == (if out.text.Some? then out.text.value else "")
        && (out.blob.None? ==> f.value.telegram == None)
        && (out.blob.Some? ==> f.value.telegram == Some(out.blob.value.answer))
    ensures MergeTaskEvidence(env, None) == env
    ensures env.row.task.None? ==> MergeTaskEvidence(env, Collected(out, artifacts, checks)) == env
  {
    assert Text.Blank("");
  }

  // ---- what becomes of the output of a poll ----------------------------------------------------

  /** The envelope a reader gets for run `r`, with the artifacts on record for its task. */
  function Shown(d: Tables, r: RunId, artifacts: seq<string>, checks: seq<string>): Envelope
    requires r in d.runs
  {
    var row := d.runs[r];
    var found :=
      if row.task.Some? && row.task.value in d.tasks
      then Collected(d.tasks[row.task.value].out, artifacts, checks) else None;
    MergeTaskEvidence(Envelope(row, Stored), found)
  }

  /** The completion a poll triggers passes the gate at the first check. */
  predicate PassesAtOnce(k: Task, e: Env) {
    && IsLegal(k.status, Completed)
    && Missing(e.disk, 0, k.spec.declared) == []
  }

  lemma FinishText(k: Task, c: Call, e: Env, tick: nat)
    ensures Finish(k, c, e, tick).task.out.text
      == if c.text.Some? || c.extra || e.artifacts then c.text else k.out.text
  {
    hide NotifyGate;
  }

  lemma CloseText(k: Task, to: Status, e: Env, tick: nat)
    ensures Close(k, to, e, tick).task.out.text == k.out.text
  {
    hide NotifyGate;
  }

  /** The text a task stores after a completed poll that brought `text`: the new one, unless it is
      empty, when the gate passed at once; none when artifacts were recorded behind a rescue or without
      a text, since the output row is then rewritten without one; else what it stored before. */
  function KeptText(k: Task, text: string, e: Env): Option<string> {
    if text != "" && PassesAtOnce(k, e) then Some(text)
    else if IsLegal(k.status, Completed) && Inspect(e.disk, 0, k.spec.declared, RescuesLeft(k)).passed && e.artifacts
    then None
    else k.out.text
  }

  lemma CompletionKeepsTheText(k: Task, text: string, e: Env)
    requires Sound(k)
    ensures Complete(k, Call(OutputText(text), false), e, 0).task.out.text == KeptText(k, text, e)
  {
    hide Finish, Close, Sound;
    var c := Call(OutputText(text), false);
    if IsLegal(k.status, Completed) {
      var v := Inspect(e.disk, 0, k.spec.declared, RescuesLeft(k));
      SpentIsAffordable(e.disk, 0, k.spec.declared, RescuesLeft(k));
      DetoursAreSound(k, v.spent);
      var back := Detours(k, v.spent);
      FinishText(back, if v.spent == 0 then c else Call(None, false), e, v.tick);
      CloseText(back, Failed, e, v.tick);
    }
  }

  lemma ForceKeepsTheText(k: Task, run: Option<RunId>, verdict: Status, e: Env, net: Net)
    ensures ForceReconcile(k, run, verdict, e, net).task.out.text == k.out.text
  {
  }

  lemma SyncErasesTheRow(d: Tables, t: TaskId, e: Env, r: RunId)
    requires t in d.tasks && d.tasks[t].RunKey() == Some(r)
    ensures var d' := Sync(d, t, e);
      && d'.tasks == d.tasks && r in d'.runs
      && d'.runs[r].evidence == NO_EVIDENCE && d'.runs[r].task == Some(t)
  {
  }

  lemma SyncSparesTheRow(d: Tables, t: TaskId, e: Env, r: RunId)
    requires t in d.tasks && r in d.runs
    ensures var d' := Sync(d, t, e);
      && d'.tasks == d.tasks && r in d'.runs
      && (SyncTarget(d, t, e.pick) == Some(r) ==>
            d'.runs[r].evidence == NO_EVIDENCE && d'.runs[r].task == Some(t))
      && (SyncTarget(d, t, e.pick) != Some(r) ==> d'.runs[r] == d.runs[r])
  {
  }

  /** The tables once the polled row is written. */
  function Written(d: Tables, r: RunId, seen: Run, text: string, e: Env): Tables {
    PutRun(d, r, Write(seen.executor, seen.task, Completed, Some(e.now), seen.evidence.(stdout := text)), e.now)
  }

  /** Lifecycle sync overwrites the polled row: the task goes by that run, or the row is the newest
      linked one of a task without a run, or the verdict has to be forced onto the task. */
  predicate Erased(d: Tables, r: RunId, seen: Run, text: string, e: Env)
    requires seen.task.Some? && seen.task.value in d.tasks
  {
    || MustForce(d.tasks[seen.task.value], Completed, text, e)
    || SyncTarget(Written(d, r, seen, text, e), seen.task.value, e.pick) == Some(r)
  }

  lemma SameTarget(d: Tables, t: TaskId, k: Task, pick: RunId)
    requires t in d.tasks && k.RunKey() == d.tasks[t].RunKey()
    ensures SyncTarget(d.(tasks := d.tasks[t := k]), t, pick) == SyncTarget(d, t, pick)
  {
  }

  lemma WrittenRow(d: Tables, r: RunId, seen: Run, text: string, e: Env)
    ensures var d1 := Written(d, r, seen, text, e);
      && d1.tasks == d.tasks && r in d1.runs && d1.runs[r].task == seen.task
      && d1.runs[r].evidence == seen.evidence.(stdout := text)
  {
  }

  /** Where the output of a completed poll ends up: in the polled row unless lifecycle sync erases
      it, and in the task as far as the completion keeps it. */
  lemma PolledOutputMoves(d: Tables, r: RunId, seen: Run, text: string, e: Env)
    requires seen.task.Some? && seen.task.value in d.tasks && Sound(d.tasks[seen.task.value])
    ensures var t := seen.task.value;
      var d' := Persist(d, r, seen, Completed, Some(text), e);
      && t in d'.tasks && r in d'.runs && d'.runs[r].task == Some(t)
      && d'.runs[r].evidence
         == (if Erased(d, r, seen, text, e) then NO_EVIDENCE else seen.evidence.(stdout := text))
      && d'.tasks[t].out.text == KeptText(d.tasks[t], text, e)
  {
    hide Complete, Close, ForceReconcile, Upsert, Sound, Sync, PassesAtOnce, KeptText, NewestLinked, SyncTarget, PutRun;
    var t := seen.task.value;
    var k := d.tasks[t];
    var d1 := Written(d, r, seen, text, e);
    WrittenRow(d, r, seen, text, e);
    var c := Call(OutputText(text), false);
    var reply := Complete(k, c, e, 0);
    CompletionKeepsTheText(k, text, e);
    CompleteShape(k, c, e);
    var mid := d1.(tasks := d1.tasks[t := reply.task]);
    SameTarget(d1, t, reply.task, e.pick);
    var d2 := Post(d1, t, reply, e);
    SyncKeepsTasks(mid, t, e);
    if reply.outcome == Settled {
      SyncSparesTheRow(mid, t, e, r);
    } else {
      var f := ForceReconcile(d2.tasks[t], Some(r), Completed, e, e.again);
      ForceSettles(d2.tasks[t], Some(r), Completed, e, e.again);
      ForceKeepsTheText(d2.tasks[t], Some(r), Completed, e, e.again);
      SyncErasesTheRow(d2.(tasks := d2.tasks[t := f.task]), t, e, r);
    }
  }

  /** What a reader sees of a row without evidence whose task stores a text. */
  function FromTask(kept: Option<string>, artifacts: seq<string>): string {
    var text := kept.GetOr("");
    if Text.Blank(text) && artifacts == [] then "" else Text.Truncated(text)
  }

  /** The output of a completed poll stays in its row when lifecycle sync spares the row; else a
      reader is shown what the task stores, and nothing else. For a task that goes by the polled run
      and stored no text before, the output is shown exactly when the completion passed the artifact
      gate at its first check: when the manager refused it, or it took a rescue, the output is gone
      from both tables although the run shows completed. */
  lemma PolledOutputIsShownExactly(d: Tables, r: RunId, seen: Run, output: string, e: Env,
                                   artifacts: seq<string>, checks: seq<string>)
    requires seen.task.Some? && seen.task.value in d.tasks && !Text.Blank(output)
    requires Sound(d.tasks[seen.task.value])
    ensures var text := Text.Truncated(output);
      var k := d.tasks[seen.task.value];
      var d' := Persist(d, r, seen, Completed, Some(text), e);
      && r in d'.runs
      && var shown := Shown(d', r, artifacts, checks).row.evidence.stdout;
      && shown == (if Erased(d, r, seen, text, e) then FromTask(KeptText(k, text, e), artifacts) else text)
      && (k.RunKey() == Some(r) && k.out.text.None? ==>
            && (shown == text <==> PassesAtOnce(k, e))
            && (!PassesAtOnce(k, e) ==> shown == ""))
  {
    hide Persist, PassesAtOnce, Sound, MustForce, Inspect;
    var text := Text.Truncated(output);
    TruncationIsNotBlank(output);
    assert text != "";
    PolledOutputMoves(d, r, seen, text, e);
    Text.TruncatingTwiceIsTruncatingOnce(output);
    assert Text.Blank("");
  }
}
