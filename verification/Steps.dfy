/** The step-evidence store: one row per (run, step, generation, attempt), replaced in place by a
    retry with the same key and appended otherwise. */
module Steps {
  import opened Models

  datatype Key = Key(run: string, step: string, generation: int, attempt: int)

  datatype StepRow = StepRow(id: string, key: Key, task: Option<TaskId>, status: string,
                             started: Option<Time>, finished: Option<Time>, summary: string,
                             recorded: Time)

  /** The table in rowid order. */
  type Store = seq<StepRow>

  function IndexOf(rows: Store, key: Key): (n: nat)
    ensures n <= |rows|
    ensures n < |rows| ==> rows[n].key == key
    ensures forall i | 0 <= i < n :: rows[i].key != key
  {
    if rows == [] then 0
    else
      var n := IndexOf(rows[..|rows| - 1], key);
      if n < |rows| - 1 then n else if rows[|rows| - 1].key == key then |rows| - 1 else |rows|
  }

  function Coalesce<T>(first: Option<T>, second: Option<T>): Option<T> {
    if first.Some? then first else second
  }

  /** ON CONFLICT DO UPDATE: the id stays, a missing task id or start time does not erase one. */
  function Replaced(stored: StepRow, retry: StepRow): StepRow {
    retry.(id := stored.id, task := Coalesce(retry.task, stored.task),
           started := Coalesce(retry.started, stored.started))
  }

  /** Some row has the id. */
  predicate HasId(rows: seq<StepRow>, id: string) {
    exists j | 0 <= j < |rows| :: rows[j].id == id
  }

  /** The id is taken by a row of another key: the primary key refuses the insert. */
  predicate Clashes(rows: Store, row: StepRow) {
    IndexOf(rows, row.key) == |rows| && HasId(rows, row.id)
  }

  /** `append_step`; a refused insert leaves the table alone. */
  function Append(rows: Store, row: StepRow): Store {
    var n := IndexOf(rows, row.key);
    if n < |rows| then rows[n := Replaced(rows[n], row)]
    else if HasId(rows, row.id) then rows
    else rows + [row]
  }

  function AppendAll(rows: Store, appended: seq<StepRow>): Store {
    if appended == [] then rows
    else Append(AppendAll(rows, appended[..|appended| - 1]), appended[|appended| - 1])
  }

  ghost predicate UniqueKeys(rows: Store) {
    forall i, j | 0 <= i < j < |rows| :: rows[i].key != rows[j].key
  }

  ghost predicate UniqueIds(rows: Store) {
    forall i, j | 0 <= i < j < |rows| :: rows[i].id != rows[j].id
  }

  /** What no append takes back: every row keeps its place, id and key, and neither its task id nor
      its start time returns to null. */
  ghost predicate Grown(rows: Store, rows': Store) {
    && |rows| <= |rows'|
    && forall i | 0 <= i < |rows| ::
         && rows'[i].id == rows[i].id && rows'[i].key == rows[i].key
         && (rows[i].task.Some? ==> rows'[i].task.Some?)
         && (rows[i].started.Some? ==> rows'[i].started.Some?)
  }

  /** Fresh step ids: no two appended rows share one, and none is stored already. */
  ghost predicate FreshIds(rows: Store, appended: seq<StepRow>) {
    && UniqueIds(appended)
    && forall i, j | 0 <= i < |rows| && 0 <= j < |appended| :: rows[i].id != appended[j].id
  }

  /** Where the ids of a store come from. */
  ghost predicate IdsFrom(rows: Store, before: Store, appended: seq<StepRow>) {
    forall i | 0 <= i < |rows| :: HasId(before, rows[i].id) || HasId(appended, rows[i].id)
  }

  lemma {:induction false} IdsAreAppended(rows: Store, appended: seq<StepRow>)
    ensures IdsFrom(AppendAll(rows, appended), rows, appended)
    decreases |appended|
  {
    if appended != [] {
      var n := |appended| - 1;
      IdsAreAppended(rows, appended[..n]);
      var mid := AppendAll(rows, appended[..n]);
      var all := AppendAll(rows, appended);
      forall i | 0 <= i < |all| ensures HasId(rows, all[i].id) || HasId(appended, all[i].id) {
        assert all[i].id == if i < |mid| then mid[i].id else appended[n].id;
        if i < |mid| && HasId(appended[..n], mid[i].id) {
          var j :| 0 <= j < n && appended[..n][j].id == mid[i].id;
          assert appended[j].id == all[i].id;
        }
      }
    }
  }

  lemma OneAppend(rows: Store, row: StepRow)
    requires UniqueKeys(rows)
    ensures var rows' := Append(rows, row);
      && UniqueKeys(rows') && Grown(rows, rows')
      && (HasKey(rows', row.key) <==> !Clashes(rows, row))
  {
    var n := IndexOf(rows, row.key);
    if !Clashes(rows, row) {
      assert Append(rows, row)[n].key == row.key;
    }
  }

  lemma GrownTransitively(a: Store, b: Store, c: Store)
    requires Grown(a, b) && Grown(b, c)
    ensures Grown(a, c)
  {
  }

  /** One row stands for the key. */
  ghost predicate HasKey(rows: Store, key: Key) {
    exists i | 0 <= i < |rows| :: rows[i].key == key
  }

  lemma KeysStay(rows: Store, rows': Store)
    requires Grown(rows, rows')
    ensures forall key | HasKey(rows, key) :: HasKey(rows', key)
  {
    forall key | HasKey(rows, key) ensures HasKey(rows', key) {
      var i :| 0 <= i < |rows| && rows[i].key == key;
      assert rows'[i].key == key;
    }
  }

  lemma IdsStayUnique(rows: Store, row: StepRow)
    requires UniqueIds(rows)
    ensures UniqueIds(Append(rows, row))
  {
    var rows' := Append(rows, row);
    assert forall i | 0 <= i < |rows'| :: rows'[i].id == if i < |rows| then rows[i].id else row.id;
  }

  /** Append-only: over any appends no row disappears or loses its id, place, task id or start time,
      and keys and ids stay unique; with fresh ids one row stands for each key ever appended. */
  lemma {:induction false} StoreIsAppendOnly(rows: Store, appended: seq<StepRow>)
    requires UniqueKeys(rows) && UniqueIds(rows)
    ensures var rows' := AppendAll(rows, appended);
      && UniqueKeys(rows') && UniqueIds(rows') && Grown(rows, rows')
      && (FreshIds(rows, appended) ==> forall j | 0 <= j < |appended| :: HasKey(rows', appended[j].key))
    decreases |appended|
  {
    hide Grown, UniqueKeys, UniqueIds, Append, HasKey, Clashes;
    if appended == [] {
      GrownReflexively(rows);
    } else {
      var n := |appended| - 1;
      var mid := AppendAll(rows, appended[..n]);
      var all := AppendAll(rows, appended);
      StoreIsAppendOnly(rows, appended[..n]);
      OneAppend(mid, appended[n]);
      GrownTransitively(rows, mid, all);
      IdsStayUnique(mid, appended[n]);
      if FreshIds(rows, appended) {
        FreshPrefix(rows, appended);
        KeysStay(mid, all);
        IdsAreAppended(rows, appended[..n]);
        LastIdIsNew(rows, appended, mid);
        NewIdsDoNotClash(mid, appended[n]);
        assert forall j | 0 <= j < n :: appended[..n][j] == appended[j];
      }
    }
  }

  lemma FreshPrefix(rows: Store, appended: seq<StepRow>)
    requires appended != [] && FreshIds(rows, appended)
    ensures FreshIds(rows, appended[..|appended| - 1])
  {
  }

  lemma NewIdsDoNotClash(rows: Store, row: StepRow)
    requires !HasId(rows, row.id)
    ensures !Clashes(rows, row)
  {
  }

  lemma GrownReflexively(rows: Store)
    ensures Grown(rows, rows)
  {
  }

  lemma LastIdIsNew(rows: Store, appended: seq<StepRow>, mid: Store)
    requires appended != [] && FreshIds(rows, appended)
    requires IdsFrom(mid, rows, appended[..|appended| - 1])
    ensures !HasId(mid, appended[|appended| - 1].id)
  {
    var n := |appended| - 1;
    forall i | 0 <= i < |mid| ensures mid[i].id != appended[n].id {
      if HasId(appended[..n], mid[i].id) {
        var j :| 0 <= j < n && appended[..n][j].id == mid[i].id;
        assert appended[j].id != appended[n].id;
      }
    }
  }

  /** A retry keeps the row count and the id and takes over the new payload, whatever id it brings. */
  lemma RetryReplacesInPlace(rows: Store, row: StepRow, retry: StepRow)
    requires UniqueKeys(rows) && retry.key == row.key && !Clashes(rows, row)
    ensures var once, twice := Append(rows, row), Append(Append(rows, row), retry);
      var n := IndexOf(once, row.key);
      && |twice| == |once| && n < |once|
      && twice[n].id == once[n].id && twice[n].status == retry.status
      && (forall i | 0 <= i < |once| && i != n :: twice[i] == once[i])
  {
    OneAppend(rows, row);
  }

  // ---- reading ---------------------------------------------------------------------------------

  datatype Filter = Filter(task: Option<TaskId>, run: Option<string>, step: Option<string>, status: Option<string>)

  predicate Matches(f: Filter, row: StepRow) {
    && (f.task.Some? ==> row.task == f.task)
    && (f.run.Some? ==> row.key.run == f.run.value)
    && (f.step.Some? ==> row.key.step == f.step.value)
    && (f.status.Some? ==> row.status == f.status.value)
  }

  /** generation, attempt, recorded_at, then rowid. */
  predicate Earlier(rows: Store, i: nat, j: nat)
    requires i < |rows| && j < |rows|
  {
    var a, b := rows[i], rows[j];
    if a.key.generation != b.key.generation then a.key.generation < b.key.generation
    else if a.key.attempt != b.key.attempt then a.key.attempt < b.key.attempt
    else if a.recorded != b.recorded then a.recorded < b.recorded
    else i < j
  }

  predicate WithinLimit(n: nat, limit: int) {
    limit < 0 || n <= limit
  }

  /** The positions a correct answer lists: matching rows in strict order; one is left out only
      when the limit is reached, and then it comes after all that are listed. */
  ghost predicate IsListing(rows: Store, f: Filter, limit: int, listed: seq<nat>) {
    && WithinLimit(|listed|, limit)
    && (forall n | 0 <= n < |listed| :: listed[n] < |rows| && Matches(f, rows[listed[n]]))
    && (forall m, n | 0 <= m < n < |listed| :: Earlier(rows, listed[m], listed[n]))
    && (forall i | 0 <= i < |rows| && Matches(f, rows[i]) && i !in listed ::
          |listed| == limit && forall n | 0 <= n < |listed| :: Earlier(rows, listed[n], i))
  }

  ghost predicate Positions(rows: Store, f: Filter, some: seq<nat>) {
    forall n | 0 <= n < |some| :: some[n] < |rows| && Matches(f, rows[some[n]])
  }

  ghost predicate NoRepeats(some: seq<nat>) {
    forall m, n | 0 <= m < n < |some| :: some[m] != some[n]
  }

  ghost predicate InOrder(rows: Store, listed: seq<nat>)
    requires forall n | 0 <= n < |listed| :: listed[n] < |rows|
  {
    forall m, n | 0 <= m < n < |listed| :: Earlier(rows, listed[m], listed[n])
  }

  ghost predicate AheadOf(rows: Store, listed: seq<nat>, rest: seq<nat>)
    requires forall n | 0 <= n < |listed| :: listed[n] < |rows|
    requires forall n | 0 <= n < |rest| :: rest[n] < |rows|
  {
    forall m, n | 0 <= m < |listed| && 0 <= n < |rest| :: Earlier(rows, listed[m], rest[n])
  }

  ghost predicate Covers(rows: Store, f: Filter, listed: seq<nat>, rest: seq<nat>) {
    forall i | 0 <= i < |rows| && Matches(f, rows[i]) :: i in listed || i in rest
  }

  /** Part of an answer: `listed` in order and ahead of everything in `rest`; together they are all
      the matching rows. */
  ghost predicate Partial(rows: Store, f: Filter, listed: seq<nat>, rest: seq<nat>) {
    && Positions(rows, f, listed) && Positions(rows, f, rest) && NoRepeats(rest)
    && InOrder(rows, listed) && AheadOf(rows, listed, rest) && Covers(rows, f, listed, rest)
  }

  function Without(rest: seq<nat>, p: nat): seq<nat>
    requires p < |rest|
  {
    rest[..p] + rest[p + 1..]
  }

  lemma WithoutAt(rest: seq<nat>, p: nat)
    requires p < |rest|
    ensures var fewer := Without(rest, p);
      && |fewer| == |rest| - 1
      && (forall n | 0 <= n < |fewer| :: fewer[n] == rest[if n < p then n else n + 1])
      && (forall i | i in rest :: i == rest[p] || i in fewer)
  {
    assert rest == rest[..p] + [rest[p]] + rest[p + 1..];
  }

  lemma TakingKeepsOrder(rows: Store, f: Filter, listed: seq<nat>, rest: seq<nat>, p: nat)
    requires Partial(rows, f, listed, rest) && p < |rest|
    requires forall n | 0 <= n < |rest| && n != p :: Earlier(rows, rest[p], rest[n])
    ensures Positions(rows, f, Without(rest, p)) && NoRepeats(Without(rest, p))
    ensures Positions(rows, f, listed + [rest[p]]) && InOrder(rows, listed + [rest[p]])
    ensures AheadOf(rows, listed + [rest[p]], Without(rest, p))
  {
    hide Matches, Earlier, Without, Covers;
    WithoutAt(rest, p);
  }

  lemma TakingKeepsPartial(rows: Store, f: Filter, listed: seq<nat>, rest: seq<nat>, p: nat)
    requires Partial(rows, f, listed, rest) && p < |rest|
    requires forall n | 0 <= n < |rest| && n != p :: Earlier(rows, rest[p], rest[n])
    ensures Partial(rows, f, listed + [rest[p]], Without(rest, p))
  {
    hide Matches, Earlier, Without, Positions, NoRepeats, InOrder, AheadOf;
    TakingKeepsOrder(rows, f, listed, rest, p);
    WithoutAt(rest, p);
  }

  lemma PartialEnds(rows: Store, f: Filter, limit: int, listed: seq<nat>, rest: seq<nat>)
    requires Partial(rows, f, listed, rest) && WithinLimit(|listed|, limit)
    requires rest == [] || |listed| == limit
    ensures IsListing(rows, f, limit, listed)
  {
  }

  class StepStore {
    var rows: Store

    constructor ()
      ensures rows == []
    {
      rows := [];
    }

    /** Returns the stored row, read back; nothing when the insert was refused. */
    method AppendStep(row: StepRow) returns (stored: Option<StepRow>)
      modifies this
      ensures rows == Append(old(rows), row)
      ensures stored.None? <==> Clashes(old(rows), row)
      ensures stored.Some? ==> stored.value in rows && stored.value.key == row.key && stored.value.status == row.status
    {
      var n := 0;
      while n < |rows| && rows[n].key != row.key
        invariant n <= |rows|
        invariant forall i | 0 <= i < n :: rows[i].key != row.key
      {
        n := n + 1;
      }
      assert n == IndexOf(rows, row.key);
      if n < |rows| {
        var task := if row.task.Some? then row.task else rows[n].task;
        var started := if row.started.Some? then row.started else rows[n].started;
        rows := rows[n := row.(id := rows[n].id, task := task, started := started)];
      } else {
        for i := 0 to |rows|
          invariant forall j | 0 <= j < i :: rows[j].id != row.id
        {
          if rows[i].id == row.id {
            return None;
          }
        }
        rows := rows + [row];
      }
      stored := Some(rows[n]);
    }

    /** `list_steps`: without a task and a run the answer is empty, not a scan. */
    method ListSteps(f: Filter, limit: int) returns (listed: seq<nat>)
      ensures f.task.None? && f.run.None? ==> listed == []
      ensures f.task.Some? || f.run.Some? ==> IsListing(rows, f, limit, listed)
    {
      hide Earlier, IsListing;
      listed := [];
      if f.task.None? && f.run.None? {
        return;
      }
      var rest: seq<nat> := Selected(f);
      while rest != [] && |listed| != limit
        invariant Partial(rows, f, listed, rest) && WithinLimit(|listed|, limit)
        decreases |rest|
      {
        var p := Earliest(rest);
        TakingKeepsPartial(rows, f, listed, rest, p);
        listed := listed + [rest[p]];
        rest := Without(rest, p);
      }
      PartialEnds(rows, f, limit, listed, rest);
    }

    /** The WHERE clause. */
    method Selected(f: Filter) returns (rest: seq<nat>)
      ensures forall n | 0 <= n < |rest| :: rest[n] < |rows| && Matches(f, rows[rest[n]])
      ensures forall m, n | 0 <= m < n < |rest| :: rest[m] != rest[n]
      ensures forall j | 0 <= j < |rows| && Matches(f, rows[j]) :: j in rest
    {
      rest := [];
      for i := 0 to |rows|
        invariant forall n | 0 <= n < |rest| :: rest[n] < i && Matches(f, rows[rest[n]])
        invariant forall m, n | 0 <= m < n < |rest| :: rest[m] != rest[n]
        invariant forall j | 0 <= j < i && Matches(f, rows[j]) :: j in rest
      {
        if Matches(f, rows[i]) {
          rest := rest + [i];
        }
      }
    }

    method Earliest(rest: seq<nat>) returns (p: nat)
      requires rest != [] && forall n | 0 <= n < |rest| :: rest[n] < |rows|
      requires forall m, n | 0 <= m < n < |rest| :: rest[m] != rest[n]
      ensures p < |rest|
      ensures forall n | 0 <= n < |rest| && n != p :: Earlier(rows, rest[p], rest[n])
    {
      p := 0;
      for n := 1 to |rest|
        invariant p < n
        invariant forall m | 0 <= m < n && m != p :: Earlier(rows, rest[p], rest[m])
      {
        if Earlier(rows, rest[n], rest[p]) {
          p := n;
        }
      }
    }
  }

  /** A retry in columns: the stored id, a task id and a start time not given again, and everything
      else as the retry gives it. */
  lemma RetriedRow(rows: Store, retry: StepRow, n: nat)
    requires UniqueKeys(rows) && n < |rows| && rows[n].key == retry.key
    ensures var rows' := Append(rows, retry);
      && |rows'| == |rows| && (forall i | 0 <= i < |rows| && i != n :: rows'[i] == rows[i])
      && rows'[n].id == rows[n].id && rows'[n].key == retry.key
      && (retry.task.Some? ==> rows'[n].task == retry.task) && (retry.task.None? ==> rows'[n].task == rows[n].task)
      && (retry.started.Some? ==> rows'[n].started == retry.started)
      && (retry.started.None? ==> rows'[n].started == rows[n].started)
      && rows'[n].status == retry.status && rows'[n].finished == retry.finished
      && rows'[n].summary == retry.summary && rows'[n].recorded == retry.recorded
  {
    assert IndexOf(rows, retry.key) == n;
  }

  /** A new key with an id nobody has is appended as it is; with an id somebody has, it is refused. */
  lemma NewRow(rows: Store, row: StepRow)
    requires forall i | 0 <= i < |rows| :: rows[i].key != row.key
    ensures (forall i | 0 <= i < |rows| :: rows[i].id != row.id) ==> Append(rows, row) == rows + [row]
    ensures (exists i | 0 <= i < |rows| :: rows[i].id == row.id) ==> Append(rows, row) == rows
  {
    assert IndexOf(rows, row.key) == |rows|;
  }

  /** A listing in columns: every row has the values asked for, in the order of generation, attempt,
      recorded time and insertion. */
  lemma ListedInOrder(rows: Store, f: Filter, limit: int, listed: seq<nat>)
    requires IsListing(rows, f, limit, listed)
    ensures forall n | 0 <= n < |listed| ::
      && listed[n] < |rows|
      && (f.task.Some? ==> rows[listed[n]].task == f.task)
      && (f.run.Some? ==> rows[listed[n]].key.run == f.run.value)
      && (f.step.Some? ==> rows[listed[n]].key.step == f.step.value)
      && (f.status.Some? ==> rows[listed[n]].status == f.status.value)
    ensures forall m, n | 0 <= m < n < |listed| ::
      var a, b := rows[listed[m]], rows[listed[n]];
      && a.key.generation <= b.key.generation
      && (a.key.generation == b.key.generation ==> a.key.attempt <= b.key.attempt)
      && (a.key.generation == b.key.generation && a.key.attempt == b.key.attempt ==> a.recorded <= b.recorded)
      && (a.key.generation == b.key.generation && a.key.attempt == b.key.attempt && a.recorded == b.recorded ==>
            listed[m] < listed[n])
    ensures forall i | 0 <= i < |rows|
      && (f.task.Some? ==> rows[i].task == f.task) && (f.run.Some? ==> rows[i].key.run == f.run.value)
      && (f.step.Some? ==> rows[i].key.step == f.step.value) && (f.status.Some? ==> rows[i].status == f.status.value) ::
      i in listed || |listed| == limit
  {
    assert forall m, n | 0 <= m < n < |listed| :: Earlier(rows, listed[m], listed[n]);
    assert forall i | 0 <= i < |rows| :: Matches(f, rows[i]) ==> i in listed || |listed| == limit;
  }
}
