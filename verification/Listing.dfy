/** The run list: the newest run rows, united with dispatched tasks that have no row in it, sorted
    again and cut to the limit. */
module Listing {
  import opened Models
  import opened Tasks
  import opened Runs
  import opened Lifecycle
  import Sequences
  import Text

  /** One line of the list; `fromTasks` marks a line made from a task. */
  datatype Item = Item(id: RunId, executor: Executor, task: Option<TaskId>, status: Status,
                       created: Time, fromTasks: bool)

  function NameOf(r: RunId): string {
    match r
    case SubmitFailed => "hermes-submit-failed"
    case Upstream(name) => name
  }

  /** The order of run ids as strings. Upstream never uses the constant name; were it to, its id
      would come second. */
  predicate IdBefore(a: RunId, b: RunId) {
    Text.Before(NameOf(a), NameOf(b)) || (NameOf(a) == NameOf(b) && a.SubmitFailed? && b.Upstream?)
  }

  lemma IdOrder(a: RunId, b: RunId)
    ensures a == b || IdBefore(a, b) || IdBefore(b, a)
    ensures !(IdBefore(a, b) && IdBefore(b, a))
  {
    Text.BeforeIsTotal(NameOf(a), NameOf(b));
  }

  lemma IdOrderTransitive(a: RunId, b: RunId, c: RunId)
    requires IdBefore(a, b) && IdBefore(b, c)
    ensures IdBefore(a, c)
  {
    if Text.Before(NameOf(a), NameOf(b)) && Text.Before(NameOf(b), NameOf(c)) {
      Text.BeforeIsTransitive(NameOf(a), NameOf(b), NameOf(c));
    }
  }

  /** created_at DESC, run_id DESC. */
  predicate Newer(a: Item, b: Item) {
    a.created > b.created || (a.created == b.created && IdBefore(b.id, a.id))
  }

  lemma NewerIsStrict(a: Item, b: Item)
    ensures !(Newer(a, b) && Newer(b, a))
    ensures a.id != b.id ==> Newer(a, b) || Newer(b, a)
  {
    IdOrder(a.id, b.id);
  }

  lemma NewerIsTransitive(a: Item, b: Item, c: Item)
    ensures Newer(a, b) && Newer(b, c) ==> Newer(a, c)
  {
    if Newer(a, b) && Newer(b, c) && a.created == c.created {
      IdOrderTransitive(c.id, b.id, a.id);
    }
  }

  /** If c is not newer than b and b not newer than a, c is not newer than a. */
  lemma NotNewerIsTransitive(a: Item, b: Item, c: Item)
    ensures !Newer(b, a) && !Newer(c, b) ==> !Newer(c, a)
  {
    IdOrder(a.id, b.id);
    IdOrder(b.id, c.id);
    NewerIsTransitive(c, a, b);
    NewerIsTransitive(b, c, a);
  }

  // ---- the request ---------------------------------------------------------------------------

  datatype Query = Query(limit: int, status: Option<Status>, executor: Option<Executor>, since: Option<Time>)

  /** CANONICAL_RUN_STATUSES. */
  predicate Canonical(s: Status) {
    s in {Queued, Started, Running, Completed, Failed, Timeout, Cancelled}
  }

  predicate ValidQuery(q: Query) {
    1 <= q.limit <= 100 && (q.status.Some? ==> Canonical(q.status.value))
  }

  predicate Accepts(q: Query, i: Item) {
    && (q.status.Some? ==> i.status == q.status.value)
    && (q.executor.Some? ==> i.executor == q.executor.value)
    && (q.since.Some? ==> i.created >= q.since.value)
  }

  function RowItem(r: RunId, row: Run): Item {
    Item(r, row.executor, row.task, row.status, row.created, false)
  }

  /** Task words without a run counterpart. */
  function RunStatus(s: Status): Status {
    if s == Pending then Queued else if s == Waiting then Running else s
  }

  function TaskItem(t: TaskId, k: Task): Item
    requires k.hermes.Some?
  {
    Item(k.hermes.value, k.adapter, Some(t), RunStatus(k.status), k.spec.createdAt, true)
  }

  function Max(a: int, b: int): int {
    if a < b then b else a
  }

  // ---- selecting and sorting -----------------------------------------------------------------

  ghost predicate Sorted(s: seq<Item>) {
    forall i, j | 0 <= i < j < |s| :: !Newer(s[j], s[i])
  }

  ghost predicate DistinctIds(s: seq<Item>) {
    forall i, j | 0 <= i < j < |s| :: s[i].id != s[j].id
  }

  /** A SELECT with the list's ORDER BY and a LIMIT. */
  ghost predicate IsTop(candidates: set<Item>, limit: nat, s: seq<Item>) {
    && |s| <= limit && Sorted(s)
    && (forall i | 0 <= i < |s| :: s[i] in candidates)
    && (forall i, j | 0 <= i < j < |s| :: s[i] != s[j])
    && (forall c | c in candidates && c !in s :: |s| == limit && forall i | 0 <= i < |s| :: !Newer(c, s[i]))
  }

  method Front(candidates: set<Item>) returns (best: Item)
    requires candidates != {}
    ensures best in candidates && forall c | c in candidates :: !Newer(c, best)
  {
    best :| best in candidates;
    NewerIsStrict(best, best);
    var rest := candidates - {best};
    while rest != {}
      invariant best in candidates && rest <= candidates
      invariant forall c | c in candidates - rest :: !Newer(c, best)
      decreases rest
    {
      var c :| c in rest;
      if Newer(c, best) {
        forall d | d in candidates - rest ensures !Newer(d, c) {
          NewerIsStrict(c, best);
          NotNewerIsTransitive(c, best, d);
        }
        best := c;
      }
      NewerIsStrict(c, c);
      rest := rest - {c};
    }
  }

  method SelectTop(candidates: set<Item>, limit: nat) returns (s: seq<Item>)
    ensures IsTop(candidates, limit, s)
  {
    hide Newer;
    var rest := candidates;
    s := [];
    while rest != {} && |s| < limit
      invariant rest <= candidates && |s| <= limit && Sorted(s)
      invariant forall c :: c in s <==> c in candidates - rest
      invariant forall i | 0 <= i < |s| :: s[i] in candidates - rest
      invariant forall i, j | 0 <= i < j < |s| :: s[i] != s[j]
      invariant forall i, c | 0 <= i < |s| && c in rest :: !Newer(c, s[i])
      decreases rest
    {
      var best := Front(rest);
      assert forall i | 0 <= i < |s| :: s[i] in s;
      s := s + [best];
      rest := rest - {best};
    }
  }

  method InsertSorted(s: seq<Item>, x: Item) returns (longer: seq<Item>)
    requires Sorted(s) && DistinctIds(s) && forall i | 0 <= i < |s| :: s[i].id != x.id
    ensures Sorted(longer) && DistinctIds(longer) && |longer| == |s| + 1
    ensures forall c :: c in longer <==> c in s || c == x
  {
    hide Newer;
    var n := 0;
    while n < |s| && Newer(s[n], x)
      invariant 0 <= n <= |s|
      invariant forall i | 0 <= i < n :: Newer(s[i], x)
    {
      n := n + 1;
    }
    longer := s[..n] + [x] + s[n..];
    Sequences.InsertedElements(s, n, x);
    forall i | 0 <= i < n ensures !Newer(x, s[i]) {
      NewerIsStrict(x, s[i]);
    }
    forall j | n <= j < |s| ensures !Newer(s[j], x) {
      if j > n {
        NotNewerIsTransitive(x, s[n], s[j]);
      }
    }
  }

  method SortItems(items: seq<Item>) returns (s: seq<Item>)
    requires DistinctIds(items)
    ensures Sorted(s) && DistinctIds(s) && |s| == |items|
    ensures forall c :: c in s <==> c in items
  {
    s := [];
    for n := 0 to |items|
      invariant Sorted(s) && DistinctIds(s) && |s| == n
      invariant forall c :: c in s <==> c in items[..n]
    {
      assert forall i | 0 <= i < |s| :: s[i] in s;
      assert items[..n + 1] == items[..n] + [items[n]];
      s := InsertSorted(s, items[n]);
    }
    assert items[..|items|] == items;
  }

  // ---- the endpoint --------------------------------------------------------------------------

  /** A run row that passes the filters. */
  predicate Wanted(runs: Table, q: Query, r: RunId) {
    r in runs && Accepts(q, RowItem(r, runs[r]))
  }

  function WantedItems(runs: Table, q: Query): set<Item> {
    set r | r in runs && Accepts(q, RowItem(r, runs[r])) :: RowItem(r, runs[r])
  }

  function Dispatched(tasks: map<TaskId, Task>): set<Item> {
    set t | t in tasks && tasks[t].hermes.Some? :: TaskItem(t, tasks[t])
  }

  /** `list_runs`. */
  method ListRows(runs: Table, q: Query) returns (rows: seq<Item>)
    requires ValidQuery(q)
    ensures IsTop(WantedItems(runs, q), q.limit, rows) && DistinctIds(rows)
  {
    rows := SelectTop(WantedItems(runs, q), q.limit);
  }

  ghost predicate HasId(lines: seq<Item>, r: RunId) {
    exists i | 0 <= i < |lines| :: lines[i].id == r
  }

  /** The union: each task found whose run id no line has yet, if it passes the filters. */
  ghost function United(rows: seq<Item>, found: seq<Item>, q: Query): seq<Item> {
    if found == [] then rows
    else
      var all := United(rows, found[..|found| - 1], q);
      var c := found[|found| - 1];
      if HasId(all, c.id) || !Accepts(q, c) then all else all + [c]
  }

  lemma {:induction false} UnionIsSound(rows: seq<Item>, found: seq<Item>, q: Query)
    requires DistinctIds(rows) && forall i | 0 <= i < |rows| :: Accepts(q, rows[i])
    ensures var all := United(rows, found, q);
      && DistinctIds(all) && rows <= all
      && (forall i | 0 <= i < |all| :: Accepts(q, all[i]) && (all[i] in rows || all[i] in found))
    decreases |found|
  {
    hide Accepts;
    if found != [] {
      var n := |found| - 1;
      UnionIsSound(rows, found[..n], q);
      assert found == found[..n] + [found[n]];
    }
  }

  /** An earlier task found under the same run id already passed the filters. */
  ghost predicate Preceded(found: seq<Item>, q: Query, n: nat)
    requires n < |found|
  {
    exists m | 0 <= m < n :: found[m].id == found[n].id && Accepts(q, found[m])
  }

  /** A task found gets a line if and only if it passes the filters, no selected row has its run id
      and no earlier one of that id passed: a row the filters or the limit kept out does not keep
      its task out. */
  lemma {:induction false} StandsInExactly(rows: seq<Item>, found: seq<Item>, q: Query, n: nat)
    requires n < |found| && found[n] !in rows
    requires forall i, j | 0 <= i < j < |found| :: found[i] != found[j]
    ensures found[n] in United(rows, found, q)
      <==> Accepts(q, found[n]) && !HasId(rows, found[n].id) && !Preceded(found, q, n)
    decreases |found|
  {
    hide Accepts;
    var last := |found| - 1;
    var before := United(rows, found[..last], q);
    assert forall i | 0 <= i < last :: found[..last][i] == found[i];
    if n < last {
      StandsInExactly(rows, found[..last], q, n);
      assert Preceded(found[..last], q, n) <==> Preceded(found, q, n);
    } else {
      LinesFromBefore(rows, found[..last], q);
      assert found[n] !in before;
      IdsOfUnion(rows, found[..last], q, found[n].id);
    }
  }

  /** An id has a line exactly when a selected row has it or a task found under it passes. */
  lemma {:induction false} IdsOfUnion(rows: seq<Item>, found: seq<Item>, q: Query, r: RunId)
    ensures HasId(United(rows, found, q), r)
      <==> HasId(rows, r) || exists m | 0 <= m < |found| :: found[m].id == r && Accepts(q, found[m])
    decreases |found|
  {
    hide Accepts;
    if found != [] {
      var n := |found| - 1;
      IdsOfUnion(rows, found[..n], q, r);
      LineAdded(United(rows, found[..n], q), found[n]);
      assert forall i | 0 <= i < n :: found[..n][i] == found[i];
      assert (exists m | 0 <= m < |found| :: found[m].id == r && Accepts(q, found[m]))
        <==> (exists m | 0 <= m < n :: found[..n][m].id == r && Accepts(q, found[..n][m]))
             || (found[n].id == r && Accepts(q, found[n]));
    }
  }

  lemma {:induction false} LinesFromBefore(rows: seq<Item>, found: seq<Item>, q: Query)
    ensures forall c | c in United(rows, found, q) :: c in rows || c in found
    decreases |found|
  {
    if found != [] {
      LinesFromBefore(rows, found[..|found| - 1], q);
      assert found == found[..|found| - 1] + [found[|found| - 1]];
    }
  }

  /** The union loop with its set of seen ids. */
  method Unite(rows: seq<Item>, found: seq<Item>, q: Query) returns (all: seq<Item>)
    ensures all == United(rows, found, q)
  {
    hide Accepts;
    all := rows;
    var seen := set i | 0 <= i < |rows| :: rows[i].id;
    for n := 0 to |found|
      invariant all == United(rows, found[..n], q)
      invariant forall r :: r in seen <==> HasId(all, r)
    {
      var c := found[n];
      assert found[..n + 1][..n] == found[..n];
      if c.id in seen {
        continue;
      }
      if !Accepts(q, c) {
        continue;
      }
      LineAdded(all, c);
      all := all + [c];
      seen := seen + {c.id};
    }
    assert found[..|found|] == found;
  }

  lemma LineAdded(all: seq<Item>, c: Item)
    ensures forall r :: HasId(all + [c], r) <==> HasId(all, r) || r == c.id
  {
    var longer := all + [c];
    assert longer[|all|] == c;
    forall r | HasId(all, r) ensures HasId(longer, r) {
      var i :| 0 <= i < |all| && all[i].id == r;
      assert longer[i].id == r;
    }
  }

  /** `list_runs_endpoint`: refused for a limit or status outside the contract, else the list. */
  method ListRuns(d: Tables, q: Query) returns (list: Option<seq<Item>>)
    ensures list.Some? <==> ValidQuery(q)
    ensures list.Some? ==> IsList(d, q, list.value) && Correct(d, q, list.value)
  {
    if q.limit < 1 || q.limit > 100 || (q.status.Some? && !Canonical(q.status.value)) {
      return None;
    }
    var rows := ListRows(d.runs, q);
    var found := SelectTop(Dispatched(d.tasks), Max(2 * q.limit, 100));
    var all := Unite(rows, found, q);
    UnionIsSound(rows, found, q);
    var sorted := SortItems(all);
    var items := if |sorted| <= q.limit then sorted else sorted[..q.limit];
    assert ListedFrom(d, q, items, rows, found, sorted);
    CutIsCorrect(d, q, items, rows, found, sorted);
    return Some(items);
  }

  /** The list made of the rows selected, the tasks found and their sorted union. */
  ghost predicate ListedFrom(d: Tables, q: Query, items: seq<Item>, rows: seq<Item>, found: seq<Item>, sorted: seq<Item>) {
    && ValidQuery(q)
    && IsTop(WantedItems(d.runs, q), q.limit, rows) && DistinctIds(rows)
    && IsTop(Dispatched(d.tasks), Max(2 * q.limit, 100), found)
    && Sorted(sorted) && DistinctIds(sorted) && |sorted| == |United(rows, found, q)|
    && (forall c :: c in sorted <==> c in United(rows, found, q))
    && items == if |sorted| <= q.limit then sorted else sorted[..q.limit]
  }

  /** A list the endpoint may return; only ties among tasks leave it a choice. */
  ghost predicate IsList(d: Tables, q: Query, items: seq<Item>) {
    exists rows, found, sorted :: ListedFrom(d, q, items, rows, found, sorted)
  }

  /** What a list promises: newest first, one line per run, filters and limit kept, every line a
      run row or a dispatched task; a matching run row is missing only when the whole list is
      newer; a task stands in for a run with a matching row only when it was created after that row
      and more rows match than the limit admits; and a matching task whose run has no line is left
      out only by a full list or by the window of tasks. */
  ghost predicate Correct(d: Tables, q: Query, items: seq<Item>) {
    && |items| <= q.limit
    && (forall i, j | 0 <= i < j < |items| :: Newer(items[i], items[j]) && items[i].id != items[j].id)
    && (forall i | 0 <= i < |items| ::
          && Accepts(q, items[i])
          && (items[i] in WantedItems(d.runs, q) || items[i] in Dispatched(d.tasks)))
    && (forall i | 0 <= i < |items| && items[i].fromTasks && Wanted(d.runs, q, items[i].id) ::
          |WantedItems(d.runs, q)| > q.limit && items[i].created > d.runs[items[i].id].created)
    && (forall r | Wanted(d.runs, q, r) && !HasId(items, r) :: Outranked(items, q.limit, RowItem(r, d.runs[r])))
    && (forall c | c in Dispatched(d.tasks) && Accepts(q, c) && !HasId(items, c.id) ::
          |items| == q.limit || |Dispatched(d.tasks)| > Max(2 * q.limit, 100))
  }

  /** A task is created before the row of the run it goes by. */
  ghost predicate TasksComeFirst(d: Tables) {
    forall t | t in d.tasks && d.tasks[t].hermes.Some? && d.tasks[t].hermes.value in d.runs ::
      d.tasks[t].spec.createdAt <= d.runs[d.tasks[t].hermes.value].created
  }

  /** When tasks come before their rows, a task stands in only for a run that has no row or whose
      row fails the filters: a matching row always wins. */
  lemma MatchingRowWins(d: Tables, q: Query, items: seq<Item>)
    requires Correct(d, q, items) && TasksComeFirst(d)
    ensures forall i | 0 <= i < |items| && items[i].fromTasks :: !Wanted(d.runs, q, items[i].id)
  {
    forall i | 0 <= i < |items| && items[i].fromTasks ensures !Wanted(d.runs, q, items[i].id) {
      assert items[i] in Dispatched(d.tasks);
      var t :| t in d.tasks && d.tasks[t].hermes.Some? && items[i] == TaskItem(t, d.tasks[t]);
      assert d.tasks[t].hermes.value == items[i].id;
    }
  }

  ghost predicate Outranked(items: seq<Item>, limit: int, c: Item) {
    |items| == limit && forall i | 0 <= i < |items| :: Newer(items[i], c)
  }

  lemma {:induction false} SmallerSet<T>(a: set<T>, b: set<T>)
    requires a <= b
    ensures |a| <= |b|
  {
    if a != {} {
      var x :| x in a;
      SmallerSet(a - {x}, b - {x});
    }
  }

  lemma {:induction false} Elements(s: seq<Item>)
    requires forall i, j | 0 <= i < j < |s| :: s[i] != s[j]
    ensures |set c | c in s| == |s|
  {
    if s != [] {
      var n := |s| - 1;
      Elements(s[..n]);
      assert s == s[..n] + [s[n]];
      assert (set c | c in s) == (set c | c in s[..n]) + {s[n]};
    }
  }

  /** Among more distinct items than a prefix is long, one lies behind the prefix. */
  lemma OneLiesBehind(rows: seq<Item>, sorted: seq<Item>, n: nat) returns (p: nat)
    requires DistinctIds(rows) && n < |rows| && n <= |sorted|
    requires forall c | c in rows :: c in sorted
    requires DistinctIds(sorted)
    ensures n <= p < |sorted| && sorted[p] in rows
  {
    if forall c | c in rows :: c in sorted[..n] {
      var few := set c | c in sorted[..n];
      var many := set c | c in rows;
      Elements(rows);
      Elements(sorted[..n]);
      SmallerSet(many, few);
      assert false;
    }
    var c :| c in rows && c !in sorted[..n];
    assert forall i | 0 <= i < n :: sorted[..n][i] == sorted[i];
    p :| 0 <= p < |sorted| && sorted[p] == c;
  }

  lemma RowIsOutranked(rows: seq<Item>, sorted: seq<Item>, limit: nat, c: Item)
    requires DistinctIds(rows) && DistinctIds(sorted) && Sorted(sorted)
    requires forall x | x in rows :: x in sorted
    requires |rows| == limit && forall i | 0 <= i < |rows| :: Newer(rows[i], c)
    ensures |sorted| >= limit && forall i | 0 <= i < limit :: Newer(sorted[i], c)
  {
    if |sorted| < limit {
      var p := OneLiesBehind(rows, sorted, |sorted|);
      assert false;
    }
    forall i | 0 <= i < limit ensures Newer(sorted[i], c) {
      var p := OneLiesBehind(rows, sorted, i);
      assert Newer(sorted[p], c);
      if p > i {
        NewerIsStrict(sorted[i], sorted[p]);
        NewerIsTransitive(sorted[i], sorted[p], c);
      }
    }
  }

  lemma CutIsCorrect(d: Tables, q: Query, items: seq<Item>, rows: seq<Item>, found: seq<Item>, sorted: seq<Item>)
    requires ListedFrom(d, q, items, rows, found, sorted)
    ensures Correct(d, q, items)
  {
    var all := United(rows, found, q);
    assert forall i | 0 <= i < |rows| :: rows[i] in WantedItems(d.runs, q);
    UnionIsSound(rows, found, q);
    forall i, j | 0 <= i < j < |items| ensures Newer(items[i], items[j]) && items[i].id != items[j].id {
      NewerIsStrict(items[i], items[j]);
    }
    forall i | 0 <= i < |items|
      ensures Accepts(q, items[i])
        && (items[i] in WantedItems(d.runs, q) || items[i] in Dispatched(d.tasks))
    {
      assert items[i] in all;
    }
    forall i | 0 <= i < |items| && items[i].fromTasks && Wanted(d.runs, q, items[i].id)
      ensures |WantedItems(d.runs, q)| > q.limit && items[i].created > d.runs[items[i].id].created
    {
      assert items[i] in all;
      StandInIsLate(d.runs, q, rows, all, sorted, i);
    }
    forall r | Wanted(d.runs, q, r) && !HasId(items, r)
      ensures Outranked(items, q.limit, RowItem(r, d.runs[r]))
    {
      MissingRowIsOutranked(d, q, rows, all, sorted, items, r);
    }
    forall c | c in Dispatched(d.tasks) && Accepts(q, c) && !HasId(items, c.id)
      ensures |items| == q.limit || |Dispatched(d.tasks)| > Max(2 * q.limit, 100)
    {
      MissingTaskIsCutOff(d, q, items, rows, found, sorted, c);
    }
  }

  /** A line made from a task, though the run has a matching row: the row fell to the limit of the
      first query, and the line is newer than it. */
  lemma StandInIsLate(runs: Table, q: Query, rows: seq<Item>, all: seq<Item>, sorted: seq<Item>, i: nat)
    requires ValidQuery(q) && IsTop(WantedItems(runs, q), q.limit, rows) && DistinctIds(rows)
    requires rows <= all && DistinctIds(all)
    requires Sorted(sorted) && DistinctIds(sorted) && forall c :: c in sorted <==> c in all
    requires i < |sorted| && i < q.limit && sorted[i].fromTasks && Wanted(runs, q, sorted[i].id)
    ensures |WantedItems(runs, q)| > q.limit && sorted[i].created > runs[sorted[i].id].created
  {
    var line := sorted[i];
    var c := RowItem(line.id, runs[line.id]);
    assert c in WantedItems(runs, q) && line in all;
    var j :| 0 <= j < |all| && all[j] == line;
    assert forall n | 0 <= n < |rows| :: all[n] == rows[n];
    assert forall n | 0 <= n < |all| && n != j :: all[n].id != c.id;
    assert c != line;
    assert c !in rows;
    Elements(rows);
    var chosen := set x | x in rows;
    SmallerSet(chosen + {c}, WantedItems(runs, q));
    forall n | 0 <= n < |rows| ensures Newer(rows[n], c) {
      assert rows[n] in WantedItems(runs, q);
      NewerIsStrict(rows[n], c);
    }
    RowIsOutranked(rows, sorted, q.limit, c);
    IdOrder(line.id, line.id);
  }

  lemma MissingTaskIsCutOff(d: Tables, q: Query, items: seq<Item>, rows: seq<Item>, found: seq<Item>,
                            sorted: seq<Item>, c: Item)
    requires ListedFrom(d, q, items, rows, found, sorted)
    requires c in Dispatched(d.tasks) && Accepts(q, c) && !HasId(items, c.id)
    ensures |items| == q.limit || |Dispatched(d.tasks)| > Max(2 * q.limit, 100)
  {
    hide Accepts, Newer, Sorted, United, Dispatched;
    var all := United(rows, found, q);
    if c in found {
      IdsOfUnion(rows, found, q, c.id);
      var j :| 0 <= j < |all| && all[j].id == c.id;
      assert all[j] in sorted;
      var p :| 0 <= p < |sorted| && sorted[p] == all[j];
      assert forall n | 0 <= n < |items| :: items[n] == sorted[n] && items[n].id != c.id;
    } else {
      Elements(found);
      var chosen := set x | x in found;
      SmallerSet(chosen + {c}, Dispatched(d.tasks));
    }
  }

  /** The window of tasks is cut before the filters apply: a task behind as many newer ones as the
      window holds has no line, however few of those pass. */
  lemma TheWindowHides(d: Tables, q: Query, items: seq<Item>, c: Item, crowd: set<Item>)
    requires IsList(d, q, items) && c.fromTasks
    requires crowd <= Dispatched(d.tasks) && |crowd| >= Max(2 * q.limit, 100)
    requires forall x | x in crowd :: Newer(x, c)
    ensures c !in items
  {
    hide Accepts, Newer, Sorted, Dispatched;
    var rows, found, sorted :| ListedFrom(d, q, items, rows, found, sorted);
    if c in found {
      forall x | x in crowd ensures x in found {
      }
      NotNewerThanItself(c);
      Elements(found);
      SmallerSet(crowd + {c}, set x | x in found);
      assert false;
    }
    LinesFromBefore(rows, found, q);
    assert forall x | x in items :: x in sorted;
  }

  lemma NotNewerThanItself(c: Item)
    ensures !Newer(c, c)
  {
    NewerIsStrict(c, c);
  }

  lemma MissingRowIsOutranked(d: Tables, q: Query, rows: seq<Item>, all: seq<Item>,
                              sorted: seq<Item>, items: seq<Item>, r: RunId)
    requires ValidQuery(q)
    requires IsTop(WantedItems(d.runs, q), q.limit, rows) && DistinctIds(rows)
    requires rows <= all
    requires Sorted(sorted) && DistinctIds(sorted)
    requires forall c :: c in sorted <==> c in all
    requires items == if |sorted| <= q.limit then sorted else sorted[..q.limit]
    requires Wanted(d.runs, q, r) && !HasId(items, r)
    ensures Outranked(items, q.limit, RowItem(r, d.runs[r]))
  {
    var c := RowItem(r, d.runs[r]);
    assert c in WantedItems(d.runs, q);
    if c in rows {
      assert c in all && c in sorted;
      var p :| 0 <= p < |sorted| && sorted[p] == c;
      assert forall n | 0 <= n < |items| :: items[n] == sorted[n] && items[n].id != r;
      forall i | 0 <= i < |items| ensures Newer(items[i], c) {
        NewerIsStrict(sorted[i], sorted[p]);
      }
    } else {
      forall i | 0 <= i < |rows| ensures Newer(rows[i], c) {
        assert rows[i] in WantedItems(d.runs, q);
        NewerIsStrict(rows[i], c);
      }
      RowIsOutranked(rows, sorted, q.limit, c);
    }
  }

  // ---- the list in columns --------------------------------------------------------------------

  /** A line in columns: the values asked for, and those of a run row or of a task that goes by a
      Hermes run, with pending shown as queued and waiting as running. */
  ghost predicate LineOf(d: Tables, i: Item) {
    || (!i.fromTasks && i.id in d.runs && i.executor == d.runs[i.id].executor && i.task == d.runs[i.id].task
        && i.status == d.runs[i.id].status && i.created == d.runs[i.id].created)
    || (i.fromTasks && i.task.Some? && i.task.value in d.tasks
        && var k := d.tasks[i.task.value];
        && k.hermes == Some(i.id) && i.executor == k.adapter && i.created == k.spec.createdAt
        && (k.status == Pending ==> i.status == Queued) && (k.status == Waiting ==> i.status == Running)
        && (k.status != Pending && k.status != Waiting ==> i.status == k.status))
  }

  /** A correct list in columns: at most the limit; creation times fall, and among equal ones the ids
      as strings; every line has the status, the executor and the age asked for. */
  lemma CorrectInColumns(d: Tables, q: Query, items: seq<Item>)
    requires Correct(d, q, items)
    ensures |items| <= q.limit
    ensures forall i | 0 <= i < |items| ::
      && LineOf(d, items[i])
      && (q.status.Some? ==> items[i].status == q.status.value)
      && (q.executor.Some? ==> items[i].executor == q.executor.value)
      && (q.since.Some? ==> items[i].created >= q.since.value)
    ensures forall i, j | 0 <= i < j < |items| ::
      && items[i].id != items[j].id && items[i].created >= items[j].created
      && (items[i].created == items[j].created ==> !Text.Before(NameOf(items[i].id), NameOf(items[j].id)))
  {
    forall i | 0 <= i < |items| ensures LineOf(d, items[i]) {
      ItemIsALine(d, q, items[i]);
    }
    forall i, j | 0 <= i < j < |items|
      ensures items[i].created == items[j].created ==> !Text.Before(NameOf(items[i].id), NameOf(items[j].id))
    {
      Text.BeforeIsTotal(NameOf(items[i].id), NameOf(items[j].id));
      assert Newer(items[i], items[j]);
    }
  }

  lemma ItemIsALine(d: Tables, q: Query, i: Item)
    requires i in WantedItems(d.runs, q) || i in Dispatched(d.tasks)
    ensures LineOf(d, i)
  {
    if i in WantedItems(d.runs, q) {
      var r :| r in d.runs && i == RowItem(r, d.runs[r]);
    } else {
      var t :| t in d.tasks && d.tasks[t].hermes.Some? && i == TaskItem(t, d.tasks[t]);
    }
  }

  /** A run row that has the values asked for and no line: the list is full, and each line is newer or
      as old with a later id. */
  lemma MissingRowInColumns(d: Tables, q: Query, items: seq<Item>, r: RunId)
    requires Correct(d, q, items) && r in d.runs && !HasId(items, r)
    requires q.status.Some? ==> d.runs[r].status == q.status.value
    requires q.executor.Some? ==> d.runs[r].executor == q.executor.value
    requires q.since.Some? ==> d.runs[r].created >= q.since.value
    ensures |items| == q.limit && forall i | 0 <= i < |items| :: items[i].created >= d.runs[r].created
  {
    assert Wanted(d.runs, q, r);
  }

  /** The limits and statuses a request may ask for. */
  lemma ValidQueries(q: Query)
    ensures ValidQuery(q) <==>
      && 1 <= q.limit <= 100
      && (q.status.Some? ==> q.status.value in {Queued, Started, Running, Completed, Failed, Timeout, Cancelled})
  {
  }

  function Holders(tasks: map<TaskId, Task>): set<TaskId> {
    set t | t in tasks && tasks[t].hermes.Some?
  }

  lemma {:induction false} FewerLines(tasks: map<TaskId, Task>, some: set<TaskId>)
    requires forall t | t in some :: t in tasks && tasks[t].hermes.Some?
    ensures |set t | t in some :: TaskItem(t, tasks[t])| <= |some|
    decreases some
  {
    if some != {} {
      var t :| t in some;
      FewerLines(tasks, some - {t});
      assert (set u | u in some :: TaskItem(u, tasks[u]))
        == (set u | u in some - {t} :: TaskItem(u, tasks[u])) + {TaskItem(t, tasks[t])};
    }
  }

  /** A dispatched task with the values asked for whose run has no line: the list is full, or more
      tasks go by a Hermes run than the window holds, which is twice the limit and at least 100. */
  lemma MissingTaskInColumns(d: Tables, q: Query, items: seq<Item>, t: TaskId)
    requires Correct(d, q, items) && t in d.tasks && d.tasks[t].hermes.Some?
    requires !HasId(items, d.tasks[t].hermes.value) && Accepts(q, TaskItem(t, d.tasks[t]))
    ensures |items| == q.limit || |Holders(d.tasks)| > (if q.limit < 50 then 100 else 2 * q.limit)
  {
    var all := Holders(d.tasks);
    FewerLines(d.tasks, all);
    assert Dispatched(d.tasks) == set u | u in all :: TaskItem(u, d.tasks[u]);
    assert TaskItem(t, d.tasks[t]) in Dispatched(d.tasks);
  }
}
