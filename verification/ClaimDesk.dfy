/** The claim protocol as the service runs it: list and set accumulation for capabilities, a window
    select and a candidate loop. */
module ClaimDesk {
  import opened Models
  import opened Claims
  import Sequences
  import Text

  ghost predicate Ascending(list: seq<string>) {
    forall i, j | 0 <= i < j < |list| :: Text.Before(list[i], list[j])
  }

  /** The stored form of a capability list: ascending, and exactly the capabilities it stands for. */
  ghost predicate IsNormalForm(list: seq<string>, values: seq<string>) {
    Ascending(list) && forall c :: c in list <==> c in Capabilities(values)
  }

  /** An ascending list is determined by its elements. */
  lemma {:induction false} AscendingIsUnique(a: seq<string>, b: seq<string>)
    requires Ascending(a) && Ascending(b) && forall c :: c in a <==> c in b
    ensures a == b
    decreases |a|
  {
    assert forall i | 0 <= i < |a| :: a[i] in b;
    assert forall i | 0 <= i < |b| :: b[i] in a;
    if a != [] && b != [] {
      assert a[0] in b && b[0] in a;
      var i :| 0 <= i < |b| && b[i] == a[0];
      var j :| 0 <= j < |a| && a[j] == b[0];
      Text.BeforeIsTotal(a[0], b[0]);
      assert a[0] == b[0];
      Text.BeforeIsTotal(a[0], a[0]);
      forall c ensures c in a[1..] <==> c in b[1..] {
        assert c in a <==> c in b;
        assert a == [a[0]] + a[1..] && b == [b[0]] + b[1..];
      }
      AscendingIsUnique(a[1..], b[1..]);
      assert a == [a[0]] + a[1..] && b == [b[0]] + b[1..];
    }
  }

  /** Normalising is canonical: equal capabilities have one stored form, and a stored form is its
      own normal form. */
  lemma NormalFormIsCanonical(list: seq<string>, list': seq<string>, values: seq<string>, values': seq<string>)
    requires IsNormalForm(list, values) && IsNormalForm(list', values')
    ensures list == list' <==> Capabilities(values) == Capabilities(values')
    ensures IsNormalForm(list, list)
  {
    if Capabilities(values) == Capabilities(values') {
      AscendingIsUnique(list, list');
    }
    forall c ensures c in list <==> c in Capabilities(list) {
      if c in list {
        StoredIsCanonical(c, values);
      }
      if c in Capabilities(list) {
        var v :| v in list && Text.Canonical(v) == c;
        StoredIsCanonical(v, values);
      }
    }
  }

  lemma StoredIsCanonical(c: string, values: seq<string>)
    requires c in Capabilities(values)
    ensures Text.Canonical(c) == c && c != ""
  {
    var v :| v in values && Text.Canonical(v) == c;
    Text.CanonicalIsIdempotent(v);
  }

  /** Insert one new string into an ascending list. */
  method Insert(list: seq<string>, c: string) returns (longer: seq<string>)
    requires Ascending(list) && c !in list
    ensures Ascending(longer)
    ensures forall d :: d in longer <==> d in list || d == c
  {
    var n := 0;
    while n < |list| && Text.Before(list[n], c)
      invariant 0 <= n <= |list|
      invariant forall i | 0 <= i < n :: Text.Before(list[i], c)
    {
      n := n + 1;
    }
    longer := list[..n] + [c] + list[n..];
    Sequences.InsertedElements(list, n, c);
    if n < |list| {
      Text.BeforeIsTotal(list[n], c);
      assert list[n] in list;
      forall j | n < j < |list| ensures Text.Before(c, list[j]) {
        Text.BeforeIsTransitive(c, list[n], list[j]);
      }
    }
  }

  /** `normalize_capabilities`. */
  method NormalizeCapabilities(values: seq<string>) returns (out: seq<string>)
    ensures IsNormalForm(out, values)
  {
    var kept: seq<string> := [];
    var seen: set<string> := {};
    for i := 0 to |values|
      invariant forall c :: c in kept <==> c in seen
      invariant seen == Capabilities(values[..i])
      invariant forall p, q | 0 <= p < q < |kept| :: kept[p] != kept[q]
    {
      var norm := Text.Canonical(values[i]);
      CapabilitiesGrow(values, i);
      if norm != "" && norm !in seen {
        assert norm !in kept;
        seen := seen + {norm};
        kept := kept + [norm];
      }
    }
    assert values[..|values|] == values;
    out := [];
    for i := 0 to |kept|
      invariant Ascending(out)
      invariant forall c :: c in out <==> c in kept[..i]
    {
      assert kept[i] !in kept[..i];
      out := Insert(out, kept[i]);
      assert kept[..i + 1] == kept[..i] + [kept[i]];
    }
    assert kept[..|kept|] == kept;
  }

  lemma CapabilitiesGrow(values: seq<string>, i: nat)
    requires i < |values|
    ensures Capabilities(values[..i + 1])
      == Capabilities(values[..i])
         + (if Text.Canonical(values[i]) != "" then {Text.Canonical(values[i])} else {})
  {
    assert values[..i + 1] == values[..i] + [values[i]];
  }

  /** `_capability_subset_match`. */
  method CapabilitySubsetMatch(required: seq<string>, caps: seq<string>) returns (fits: bool)
    ensures fits <==> Matches(required, caps)
  {
    var req := NormalizeCapabilities(required);
    if req == [] {
      assert forall c :: c !in req;
      return true;
    }
    var have := NormalizeCapabilities(caps);
    fits := forall c | c in req :: c in have;
  }

  /** The front of the claim order among some jobs. */
  method Front(jobs: Jobs, candidates: set<TaskId>) returns (best: TaskId)
    requires candidates != {} && forall t | t in candidates :: t in jobs
    ensures best in candidates
    ensures forall t | t in candidates :: !Ahead(jobs[t], jobs[best])
  {
    best :| best in candidates;
    var rest := candidates - {best};
    while rest != {}
      invariant best in candidates && rest <= candidates
      invariant forall t | t in candidates - rest :: !Ahead(jobs[t], jobs[best])
      decreases rest
    {
      var t :| t in rest;
      if Ahead(jobs[t], jobs[best]) {
        best := t;
      }
      rest := rest - {t};
    }
  }

  /** ORDER BY priority DESC, created_at ASC LIMIT 5. */
  method SelectWindow(jobs: Jobs, workerType: Executor) returns (rows: seq<TaskId>)
    ensures IsWindow(jobs, workerType, rows)
    ensures |rows| <= 5 && forall i, j | 0 <= i < j < |rows| ::
      && rows[i] in jobs && rows[j] in jobs
      && NotBehind(jobs[rows[i]], jobs[rows[j]])
  {
    var eligible := set t | t in jobs && Eligible(jobs[t], workerType);
    var rest := eligible;
    rows := [];
    while rest != {} && |rows| < WINDOW
      invariant rest <= eligible && |rows| <= WINDOW
      invariant forall t :: t in rows <==> t in eligible - rest
      invariant forall i | 0 <= i < |rows| :: rows[i] in eligible
      invariant forall i, j | 0 <= i < j < |rows| :: rows[i] != rows[j] && !Ahead(jobs[rows[j]], jobs[rows[i]])
      invariant forall i, t | 0 <= i < |rows| && t in rest :: !Ahead(jobs[t], jobs[rows[i]])
      decreases rest
    {
      var best := Front(jobs, rest);
      assert forall i | 0 <= i < |rows| :: rows[i] in rows;
      rows := rows + [best];
      rest := rest - {best};
    }
  }

  /** `find_claimable_job`: the candidate loop over the window. */
  method FindClaimableJob(jobs: Jobs, workerType: Executor, caps: seq<string>)
    returns (found: Option<TaskId>, rows: seq<TaskId>)
    ensures IsWindow(jobs, workerType, rows)
    ensures found == Pick(jobs, rows, caps)
    ensures found.Some? ==>
      && Suitable(jobs, workerType, caps, found.value)
      && forall u | Suitable(jobs, workerType, caps, u) :: !Ahead(jobs[u], jobs[found.value])
    ensures found.None? ==>
      forall u | Suitable(jobs, workerType, caps, u) :: CrowdedOut(jobs, workerType, caps, u)
    ensures found.Some? ==>
      && Open(jobs, workerType, caps, found.value)
      && forall u | Open(jobs, workerType, caps, u) :: NotBehind(jobs[found.value], jobs[u])
    ensures found.None? ==>
      forall u | Open(jobs, workerType, caps, u) :: FiveInFront(jobs, workerType, caps, u)
  {
    rows := SelectWindow(jobs, workerType);
    SearchIsExact(jobs, workerType, caps, rows);
    SearchInColumns(jobs, workerType, caps, rows);
    found := None;
    for i := 0 to |rows|
      invariant Pick(jobs, rows[i..], caps) == Pick(jobs, rows, caps)
    {
      assert rows[i..][0] == rows[i] && rows[i..][1..] == rows[i + 1..];
      var fits := CapabilitySubsetMatch(jobs[rows[i]].spec.required, caps);
      if fits {
        return Some(rows[i]), rows;
      }
    }
  }
}
