/** The task id generator: the greatest id of the day by string order, plus one, padded to four
    digits. */
module Ids {
  import opened Models
  import Text

  function Pow10(n: nat): nat {
    if n == 0 then 1 else 10 * Pow10(n - 1)
  }

  predicate IsDigit(c: char) {
    '0' <= c <= '9'
  }

  predicate Numeric(s: string) {
    forall i | 0 <= i < |s| :: IsDigit(s[i])
  }

  function DigitOf(n: nat): char
    requires n < 10
  {
    "0123456789"[n]
  }

  function Weight(c: char): nat
    requires IsDigit(c)
  {
    c as int - '0' as int
  }

  /** The number a digit string denotes, most significant digit first. */
  function Value(s: string): nat
    requires Numeric(s)
  {
    if s == "" then 0 else Weight(s[0]) * Pow10(|s| - 1) + Value(s[1..])
  }

  function Digits(n: nat): string {
    if n < 10 then [DigitOf(n)] else Digits(n / 10) + [DigitOf(n % 10)]
  }

  function Zeros(n: nat): string {
    if n == 0 then "" else "0" + Zeros(n - 1)
  }

  const WIDTH: nat := 4

  /** The `04d` format. */
  function Padded(n: nat): string {
    var d := Digits(n);
    if |d| < WIDTH then Zeros(WIDTH - |d|) + d else d
  }

  /** `int` on a suffix; anything but digits is malformed. */
  function Parse(s: string): Option<nat> {
    if s != "" && Numeric(s) then Some(Value(s)) else None
  }

  // ---- numbers as strings ------------------------------------------------------------------

  lemma {:induction false} ValueFits(s: string)
    requires Numeric(s)
    ensures Value(s) < Pow10(|s|)
  {
    if s != "" {
      ValueFits(s[1..]);
      AtMostNine(Weight(s[0]), Pow10(|s| - 1));
    }
  }

  lemma AtMostNine(w: nat, p: nat)
    requires w <= 9
    ensures w * p <= 9 * p
  {
  }

  lemma Scaled(w: nat, p: nat)
    ensures w * (10 * p) == 10 * (w * p)
  {
  }

  lemma {:induction false} ValueOfAppended(s: string, c: char)
    requires Numeric(s) && IsDigit(c)
    ensures Numeric(s + [c]) && Value(s + [c]) == 10 * Value(s) + Weight(c)
  {
    if s == "" {
      assert [c][1..] == "";
      assert Value([c]) == Weight(c) * Pow10(0) + Value("");
    } else {
      ValueOfAppended(s[1..], c);
      var longer := s + [c];
      assert longer[1..] == s[1..] + [c] && longer[0] == s[0] && Numeric(longer);
      Scaled(Weight(s[0]), Pow10(|s| - 1));
      assert Value(longer) == Weight(s[0]) * Pow10(|s|) + Value(s[1..] + [c]);
    }
  }

  lemma {:induction false} DigitsRoundTrip(n: nat)
    ensures Numeric(Digits(n)) && Value(Digits(n)) == n && Digits(n) != ""
  {
    if n < 10 {
      ValueOfAppended("", DigitOf(n));
      assert "" + [DigitOf(n)] == Digits(n);
    } else {
      DigitsRoundTrip(n / 10);
      ValueOfAppended(Digits(n / 10), DigitOf(n % 10));
    }
  }

  lemma {:induction false} ZerosAreWorthless(n: nat, s: string)
    requires Numeric(s)
    ensures Numeric(Zeros(n) + s) && Value(Zeros(n) + s) == Value(s) && |Zeros(n)| == n
  {
    if n == 0 {
      assert Zeros(0) + s == s;
    } else {
      ZerosAreWorthless(n - 1, s);
      var all := Zeros(n) + s;
      assert all[0] == '0' && all[1..] == Zeros(n - 1) + s;
      assert Numeric(all) by {
        assert all == [all[0]] + all[1..];
      }
      assert Value(all) == Weight('0') * Pow10(|all| - 1) + Value(all[1..]);
    }
  }

  /** Reading back a formatted number gives the number, whatever its width. */
  lemma PaddedRoundTrip(n: nat)
    ensures Parse(Padded(n)) == Some(n) && Numeric(Padded(n))
  {
    DigitsRoundTrip(n);
    if |Digits(n)| < WIDTH {
      ZerosAreWorthless(WIDTH - |Digits(n)|, Digits(n));
    }
  }

  lemma {:induction false} DigitsAreFew(n: nat, k: nat)
    requires k >= 1 && n < Pow10(k)
    ensures |Digits(n)| <= k
    decreases n
  {
    if n >= 10 {
      assert k != 1;
      DigitsAreFew(n / 10, k - 1);
    }
  }

  lemma PaddedWidth(n: nat)
    requires n < Pow10(WIDTH)
    ensures |Padded(n)| == WIDTH
  {
    DigitsAreFew(n, WIDTH);
    ZerosAreWorthless(WIDTH - |Digits(n)|, "");
  }

  lemma LeadingDigitDecides(w: nat, w': nat, p: nat, v: nat, v': nat)
    requires w < w' && v < p
    ensures w * p + v < w' * p + v'
  {
    assert (w + 1) * p <= w' * p;
  }

  /** Digit strings of one length are ordered as their numbers. */
  lemma {:induction false} OrderIsNumeric(a: string, b: string)
    requires |a| == |b| && Numeric(a) && Numeric(b)
    ensures Text.Before(a, b) <==> Value(a) < Value(b)
  {
    if a != "" {
      ValueFits(a[1..]);
      ValueFits(b[1..]);
      OrderIsNumeric(a[1..], b[1..]);
      var p := Pow10(|a| - 1);
      if a[0] < b[0] {
        LeadingDigitDecides(Weight(a[0]), Weight(b[0]), p, Value(a[1..]), Value(b[1..]));
      } else if b[0] < a[0] {
        LeadingDigitDecides(Weight(b[0]), Weight(a[0]), p, Value(b[1..]), Value(a[1..]));
      }
    }
  }

  lemma {:induction false} CommonPrefix(p: string, a: string, b: string)
    ensures Text.Before(p + a, p + b) <==> Text.Before(a, b)
  {
    if p == "" {
      assert "" + a == a && "" + b == b;
    } else {
      CommonPrefix(p[1..], a, b);
      assert (p + a)[1..] == p[1..] + a && (p + b)[1..] == p[1..] + b;
      if b == "" && a == "" {
        assert p + a == p + b;
      }
    }
  }

  // ---- the generator -----------------------------------------------------------------------

  function Id(prefix: string, n: nat): string {
    prefix + Padded(n)
  }

  /** LIKE prefix%. */
  function OfDay(prefix: string, ids: seq<string>): seq<string> {
    if ids == [] then []
    else OfDay(prefix, ids[..|ids| - 1])
         + if prefix <= ids[|ids| - 1] then [ids[|ids| - 1]] else []
  }

  /** ORDER BY task_id DESC LIMIT 1. */
  function Last(ids: seq<string>): string
    requires ids != []
  {
    var last := ids[|ids| - 1];
    if |ids| == 1 then last
    else
      var m := Last(ids[..|ids| - 1]);
      if Text.Before(m, last) then last else m
  }

  /** What follows the last dash. */
  function AfterDash(s: string): string {
    if s == "" || s[|s| - 1] == '-' then "" else AfterDash(s[..|s| - 1]) + [s[|s| - 1]]
  }

  /** `next_task_id` on a snapshot of the ids. */
  function NextTaskId(prefix: string, ids: seq<string>): string {
    var rows := OfDay(prefix, ids);
    if rows == [] then Id(prefix, 1)
    else
      match Parse(AfterDash(Last(rows)))
      case Some(n) => Id(prefix, n + 1)
      case None => Id(prefix, |rows| + 1)
  }

  /** A day's prefix ends in a dash. */
  predicate DayPrefix(prefix: string) {
    prefix != "" && prefix[|prefix| - 1] == '-'
  }

  lemma {:induction false} SuffixIsRead(prefix: string, s: string)
    requires DayPrefix(prefix) && Numeric(s)
    ensures AfterDash(prefix + s) == s
  {
    if s == "" {
      assert prefix + s == prefix;
    } else {
      var n := |s| - 1;
      SuffixIsRead(prefix, s[..n]);
      assert (prefix + s)[..|prefix + s| - 1] == prefix + s[..n];
      assert s == s[..n] + [s[n]];
    }
  }

  /** The first n ids of a day, in order. */
  function FirstIds(prefix: string, n: nat): seq<string> {
    if n == 0 then [] else FirstIds(prefix, n - 1) + [Id(prefix, n)]
  }

  lemma {:induction false} FirstIdsAt(prefix: string, n: nat)
    ensures |FirstIds(prefix, n)| == n
    ensures forall i | 0 <= i < n :: FirstIds(prefix, n)[i] == Id(prefix, i + 1)
  {
    hide Id;
    if n > 0 {
      FirstIdsAt(prefix, n - 1);
    }
  }

  lemma {:induction false} FirstIdsAreOfDay(prefix: string, n: nat)
    ensures OfDay(prefix, FirstIds(prefix, n)) == FirstIds(prefix, n)
  {
    hide Id;
    if n > 0 {
      FirstIdsAreOfDay(prefix, n - 1);
      IdIsOfDay(prefix, n);
      OfDayAppends(prefix, FirstIds(prefix, n - 1), Id(prefix, n));
    }
  }

  lemma OfDayAppends(prefix: string, ids: seq<string>, id: string)
    requires prefix <= id
    ensures OfDay(prefix, ids + [id]) == OfDay(prefix, ids) + [id]
  {
    assert (ids + [id])[..|ids|] == ids;
  }

  lemma IdIsOfDay(prefix: string, n: nat)
    ensures prefix <= Id(prefix, n)
  {
  }

  lemma IdsAreOrdered(prefix: string, m: nat, n: nat)
    requires m < Pow10(WIDTH) && n < Pow10(WIDTH)
    ensures Text.Before(Id(prefix, m), Id(prefix, n)) <==> m < n
  {
    PaddedRoundTrip(m);
    PaddedRoundTrip(n);
    PaddedWidth(m);
    PaddedWidth(n);
    OrderIsNumeric(Padded(m), Padded(n));
    CommonPrefix(prefix, Padded(m), Padded(n));
  }

  lemma IdsAreDistinct(prefix: string, m: nat, n: nat)
    requires m != n
    ensures Id(prefix, m) != Id(prefix, n)
  {
    PaddedRoundTrip(m);
    PaddedRoundTrip(n);
    assert Id(prefix, m)[|prefix|..] == Padded(m);
    assert Id(prefix, n)[|prefix|..] == Padded(n);
  }

  const LIMIT: nat := 10000

  lemma FiveDigits()
    ensures Pow10(WIDTH) == LIMIT && Padded(LIMIT) == "10000" && Padded(LIMIT - 1) == "9999"
  {
    assert Pow10(4) == 10 * Pow10(3) && Pow10(3) == 10 * Pow10(2) && Pow10(2) == 10 * Pow10(1) && Pow10(1) == 10;
    assert Digits(10) == "10" && Digits(100) == "100" && Digits(1000) == "1000" && Digits(10000) == "10000";
    assert Digits(99) == "99" && Digits(999) == "999" && Digits(9999) == "9999";
  }

  /** Up to 9999 the newest id is the greatest string; from 10000 on it is not: the string 9999
      stays ahead. */
  lemma {:induction false} LastOfFirst(prefix: string, n: nat)
    requires 1 <= n <= LIMIT
    ensures Last(FirstIds(prefix, n)) == Id(prefix, if n < LIMIT then n else LIMIT - 1)
  {
    FiveDigits();
    FirstIdsAt(prefix, n);
    if n == 1 {
      assert FirstIds(prefix, 1) == [Id(prefix, 1)];
    } else {
      LastOfFirst(prefix, n - 1);
      assert FirstIds(prefix, n)[..n - 1] == FirstIds(prefix, n - 1);
      if n < LIMIT {
        IdsAreOrdered(prefix, n - 1, n);
      } else {
        CommonPrefix(prefix, "9999", "10000");
      }
    }
  }

  lemma NextAfterFirst(prefix: string, n: nat)
    requires DayPrefix(prefix) && n <= LIMIT
    ensures NextTaskId(prefix, FirstIds(prefix, n)) == Id(prefix, if n < LIMIT then n + 1 else LIMIT)
  {
    FirstIdsAt(prefix, n);
    FirstIdsAreOfDay(prefix, n);
    if n > 0 {
      LastOfFirst(prefix, n);
      var k := if n < LIMIT then n else LIMIT - 1;
      PaddedRoundTrip(k);
      SuffixIsRead(prefix, Padded(k));
    }
  }

  /** The ids a day hands out when every one of them is inserted. */
  function Generated(prefix: string, n: nat): seq<string> {
    if n == 0 then []
    else Generated(prefix, n - 1) + [NextTaskId(prefix, Generated(prefix, n - 1))]
  }

  lemma {:induction false} GeneratedAreFirst(prefix: string, n: nat)
    requires DayPrefix(prefix) && n <= LIMIT
    ensures Generated(prefix, n) == FirstIds(prefix, n)
  {
    if n > 0 {
      GeneratedAreFirst(prefix, n - 1);
      NextAfterFirst(prefix, n - 1);
    }
  }

  /** From an empty day the first 10,000 ids are consecutive and pairwise distinct. */
  lemma IdsAreConsecutive(prefix: string, n: nat)
    requires DayPrefix(prefix) && n <= LIMIT
    ensures |Generated(prefix, n)| == n
    ensures forall i | 0 <= i < n :: Generated(prefix, n)[i] == Id(prefix, i + 1)
    ensures forall i, j | 0 <= i < j < n :: Generated(prefix, n)[i] != Generated(prefix, n)[j]
  {
    hide Id, NextTaskId;
    GeneratedAreFirst(prefix, n);
    FirstIdsAt(prefix, n);
    forall i, j | 0 <= i < j < n ensures Generated(prefix, n)[i] != Generated(prefix, n)[j] {
      IdsAreDistinct(prefix, i + 1, j + 1);
    }
  }

  /** The next id of a day is new exactly while fewer than 10,000 were handed out; from then on
      the generator returns the 10,000th again, however often it is asked. */
  lemma FreshExactlyBelowTheLimit(prefix: string, n: nat)
    requires DayPrefix(prefix) && n <= LIMIT
    ensures NextTaskId(prefix, Generated(prefix, n)) !in Generated(prefix, n) <==> n < LIMIT
    ensures n == LIMIT ==> NextTaskId(prefix, Generated(prefix, n)) == Id(prefix, LIMIT)
  {
    hide Id, NextTaskId, Generated;
    IdsAreConsecutive(prefix, n);
    GeneratedAreFirst(prefix, n);
    NextAfterFirst(prefix, n);
    if n < LIMIT {
      forall i | 0 <= i < n ensures Generated(prefix, n)[i] != Id(prefix, n + 1) {
        IdsAreDistinct(prefix, i + 1, n + 1);
      }
    } else {
      assert Generated(prefix, n)[LIMIT - 1] == Id(prefix, LIMIT);
    }
  }

  // ---- any snapshot ----------------------------------------------------------------------------

  /** The rows of a day are exactly the ids that begin with its prefix. */
  lemma {:induction false} OfDayExactly(prefix: string, ids: seq<string>)
    ensures forall id :: id in OfDay(prefix, ids) <==> id in ids && prefix <= id
    decreases |ids|
  {
    if ids != [] {
      var n := |ids| - 1;
      OfDayExactly(prefix, ids[..n]);
      assert ids == ids[..n] + [ids[n]];
    }
  }

  /** Ids of other days do not matter. */
  lemma OtherDaysDoNotMatter(prefix: string, ids: seq<string>, other: string)
    requires !(prefix <= other)
    ensures NextTaskId(prefix, ids + [other]) == NextTaskId(prefix, ids)
  {
    assert (ids + [other])[..|ids|] == ids;
    assert OfDay(prefix, ids + [other]) == OfDay(prefix, ids);
  }

  /** The row the query returns is the greatest string. */
  lemma {:induction false} LastIsGreatest(ids: seq<string>)
    requires ids != []
    ensures Last(ids) in ids && forall id | id in ids :: id == Last(ids) || Text.Before(id, Last(ids))
    decreases |ids|
  {
    var n := |ids| - 1;
    assert ids == ids[..n] + [ids[n]];
    if n > 0 {
      LastIsGreatest(ids[..n]);
      var m := Last(ids[..n]);
      Text.BeforeIsTotal(m, ids[n]);
      forall id | id in ids ensures id == Last(ids) || Text.Before(id, Last(ids)) {
        if id in ids[..n] && id != m && Text.Before(m, ids[n]) {
          Text.BeforeIsTransitive(id, m, ids[n]);
        }
      }
    }
  }

  /** On any snapshot: the first id of a day without ids; else one more than the number behind the
      last dash of the day's greatest id, or than the count of the day's ids if that is no number. */
  lemma NextInAnyState(prefix: string, ids: seq<string>)
    ensures (forall id | id in ids :: !(prefix <= id)) ==> NextTaskId(prefix, ids) == prefix + "0001"
    ensures (exists id | id in ids :: prefix <= id) ==>
      var rows := OfDay(prefix, ids);
      && rows != []
      && var suffix := AfterDash(Last(rows));
      && (suffix != "" && Numeric(suffix) ==> NextTaskId(prefix, ids) == prefix + Padded(Value(suffix) + 1))
      && (suffix == "" || !Numeric(suffix) ==> NextTaskId(prefix, ids) == prefix + Padded(|rows| + 1))
  {
    hide Padded, AfterDash, OfDay, Last;
    OfDayExactly(prefix, ids);
    if OfDay(prefix, ids) == [] {
      FirstIsPadded();
      assert forall id :: id in ids && prefix <= id ==> id in OfDay(prefix, ids);
    } else {
      assert OfDay(prefix, ids)[0] in OfDay(prefix, ids);
    }
  }

  lemma FirstIsPadded()
    ensures Padded(1) == "0001"
  {
    assert Digits(1) == "1" && Zeros(3) == "000";
  }

  /** What stands behind the last dash holds no dash, and the rest ends in one or is empty. */
  lemma {:induction false} SuffixHasNoDash(s: string)
    ensures var t := AfterDash(s);
      && |t| <= |s| && t == s[|s| - |t|..] && '-' !in t
      && (|t| == |s| || s[|s| - |t| - 1] == '-')
  {
    if s != "" && s[|s| - 1] != '-' {
      var n := |s| - 1;
      var t := AfterDash(s[..n]);
      SuffixHasNoDash(s[..n]);
      assert AfterDash(s) == t + [s[n]];
      assert s[n - |t|..] == s[..n][n - |t|..] + [s[n]];
    }
  }
}
