/** Strings as the storage layer compares them, and the text normalisation around it. */
module Text {

  /** The BINARY collation: character by character, a proper prefix first. */
  predicate Before(a: string, b: string) {
    if b == "" then false
    else if a == "" then true
    else a[0] < b[0] || (a[0] == b[0] && Before(a[1..], b[1..]))
  }

  lemma {:induction false} BeforeIsTotal(a: string, b: string)
    ensures a == b || Before(a, b) || Before(b, a)
    ensures !(Before(a, b) && Before(b, a))
    ensures !Before(a, a)
  {
    if a != "" {
      BeforeIsTotal(a[1..], a[1..]);
      if b != "" {
        BeforeIsTotal(a[1..], b[1..]);
        if a[0] == b[0] && a[1..] == b[1..] {
          assert a == [a[0]] + a[1..] && b == [b[0]] + b[1..];
        }
      }
    }
  }

  lemma {:induction false} BeforeIsTransitive(a: string, b: string, c: string)
    requires Before(a, b) && Before(b, c)
    ensures Before(a, c)
  {
    if a != "" {
      if a[0] == b[0] && b[0] == c[0] {
        BeforeIsTransitive(a[1..], b[1..], c[1..]);
      }
    }
  }

  const CAP: nat := 2000
  const MARK := "...[truncated]"

  /** `_truncate_for_envelope`. */
  function Truncated(s: string): string {
    if |s| <= CAP then s else s[..CAP] + MARK
  }

  lemma TruncatingTwiceIsTruncatingOnce(s: string)
    ensures Truncated(Truncated(s)) == Truncated(s)
  {
    if |s| > CAP {
      assert (s[..CAP] + MARK)[..CAP] == s[..CAP];
    }
  }

  predicate IsSpace(c: char) {
    c == ' ' || c == '\t' || c == '\n' || c == '\r' || c == '\U{000B}' || c == '\U{000C}'
  }

  /** `not s.strip()`. */
  predicate Blank(s: string) {
    forall i | 0 <= i < |s| :: IsSpace(s[i])
  }

  /** ASCII lower case: the letters lie 32 apart, as far as the space lies from zero. */
  function LowerChar(c: char): char {
    if 'A' <= c <= 'Z' then c + ' ' else c
  }

  function Lower(s: string): (r: string)
    ensures |r| == |s| && forall i | 0 <= i < |s| :: r[i] == LowerChar(s[i])
  {
    if s == "" then "" else [LowerChar(s[0])] + Lower(s[1..])
  }

  function StripLeft(s: string): string {
    if s != "" && IsSpace(s[0]) then StripLeft(s[1..]) else s
  }

  function StripRight(s: string): string {
    if s != "" && IsSpace(s[|s| - 1]) then StripRight(s[..|s| - 1]) else s
  }

  function Strip(s: string): string {
    StripRight(StripLeft(s))
  }

  predicate Trim(s: string) {
    s == "" || (!IsSpace(s[0]) && !IsSpace(s[|s| - 1]))
  }

  lemma {:induction false} StripLeftStarts(s: string)
    ensures StripLeft(s) == "" || !IsSpace(StripLeft(s)[0])
  {
    if s != "" && IsSpace(s[0]) {
      StripLeftStarts(s[1..]);
    }
  }

  lemma {:induction false} StripRightEnds(s: string)
    ensures var r := StripRight(s);
      r <= s && (r == "" || (r[0] == s[0] && !IsSpace(r[|r| - 1])))
    decreases |s|
  {
    if s != "" && IsSpace(s[|s| - 1]) {
      StripRightEnds(s[..|s| - 1]);
    }
  }

  lemma StripTrims(s: string)
    ensures Trim(Strip(s))
  {
    StripLeftStarts(s);
    StripRightEnds(StripLeft(s));
  }

  /** The canonical form of one capability string. */
  function Canonical(v: string): string {
    Lower(Strip(v))
  }

  lemma CanonicalIsIdempotent(v: string)
    ensures Canonical(Canonical(v)) == Canonical(v)
  {
    StripTrims(v);
    var c := Canonical(v);
    assert Strip(c) == c;
    assert forall i | 0 <= i < |c| :: LowerChar(c[i]) == c[i];
    assert Lower(c) == c;
  }

  // ---- what the functions mean ---------------------------------------------------------------

  /** The order of two strings is decided at the first place they differ; a proper prefix comes
      first. */
  lemma {:induction false} BeforeExactly(a: string, b: string)
    ensures Before(a, b) <==> exists n | 0 <= n <= |a| && n < |b| :: a[..n] == b[..n] && (n == |a| || a[n] < b[n])
  {
    if a != "" && b != "" {
      BeforeExactly(a[1..], b[1..]);
      if Before(a, b) {
        if a[0] < b[0] {
          assert a[..0] == b[..0];
        } else {
          var n :| 0 <= n <= |a[1..]| && n < |b[1..]| && a[1..][..n] == b[1..][..n]
            && (n == |a[1..]| || a[1..][n] < b[1..][n]);
          assert a[..n + 1] == [a[0]] + a[1..][..n] && b[..n + 1] == [b[0]] + b[1..][..n];
        }
      }
      if n :| 0 <= n <= |a| && n < |b| && a[..n] == b[..n] && (n == |a| || a[n] < b[n]) {
        if n > 0 {
          assert a[..n][0] == b[..n][0];
          assert a[1..][..n - 1] == a[..n][1..] && b[1..][..n - 1] == b[..n][1..];
        }
      }
    } else if a == "" && b != "" {
      assert a[..0] == b[..0];
    }
  }

  /** A summary of up to 2000 characters is kept; of a longer one the first 2000 and a mark. */
  lemma TruncatedExactly(s: string)
    ensures |s| <= 2000 ==> Truncated(s) == s
    ensures |s| > 2000 ==> Truncated(s)[..2000] == s[..2000] && Truncated(s)[2000..] == "...[truncated]"
  {
  }

  /** Lower case, letter by letter; nothing else changes. */
  lemma LowerExactly(c: char)
    ensures 'A' <= c <= 'Z' ==>
      'a' <= LowerChar(c) <= 'z' && LowerChar(c) as int - 'a' as int == c as int - 'A' as int
    ensures !('A' <= c <= 'Z') ==> LowerChar(c) == c
  {
  }

  lemma {:induction false} StripLeftExactly(s: string)
    ensures var r := StripLeft(s);
      && |r| <= |s| && r == s[|s| - |r|..]
      && forall i | 0 <= i < |s| - |r| :: IsSpace(s[i])
  {
    if s != "" && IsSpace(s[0]) {
      StripLeftExactly(s[1..]);
    }
  }

  lemma {:induction false} StripRightExactly(s: string)
    ensures var r := StripRight(s);
      && |r| <= |s| && r == s[..|r|]
      && forall i | |r| <= i < |s| :: IsSpace(s[i])
    decreases |s|
  {
    if s != "" && IsSpace(s[|s| - 1]) {
      StripRightExactly(s[..|s| - 1]);
    }
  }

  /** Stripping takes nothing but white space off both ends, and all of it. */
  lemma StripExactly(s: string)
    ensures Trim(Strip(s))
    ensures exists i, j | 0 <= i <= j <= |s| ::
      Strip(s) == s[i..j] && (forall n | 0 <= n < i :: IsSpace(s[n])) && (forall n | j <= n < |s| :: IsSpace(s[n]))
  {
    StripTrims(s);
    StripLeftExactly(s);
    var l := StripLeft(s);
    StripRightExactly(l);
    var i := |s| - |l|;
    var j := i + |Strip(s)|;
    assert Strip(s) == s[i..j];
    forall n | j <= n < |s| ensures IsSpace(s[n]) {
      assert s[n] == l[n - i];
    }
  }

  /** White space: the tab and the four characters behind it, and the blank. */
  lemma SpacesExactly(c: char)
    ensures IsSpace(c) <==> 9 <= c as int <= 13 || c as int == 32
  {
  }
}
