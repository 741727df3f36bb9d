/**
 * The registration screen's e-mail check `/\S+@\S+\.\S+/.test(email)`: a
 * regular expression made of literal characters and `\S+` runs, tested
 * without anchors, so it succeeds when it matches at any start position.
 */
module EmailPattern {
  import opened JsStrings

  /** One element of the pattern: a literal character or a `\S+` run. */
  datatype Atom = Char(c: char) | NonSpaceRun

  type Pattern = seq<Atom>

  /** `\S+@\S+\.\S+` */
  const EmailRegex: Pattern := [NonSpaceRun, Char('@'), NonSpaceRun, Char('.'), NonSpaceRun]

  /** `p` matches some prefix of `s[i..]` (the match need not reach the end). */
  predicate MatchFrom(p: Pattern, s: string, i: nat)
    requires i <= |s|
    decreases |p|, |s| - i
  {
    if p == [] then true
    else match p[0]
      case Char(c) => i < |s| && s[i] == c && MatchFrom(p[1..], s, i + 1)
      case NonSpaceRun =>
        i < |s| && !IsSpace(s[i]) && (MatchFrom(p[1..], s, i + 1) || MatchFrom(p, s, i + 1))
  }

  /** `RegExp.prototype.test` without anchors: `p` matches starting at `i` or at a later index. */
  predicate SearchFrom(p: Pattern, s: string, i: nat)
    requires i <= |s|
    decreases |s| - i
  {
    MatchFrom(p, s, i) || (i < |s| && SearchFrom(p, s, i + 1))
  }

  predicate Test(p: Pattern, s: string) {
    SearchFrom(p, s, 0)
  }

  /** No white space in `s[i..j]`. */
  predicate NonSpaceBetween(s: string, i: nat, j: nat)
    requires i <= j <= |s|
  {
    forall k :: i <= k < j ==> !IsSpace(s[k])
  }

  /**
   * The shape the pattern accepts, stated with indices: an `@` at `a` and a
   * `.` at `d`, a non-space just before the `@`, only non-spaces strictly
   * between them (at least one), and a non-space just after the `.`.
   */
  predicate EmailAt(s: string, a: nat, d: nat) {
    && 0 < a && a + 1 < d && d + 1 < |s|
    && s[a] == '@' && s[d] == '.'
    && !IsSpace(s[a - 1]) && !IsSpace(s[d + 1])
    && NonSpaceBetween(s, a + 1, d)
  }

  predicate EmailShape(s: string) {
    exists a: nat, d: nat | a < |s| && d < |s| :: EmailAt(s, a, d)
  }

  /** A `\S+` run followed by `q` matches at `j` exactly when some non-space stretch `s[j..m]` is followed by a match of `q`. */
  lemma {:induction false} RunThen(q: Pattern, s: string, j: nat)
    requires j <= |s|
    ensures MatchFrom([NonSpaceRun] + q, s, j)
            <==> exists m: nat :: j < m <= |s| && NonSpaceBetween(s, j, m) && MatchFrom(q, s, m)
    decreases |s| - j
  {
    var p := [NonSpaceRun] + q;
    assert p[1..] == q;
    if j < |s| {
      RunThen(q, s, j + 1);
      if MatchFrom(p, s, j) {
        if MatchFrom(q, s, j + 1) {
          assert NonSpaceBetween(s, j, j + 1);
        } else {
          var m: nat :| j + 1 < m <= |s| && NonSpaceBetween(s, j + 1, m) && MatchFrom(q, s, m);
          assert NonSpaceBetween(s, j, m);
        }
      }
      if exists m: nat :: j < m <= |s| && NonSpaceBetween(s, j, m) && MatchFrom(q, s, m) {
        var m: nat :| j < m <= |s| && NonSpaceBetween(s, j, m) && MatchFrom(q, s, m);
        if m > j + 1 {
          assert NonSpaceBetween(s, j + 1, m);
        }
      }
    }
  }

  /** The unanchored search succeeds exactly when some start index at or after `i` matches. */
  lemma {:induction false} SearchFromIff(p: Pattern, s: string, i: nat)
    requires i <= |s|
    ensures SearchFrom(p, s, i) <==> exists k: nat :: i <= k <= |s| && MatchFrom(p, s, k)
    decreases |s| - i
  {
    if MatchFrom(p, s, i) {
      assert i <= i <= |s| && MatchFrom(p, s, i);
      assert exists k: nat :: i <= k <= |s| && MatchFrom(p, s, k);
    }
    if i < |s| {
      SearchFromIff(p, s, i + 1);
      if SearchFrom(p, s, i + 1) {
        var k: nat :| i + 1 <= k <= |s| && MatchFrom(p, s, k);
        assert i <= k <= |s| && MatchFrom(p, s, k);
        assert exists k': nat :: i <= k' <= |s| && MatchFrom(p, s, k');
      }
      if exists k: nat :: i <= k <= |s| && MatchFrom(p, s, k) {
        var k: nat :| i <= k <= |s| && MatchFrom(p, s, k);
        if k > i {
          assert i + 1 <= k <= |s| && MatchFrom(p, s, k);
          assert exists k': nat :: i + 1 <= k' <= |s| && MatchFrom(p, s, k');
          assert SearchFrom(p, s, i + 1);
        }
      }
    }
  }

  /** The tail `\S+` matches exactly one non-space or more. */
  lemma LastRun(s: string, j: nat)
    requires j <= |s|
    ensures MatchFrom([NonSpaceRun], s, j) <==> j < |s| && !IsSpace(s[j])
  {
    assert [NonSpaceRun][1..] == [];
  }

  /** `\S+\.\S+` at `j`: a non-space stretch up to a `.` at `d`, then a non-space. */
  lemma DomainPart(s: string, j: nat)
    requires j <= |s|
    ensures MatchFrom(EmailRegex[2..], s, j)
            <==> exists d: nat :: j < d && d + 1 < |s| && s[d] == '.' && !IsSpace(s[d + 1]) && NonSpaceBetween(s, j, d)
  {
    var q := [Char('.'), NonSpaceRun];
    assert EmailRegex[2..] == [NonSpaceRun] + q;
    assert q[1..] == [NonSpaceRun];
    RunThen(q, s, j);
    forall d: nat | j < d <= |s|
      ensures MatchFrom(q, s, d) <==> d + 1 < |s| && s[d] == '.' && !IsSpace(s[d + 1])
    {
      if d < |s| { LastRun(s, d + 1); }
    }
  }

  /** The whole pattern at `i`: a non-space stretch up to an `@` at `a`, then the domain part. */
  lemma WholePattern(s: string, i: nat)
    requires i <= |s|
    ensures MatchFrom(EmailRegex, s, i)
            <==> exists a: nat :: i < a && a < |s| && NonSpaceBetween(s, i, a) && s[a] == '@' && MatchFrom(EmailRegex[2..], s, a + 1)
  {
    var q := EmailRegex[1..];
    assert EmailRegex == [NonSpaceRun] + q;
    assert q[1..] == EmailRegex[2..];
    RunThen(q, s, i);
  }

  /** The e-mail test accepts exactly the strings of `EmailShape`. */
  lemma EmailTestIff(s: string)
    ensures Test(EmailRegex, s) <==> EmailShape(s)
  {
    SearchFromIff(EmailRegex, s, 0);
    if Test(EmailRegex, s) {
      var i: nat :| i <= |s| && MatchFrom(EmailRegex, s, i);
      WholePattern(s, i);
      var a: nat :| i < a && a < |s| && NonSpaceBetween(s, i, a) && s[a] == '@' && MatchFrom(EmailRegex[2..], s, a + 1);
      DomainPart(s, a + 1);
      var d: nat :| a + 1 < d && d + 1 < |s| && s[d] == '.' && !IsSpace(s[d + 1]) && NonSpaceBetween(s, a + 1, d);
      assert EmailAt(s, a, d);
    }
    if EmailShape(s) {
      var a: nat, d: nat :| a < |s| && d < |s| && EmailAt(s, a, d);
      assert 0 < a && a + 1 < d && d + 1 < |s|;
      DomainPart(s, a + 1);
      assert MatchFrom(EmailRegex[2..], s, a + 1);
      WholePattern(s, a - 1);
      assert NonSpaceBetween(s, a - 1, a);
      assert MatchFrom(EmailRegex, s, a - 1);
    }
  }
}
