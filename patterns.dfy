/** The three regular expressions of the forms and handlers, as predicates on
    strings, with the email pattern proved equal to its regular-expression reading. */
module Patterns {
  import opened JsText

  /** A character of `[^\s@]`. */
  predicate EmailChar(c: char)
  {
    !IsSpace(c) && c != '@'
  }

  /** `[^\s@]+`: a non-empty run of characters that are neither white space nor `@`. */
  predicate EmailRun(s: string)
  {
    |s| > 0 && forall i :: 0 <= i < |s| ==> EmailChar(s[i])
  }

  /** The part after `@`: `[^\s@]+\.[^\s@]+`, i.e. a run with a dot strictly inside it. */
  predicate DomainPart(r: string)
  {
    EmailRun(r) && exists j | 0 < j < |r| - 1 :: r[j] == '.'
  }

  /** `/^[^\s@]+@[^\s@]+\.[^\s@]+$/.test(s)`, decided by locating the `@`. */
  predicate EmailPattern(s: string)
  {
    exists i | 0 < i < |s| :: s[i] == '@' && EmailRun(s[..i]) && DomainPart(s[i + 1..])
  }

  /** The regular expression read literally: three runs joined by `@` and `.`. */
  ghost predicate EmailRegex(s: string)
  {
    exists a: string, b: string, c: string ::
      EmailRun(a) && EmailRun(b) && EmailRun(c) && s == a + "@" + b + "." + c
  }

  /** The decision procedure accepts exactly the strings the regular expression matches. */
  lemma EmailPatternIsRegex(s: string)
    ensures EmailPattern(s) <==> EmailRegex(s)
  {
    if EmailPattern(s) {
      EmailPatternMatches(s);
    }
    if EmailRegex(s) {
      var a: string, b: string, c: string :|
        EmailRun(a) && EmailRun(b) && EmailRun(c) && s == a + "@" + b + "." + c;
      RegexMatchIsPattern(a, b, c);
    }
  }

  lemma EmailPatternMatches(s: string)
    requires EmailPattern(s)
    ensures EmailRegex(s)
  {
    var i :| 0 < i < |s| && s[i] == '@' && EmailRun(s[..i]) && DomainPart(s[i + 1..]);
    var r := s[i + 1..];
    var j :| 0 < j < |r| - 1 && r[j] == '.';
    EmailRunSlice(r, 0, j);
    EmailRunSlice(r, j + 1, |r|);
    Rejoin(s, i, j);
    JoinedIsRegex(s[..i], r[..j], r[j + 1..]);
  }

  lemma Rejoin(s: string, i: int, j: int)
    requires 0 < i < |s| && s[i] == '@'
    requires 0 < j < |s[i + 1..]| - 1 && s[i + 1..][j] == '.'
    ensures s == s[..i] + "@" + s[i + 1..][..j] + "." + s[i + 1..][j + 1..]
  {
    var r := s[i + 1..];
    assert r == r[..j] + "." + r[j + 1..];
    assert s == s[..i] + "@" + r;
  }

  lemma JoinedIsRegex(a: string, b: string, c: string)
    requires EmailRun(a) && EmailRun(b) && EmailRun(c)
    ensures EmailRegex(a + "@" + b + "." + c)
  {
  }

  /** A non-empty slice of a run is a run. */
  lemma EmailRunSlice(r: string, lo: int, hi: int)
    requires EmailRun(r) && 0 <= lo < hi <= |r|
    ensures EmailRun(r[lo..hi])
  {
    forall k | 0 <= k < hi - lo ensures EmailChar(r[lo..hi][k]) {
      assert r[lo..hi][k] == r[lo + k];
    }
  }

  lemma RegexMatchIsPattern(a: string, b: string, c: string)
    requires EmailRun(a) && EmailRun(b) && EmailRun(c)
    ensures EmailPattern(a + "@" + b + "." + c)
  {
    var s := a + "@" + b + "." + c;
    var r := b + "." + c;
    var i := |a|;
    assert s == a + "@" + r;
    assert s[..i] == a;
    assert s[i + 1..] == r;
    assert r[|b|] == '.';
    forall k | 0 <= k < |r| ensures EmailChar(r[k]) {
      if k < |b| {
        assert r[k] == b[k];
      } else if k > |b| {
        assert r[k] == c[k - |b| - 1];
      }
    }
    assert DomainPart(r);
  }

  /** An address matching the pattern holds exactly one `@` and no white space. */
  lemma EmailPatternSingleAt(s: string)
    requires EmailPattern(s)
    ensures forall k :: 0 <= k < |s| ==> !IsSpace(s[k])
    ensures exists i :: 0 < i < |s| && s[i] == '@' && forall k :: 0 <= k < |s| && k != i ==> s[k] != '@'
  {
    var i :| 0 < i < |s| && s[i] == '@' && EmailRun(s[..i]) && DomainPart(s[i + 1..]);
    forall k | 0 <= k < |s| && k != i ensures EmailChar(s[k]) {
      if k < i {
        assert s[k] == s[..i][k];
      } else {
        assert s[k] == s[i + 1..][k - i - 1];
      }
    }
  }

  predicate IsLetter(c: char)
  {
    ('a' <= c <= 'z') || ('A' <= c <= 'Z')
  }

  /** `/^[a-zA-Z\s]+$/.test(s)`: ASCII letters and white space only, at least one character. */
  predicate NamePattern(s: string)
  {
    |s| > 0 && forall i :: 0 <= i < |s| ==> IsLetter(s[i]) || IsSpace(s[i])
  }

  /** `/^[\+]?[1-9][\d]{0,15}$/.test(s)`: an optional `+`, a non-zero digit, then at most
      fifteen digits. */
  predicate PhonePattern(s: string)
  {
    var n := if |s| > 0 && s[0] == '+' then s[1..] else s;
    1 <= |n| <= 16 && '1' <= n[0] <= '9' && AllDigits(n)
  }
}
