/**
 * The e-mail pattern both authentication forms test, `^[^\s@]+@[^\s@]+\.[^\s@]+$`:
 * its language as a predicate, the test as a function, and the proof that the
 * two agree.
 */
module EmailPattern {
  import opened Strings

  /** A member of the class `[^\s@]`. */
  predicate IsAtomChar(c: char) {
    !IsWhitespace(c) && c != '@'
  }

  /** A word of `[^\s@]+`. */
  predicate IsAtom(t: string) {
    |t| > 0 && forall k :: 0 <= k < |t| ==> IsAtomChar(t[k])
  }

  /**
   * The language of the pattern: a local part, `@`, a domain label, `.`, and a
   * tail, each a non-empty run of characters that are neither white space nor `@`.
   */
  ghost predicate MatchesEmailRegex(s: string) {
    exists i, j :: SplitsAt(s, i, j)
  }

  /** `s` splits as word, `@` at index `i`, word, `.` at index `j`, word. */
  predicate SplitsAt(s: string, i: int, j: int) {
    0 <= i < j < |s| && s[i] == '@' && s[j] == '.'
    && IsAtom(s[..i]) && IsAtom(s[i + 1..j]) && IsAtom(s[j + 1..])
  }

  /**
   * What may follow the first `@` of a matching address: at least three
   * characters, none of them white space or `@`, with a `.` that is neither
   * first nor last.
   */
  predicate IsDomain(d: string) {
    |d| >= 3 && (forall k :: 0 <= k < |d| ==> IsAtomChar(d[k])) && '.' in d[1..|d| - 1]
  }

  /**
   * `emailRegex.test(s)`: the text before the first `@` is a non-empty word of
   * `[^\s@]+`, and the text after it is a domain.
   */
  function EmailRegexTest(s: string): (r: bool)
    ensures r <==> MatchesEmailRegex(s)
  {
    var i := IndexOf(s, '@');
    var ok := i < |s| && IsAtom(s[..i]) && IsDomain(s[i + 1..]);
    assert ok ==> MatchesEmailRegex(s) by { if ok { TestSound(s, i); } }
    assert MatchesEmailRegex(s) ==> ok by { if MatchesEmailRegex(s) { TestComplete(s); } }
    ok
  }

  /** A string the test accepts is in the pattern's language. */
  lemma TestSound(s: string, i: nat)
    requires i < |s| && s[i] == '@' && IsAtom(s[..i]) && IsDomain(s[i + 1..])
    ensures MatchesEmailRegex(s)
  {
    var d := s[i + 1..];
    var m := IndexOf(d[1..|d| - 1], '.');
    var j := i + 2 + m;
    assert s[j] == '.';
    assert s[i + 1..j] == d[..m + 1];
    assert s[j + 1..] == d[m + 2..];
    assert IsAtom(s[i + 1..j]);
    assert SplitsAt(s, i, j);
  }

  /** A string in the pattern's language passes the test. */
  lemma TestComplete(s: string)
    requires MatchesEmailRegex(s)
    ensures IndexOf(s, '@') < |s|
    ensures IsAtom(s[..IndexOf(s, '@')]) && IsDomain(s[IndexOf(s, '@') + 1..])
  {
    var i, j :| SplitsAt(s, i, j);
    FirstAt(s, i);
    SplitDomain(s, i, j);
  }

  /** In a split, everything after the `@` is a domain. */
  lemma SplitDomain(s: string, i: int, j: int)
    requires SplitsAt(s, i, j)
    ensures IsDomain(s[i + 1..])
  {
    var mid, tail := s[i + 1..j], s[j + 1..];
    assert s[i + 1..] == mid + ['.'] + tail;
    DomainOf(mid, tail);
  }

  /** A label, a dot and a non-empty tail form a domain. */
  lemma DomainOf(mid: string, tail: string)
    requires IsAtom(mid) && IsAtom(tail)
    ensures IsDomain(mid + ['.'] + tail)
  {
    var d := mid + ['.'] + tail;
    forall k | 0 <= k < |d|
      ensures IsAtomChar(d[k])
    {
      if k < |mid| {
        assert d[k] == mid[k];
      } else if k > |mid| {
        assert d[k] == tail[k - |mid| - 1];
      }
    }
    assert d[1..|d| - 1][|mid| - 1] == '.';
  }

  /** The first `@` of a string whose prefix before index `i` is a word of `[^\s@]+`. */
  lemma FirstAt(s: string, i: nat)
    requires i < |s| && s[i] == '@' && IsAtom(s[..i])
    ensures IndexOf(s, '@') == i
  {
    var f := IndexOf(s, '@');
    if f < i {
      assert s[f] == s[..i][f];
    }
  }

  /**
   * A matching address has no white space and exactly one `@`; in particular
   * trimming it changes nothing.
   */
  lemma MatchShape(s: string)
    requires MatchesEmailRegex(s)
    ensures forall k :: 0 <= k < |s| ==> !IsWhitespace(s[k])
    ensures forall k, l :: 0 <= k < |s| && 0 <= l < |s| && s[k] == '@' && s[l] == '@' ==> k == l
    ensures Trim(s) == s
  {
    var i, j :| SplitsAt(s, i, j);
    forall k | 0 <= k < |s| && k != i
      ensures IsAtomChar(s[k])
    {
      if k < i {
        assert s[k] == s[..i][k];
      } else if k < j {
        assert s[k] == s[i + 1..j][k - i - 1];
      } else if k > j {
        assert s[k] == s[j + 1..][k - j - 1];
      }
    }
  }

  /** Addresses the pattern accepts, including one whose domain has two dots. */
  lemma AcceptedExamples()
    ensures MatchesEmailRegex("ann@mail.com")
    ensures MatchesEmailRegex("a@b.c.d")
  {
    assert "ann@mail.com"[..3] == "ann" && "ann@mail.com"[4..8] == "mail" && "ann@mail.com"[9..] == "com";
    assert SplitsAt("ann@mail.com", 3, 8);
    assert "a@b.c.d"[..1] == "a" && "a@b.c.d"[2..3] == "b" && "a@b.c.d"[4..] == "c.d";
    assert SplitsAt("a@b.c.d", 1, 3);
  }

  /** Addresses the pattern rejects: two `@`, a leading space, no dot after the `@`. */
  lemma RejectedExamples()
    ensures !MatchesEmailRegex("a@b@c.d")
    ensures !MatchesEmailRegex(" ann@mail.com")
    ensures !MatchesEmailRegex("ann@mail")
  {
    if MatchesEmailRegex("a@b@c.d") {
      assert "a@b@c.d"[1] == '@' && "a@b@c.d"[3] == '@';
      MatchShape("a@b@c.d");
    }
    if MatchesEmailRegex(" ann@mail.com") {
      MatchShape(" ann@mail.com");
    }
  }
}
