/**
 * The few `String.prototype` operations the forms rely on: `trim`, `includes`
 * and `indexOf`. Strings are sequences of Unicode scalar values; JavaScript's
 * UTF-16 `length` is not modelled (see README).
 */
module Strings {

  /**
   * The characters ECMAScript counts as WhiteSpace or LineTerminator: the set
   * `String.prototype.trim` removes and the regular-expression class `\s` matches.
   */
  predicate IsWhitespace(c: char) {
    || c == '\t' || c == '\n' || c == '\U{000B}' || c == '\U{000C}' || c == '\r'
    || c == ' ' || c == '\U{00A0}' || c == '\U{1680}'
    || ('\U{2000}' <= c <= '\U{200A}')
    || c == '\U{2028}' || c == '\U{2029}' || c == '\U{202F}' || c == '\U{205F}'
    || c == '\U{3000}' || c == '\U{FEFF}'
  }

  predicate AllWhitespace(s: string) {
    forall i :: 0 <= i < |s| ==> IsWhitespace(s[i])
  }

  predicate NoWhitespace(s: string) {
    forall i :: 0 <= i < |s| ==> !IsWhitespace(s[i])
  }

  /** Removes the longest all-whitespace prefix. */
  function TrimStart(s: string): (r: string)
    ensures |r| <= |s| && r == s[|s| - |r|..]
    ensures forall i :: 0 <= i < |s| - |r| ==> IsWhitespace(s[i])
    ensures r == [] || !IsWhitespace(r[0])
  {
    if |s| > 0 && IsWhitespace(s[0]) then TrimStart(s[1..]) else s
  }

  /** Removes the longest all-whitespace suffix. */
  function TrimEnd(s: string): (r: string)
    ensures |r| <= |s| && r == s[..|r|]
    ensures forall i :: |r| <= i < |s| ==> IsWhitespace(s[i])
    ensures r == [] || !IsWhitespace(r[|r| - 1])
  {
    if |s| > 0 && IsWhitespace(s[|s| - 1]) then TrimEnd(s[..|s| - 1]) else s
  }

  /** Nothing is left of `s` after trimming its start exactly when it is all whitespace; nothing is removed when it has none. */
  lemma TrimStartCases(s: string)
    ensures TrimStart(s) == [] <==> AllWhitespace(s)
    ensures NoWhitespace(s) ==> TrimStart(s) == s
  {
    var t := TrimStart(s);
    if t != [] {
      assert t[0] == s[|s| - |t|];
    }
    if |s| > 0 {
      assert s[0] in s;
    }
  }

  /** The same for the end. */
  lemma TrimEndCases(s: string)
    ensures TrimEnd(s) == [] <==> AllWhitespace(s)
    ensures NoWhitespace(s) ==> TrimEnd(s) == s
  {
    var t := TrimEnd(s);
    if t != [] {
      assert t[|t| - 1] == s[|t| - 1];
    }
  }

  /** `s.trim()`: `s` with a white-space prefix and a white-space suffix removed, the middle kept. */
  function Trim(s: string): (r: string)
    ensures exists a, b :: 0 <= a <= b <= |s| && r == s[a..b] && AllWhitespace(s[..a]) && AllWhitespace(s[b..])
    ensures r == [] <==> AllWhitespace(s)
    ensures r != [] ==> !IsWhitespace(r[0]) && !IsWhitespace(r[|r| - 1])
    ensures NoWhitespace(s) ==> r == s
  {
    var t := TrimStart(s);
    TrimStartCases(s);
    TrimEndCases(t);
    assert AllWhitespace(t) ==> t == [];
    var r := TrimEnd(t);
    assert r != [] ==> r[0] == t[0];
    assert NoWhitespace(s) ==> r == s by {
      if NoWhitespace(s) {
        assert t == s;
      }
    }
    TrimSlices(s, t, r);
    r
  }

  /**
   * The slice `Trim` keeps: `t` is `s` less a white-space prefix, and `r` is
   * `t` less a white-space suffix.
   */
  lemma TrimSlices(s: string, t: string, r: string)
    requires |t| <= |s| && t == s[|s| - |t|..] && forall i :: 0 <= i < |s| - |t| ==> IsWhitespace(s[i])
    requires |r| <= |t| && r == t[..|r|] && forall i :: |r| <= i < |t| ==> IsWhitespace(t[i])
    ensures exists a, b :: 0 <= a <= b <= |s| && r == s[a..b] && AllWhitespace(s[..a]) && AllWhitespace(s[b..])
  {
    var a := |s| - |t|;
    var b := a + |r|;
    assert r == s[a..b] by {
      assert forall i :: 0 <= i < |r| ==> r[i] == t[i] == s[a + i];
    }
    WhitespacePrefix(s, a);
    assert forall i :: b <= i < |s| ==> IsWhitespace(s[i]) by {
      forall i | b <= i < |s| ensures IsWhitespace(s[i]) {
        assert t[i - a] == s[i];
        assert |r| <= i - a < |t|;
      }
    }
    WhitespaceSuffix(s, b);
  }

  lemma WhitespacePrefix(s: string, a: int)
    requires 0 <= a <= |s| && forall i :: 0 <= i < a ==> IsWhitespace(s[i])
    ensures AllWhitespace(s[..a])
  {
    assert forall i :: 0 <= i < a ==> s[..a][i] == s[i];
  }

  lemma WhitespaceSuffix(s: string, b: int)
    requires 0 <= b <= |s| && forall i :: b <= i < |s| ==> IsWhitespace(s[i])
    ensures AllWhitespace(s[b..])
  {
    assert forall i :: 0 <= i < |s| - b ==> s[b..][i] == s[b + i];
  }

  /** JavaScript's `!s.trim()`: the string is empty once trimmed. */
  predicate IsBlank(s: string) {
    Trim(s) == []
  }

  /** Trimming twice is trimming once. */
  lemma TrimIdempotent(s: string)
    ensures Trim(Trim(s)) == Trim(s)
  {
    var r := Trim(s);
    if r != [] {
      assert TrimStart(r) == r;
      assert TrimEnd(r) == r;
    }
  }

  /** `sub` occurs in `s` starting at index `i`. */
  predicate OccursAt(s: string, sub: string, i: int) {
    0 <= i && i + |sub| <= |s| && s[i..i + |sub|] == sub
  }

  /** `s.includes(sub)` */
  function Includes(s: string, sub: string): (r: bool)
    ensures r <==> exists i :: OccursAt(s, sub, i)
    decreases |s|
  {
    if |sub| > |s| then false
    else if s[..|sub|] == sub then (assert OccursAt(s, sub, 0); true)
    else
      var r := Includes(s[1..], sub);
      assert forall i :: OccursAt(s[1..], sub, i) <==> OccursAt(s, sub, i + 1);
      assert forall i :: OccursAt(s, sub, i) ==> i >= 1 && OccursAt(s[1..], sub, i - 1);
      r
  }

  /** `s.indexOf(c)`, with `|s|` in place of JavaScript's -1 when `c` does not occur. */
  function IndexOf(s: string, c: char): (i: nat)
    ensures i <= |s|
    ensures forall k :: 0 <= k < i ==> s[k] != c
    ensures i < |s| ==> s[i] == c
  {
    if |s| == 0 || s[0] == c then 0 else 1 + IndexOf(s[1..], c)
  }
}
