/** String operations the resume search and ordering rely on: JavaScript's
    `String.prototype.trim`, lower-casing, case-insensitive substring search
    and the order of titles. */
module Text {

  /** The characters `trim` strips: ECMAScript WhiteSpace and LineTerminator. */
  predicate IsJsSpace(c: char) {
    || c == ' ' || c == '\t' || c == '\n' || c == '\r'
    || c == '\U{B}' || c == '\U{C}' || c == '\U{A0}' || c == '\U{1680}'
    || ('\U{2000}' <= c <= '\U{200A}')
    || c == '\U{2028}' || c == '\U{2029}' || c == '\U{202F}' || c == '\U{205F}'
    || c == '\U{3000}' || c == '\U{FEFF}'
  }

  predicate AllSpace(s: string) {
    forall i :: 0 <= i < |s| ==> IsJsSpace(s[i])
  }

  /** Strips leading white space: the result is the suffix that starts at the first non-space. */
  function TrimStart(s: string): (r: string)
    ensures |r| <= |s| && r == s[|s| - |r|..]
    ensures AllSpace(s[..|s| - |r|])
    ensures r == [] || !IsJsSpace(r[0])
  {
    if |s| > 0 && IsJsSpace(s[0]) then
      var rest := s[1..];
      var r := TrimStart(rest);
      assert s[|s| - |r|..] == rest[|rest| - |r|..];
      assert s[..|s| - |r|] == [s[0]] + rest[..|rest| - |r|];
      r
    else s
  }

  /** Strips trailing white space: the result is the prefix that ends at the last non-space. */
  function TrimEnd(s: string): (r: string)
    ensures |r| <= |s| && r == s[..|r|]
    ensures AllSpace(s[|r|..])
    ensures r == [] || !IsJsSpace(r[|r| - 1])
  {
    if |s| > 0 && IsJsSpace(s[|s| - 1]) then
      var init := s[..|s| - 1];
      var r := TrimEnd(init);
      assert s[..|r|] == init[..|r|];
      assert s[|r|..] == init[|r|..] + [s[|s| - 1]];
      r
    else s
  }

  /** `r` is what is left of `s` after a run of white space of length `a` in front and another
      at the back. */
  predicate TrimmedAt(s: string, r: string, a: int) {
    && 0 <= a && a + |r| <= |s|
    && r == s[a..a + |r|]
    && AllSpace(s[..a]) && AllSpace(s[a + |r|..])
  }

  /** `trim`: strips white space at both ends. The result is the middle of the text between a leading
      and a trailing run of white space; it is empty exactly when the text is all white space, and
      otherwise neither starts nor ends with white space. */
  function Trim(s: string): (r: string)
    ensures |r| <= |s|
    ensures exists a :: TrimmedAt(s, r, a)
    ensures r == [] <==> AllSpace(s)
    ensures r == [] || (!IsJsSpace(r[0]) && !IsJsSpace(r[|r| - 1]))
  {
    var t := TrimStart(s);
    var r := TrimEnd(t);
    MiddleSlice(s, |s| - |t|, t, r);
    assert TrimmedAt(s, r, |s| - |t|);
    TrimBlankIff(s, t);
    TrimKeepsStart(t);
    r
  }

  lemma MiddleSlice(s: string, a: nat, t: string, r: string)
    requires a <= |s| && t == s[a..]
    requires |r| <= |t| && r == t[..|r|] && AllSpace(t[|r|..])
    ensures a + |r| <= |s| && r == s[a..a + |r|] && AllSpace(s[a + |r|..])
  {
    assert s[a + |r|..] == t[|r|..];
  }

  lemma TrimBlankIff(s: string, t: string)
    requires t == TrimStart(s)
    ensures TrimEnd(t) == [] <==> AllSpace(s)
  {
    if TrimEnd(t) == [] {
      assert s == s[..|s| - |t|] + t;
      assert AllSpace(t[0..]);
    } else {
      assert !IsJsSpace(t[0]);
      assert s[|s| - |t|] == t[0];
    }
  }

  lemma TrimKeepsStart(t: string)
    ensures TrimEnd(t) == [] || TrimEnd(t)[0] == t[0]
  {
    var r := TrimEnd(t);
    if r != [] {
      assert r == t[..|r|];
    }
  }

  /** `toLowerCase` restricted to the ASCII letters. */
  function LowerChar(c: char): char {
    if 'A' <= c <= 'Z' then (c as int + 32) as char else c
  }

  function Lower(s: string): (r: string)
    ensures |r| == |s|
    ensures forall i :: 0 <= i < |s| ==> r[i] == LowerChar(s[i])
  {
    seq(|s|, i requires 0 <= i < |s| => LowerChar(s[i]))
  }

  /** Lower-casing twice changes nothing more, so lower-casing the search text before an
      insensitive match does not change what matches. */
  lemma LowerIdempotent(s: string)
    ensures Lower(Lower(s)) == Lower(s)
  {
  }

  predicate IsInfixAt(s: string, t: string, i: int) {
    0 <= i && i + |t| <= |s| && s[i..i + |t|] == t
  }

  /** Substring test: `t` occurs somewhere in `s`. */
  function HasInfix(s: string, t: string): (b: bool)
    ensures b <==> exists i :: IsInfixAt(s, t, i)
    decreases |s|
  {
    if |t| > |s| then
      false
    else if |t| == |s| then
      SameLengthInfix(s, t);
      s == t
    else if s[..|t|] == t then
      assert IsInfixAt(s, t, 0);
      true
    else
      InfixInTail(s, t);
      HasInfix(s[1..], t)
  }

  /** Between strings of equal length, occurring is being equal. */
  lemma SameLengthInfix(s: string, t: string)
    requires |s| == |t|
    ensures (exists i :: IsInfixAt(s, t, i)) <==> s == t
  {
    if s == t {
      assert IsInfixAt(s, t, 0);
    }
    forall i | IsInfixAt(s, t, i) ensures s == t {
      assert s[i..i + |t|] == s;
    }
  }

  /** When `t` does not start `s`, it occurs in `s` exactly when it occurs in `s` without its first character. */
  lemma InfixInTail(s: string, t: string)
    requires |t| < |s| && s[..|t|] != t
    ensures (exists i :: IsInfixAt(s, t, i)) <==> (exists i :: IsInfixAt(s[1..], t, i))
  {
    forall k | IsInfixAt(s[1..], t, k) ensures IsInfixAt(s, t, k + 1) {
      assert s[k + 1..k + 1 + |t|] == s[1..][k..k + |t|];
    }
    forall k | IsInfixAt(s, t, k) ensures IsInfixAt(s[1..], t, k - 1) {
      assert s[1..][k - 1..k - 1 + |t|] == s[k..k + |t|];
    }
  }

  /** Prisma's `contains` with `mode: 'insensitive'`: both sides compared lower-cased. */
  predicate ContainsInsensitive(haystack: string, needle: string) {
    HasInfix(Lower(haystack), Lower(needle))
  }

  /** Code-point lexicographic order on strings (the order titles sort by). */
  predicate LexLe(a: string, b: string) {
    if |a| == 0 then true
    else if |b| == 0 then false
    else if a[0] != b[0] then a[0] < b[0]
    else LexLe(a[1..], b[1..])
  }

  lemma {:induction false} LexLeTotal(a: string, b: string)
    ensures LexLe(a, b) || LexLe(b, a)
  {
    if |a| > 0 && |b| > 0 && a[0] == b[0] {
      LexLeTotal(a[1..], b[1..]);
    }
  }

  lemma {:induction false} LexLeTransitive(a: string, b: string, c: string)
    requires LexLe(a, b) && LexLe(b, c)
    ensures LexLe(a, c)
  {
    if |a| > 0 && |b| > 0 && |c| > 0 && a[0] == b[0] && b[0] == c[0] {
      LexLeTransitive(a[1..], b[1..], c[1..]);
    }
  }
}
