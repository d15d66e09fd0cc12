/**
 * The string primitives the DOM engine borrows from its host language:
 * lower-casing, substring search, whitespace trimming and indentation.
 */
module Text {

  /** Lower-cases one character; only the ASCII letters A-Z are mapped. */
  function LowerChar(c: char): char
  {
    if 'A' <= c <= 'Z' then (c as int - 'A' as int + 'a' as int) as char else c
  }

  /** Character-wise lower-casing of a string (ASCII model of `toLowerCase`). */
  function Lower(s: string): string
  {
    seq(|s|, i requires 0 <= i < |s| => LowerChar(s[i]))
  }

  /** `t` occurs in `s` starting at index `i`. */
  predicate OccursAt(s: string, t: string, i: nat)
  {
    i + |t| <= |s| && s[i..i + |t|] == t
  }

  /** Substring containment (`s.includes(t)`); the empty string occurs in every string. */
  predicate Contains(s: string, t: string)
  {
    exists i :: 0 <= i <= |s| - |t| && OccursAt(s, t, i)
  }

  /** `t` is a suffix of `s`. */
  predicate EndsWith(s: string, t: string)
  {
    |t| <= |s| && s[|s| - |t|..] == t
  }

  /** A prefix of `a` is a prefix of `a + b`. */
  lemma PrefixOfConcat(p: string, a: string, b: string)
    requires p <= a
    ensures p <= a + b
  {
    assert (a + b)[..|p|] == a[..|p|];
  }

  /** A suffix of `b` is a suffix of `a + b`. */
  lemma SuffixOfConcat(a: string, b: string, t: string)
    requires EndsWith(b, t)
    ensures EndsWith(a + b, t)
  {
    assert (a + b)[|a + b| - |t|..] == b[|b| - |t|..];
  }

  /** Containment is transitive. */
  lemma ContainsTransitive(s: string, t: string, u: string)
    requires Contains(s, t) && Contains(t, u)
    ensures Contains(s, u)
  {
    var i :| 0 <= i <= |s| - |t| && OccursAt(s, t, i);
    var j :| 0 <= j <= |t| - |u| && OccursAt(t, u, j);
    forall k | 0 <= k < |u|
      ensures s[i + j + k] == u[k]
    {
      assert t[j..j + |u|][k] == u[k];
      assert s[i..i + |t|][j + k] == t[j + k];
    }
    assert s[i + j..i + j + |u|] == u;
    assert OccursAt(s, u, i + j);
  }

  /** What `s` contains, `s + b` and `a + s` contain too. */
  lemma ContainsInConcat(a: string, s: string, b: string, t: string)
    requires Contains(s, t)
    ensures Contains(s + b, t) && Contains(a + s, t)
  {
    var i :| 0 <= i <= |s| - |t| && OccursAt(s, t, i);
    assert (s + b)[i..i + |t|] == s[i..i + |t|];
    assert OccursAt(s + b, t, i);
    assert (a + s)[|a| + i..|a| + i + |t|] == s[i..i + |t|];
    assert OccursAt(a + s, t, |a| + i);
  }

  /** A string lacking the first character of `t` does not contain `t`. */
  lemma MissingCharNotContained(s: string, t: string)
    requires |t| > 0 && t[0] !in s
    ensures !Contains(s, t)
  {
    forall i | 0 <= i <= |s| - |t|
      ensures !OccursAt(s, t, i)
    {
      assert s[i] in s;
      assert s[i..i + |t|][0] == s[i];
    }
  }

  /** Lower-casing keeps containment. */
  lemma ContainsLower(s: string, t: string)
    requires Contains(s, t)
    ensures Contains(Lower(s), Lower(t))
  {
    var i :| 0 <= i <= |s| - |t| && OccursAt(s, t, i);
    assert Lower(s)[i..i + |t|] == Lower(s[i..i + |t|]);
    assert OccursAt(Lower(s), Lower(t), i);
  }

  /**
   * The characters removed by `trim`: the white-space and line-terminator
   * code points of the ECMAScript standard (section 12.2 and 12.3 of ECMA-262).
   */
  predicate IsWhiteSpace(c: char)
  {
    c == ' ' || c == '\t' || c == '\n' || c == '\r' || c == '\U{0B}' || c == '\U{0C}'
    || c == '\U{A0}' || c == '\U{FEFF}' || c == '\U{1680}' || ('\U{2000}' <= c <= '\U{200A}')
    || c == '\U{2028}' || c == '\U{2029}' || c == '\U{202F}' || c == '\U{205F}' || c == '\U{3000}'
  }

  /** Length of the longest all-white-space prefix of `s`. */
  function LeadingWhiteSpace(s: string): (n: nat)
    ensures n <= |s|
  {
    if s != [] && IsWhiteSpace(s[0]) then 1 + LeadingWhiteSpace(s[1..]) else 0
  }

  /** Length of the longest all-white-space suffix of `s`. */
  function TrailingWhiteSpace(s: string): (n: nat)
    ensures n <= |s|
  {
    if s != [] && IsWhiteSpace(s[|s| - 1]) then 1 + TrailingWhiteSpace(s[..|s| - 1]) else 0
  }

  /** The prefix `LeadingWhiteSpace` measures is all white space and cannot be extended. */
  lemma {:induction false} LeadingWhiteSpaceIsLongest(s: string)
    ensures forall k :: 0 <= k < LeadingWhiteSpace(s) ==> IsWhiteSpace(s[k])
    ensures LeadingWhiteSpace(s) < |s| ==> !IsWhiteSpace(s[LeadingWhiteSpace(s)])
  {
    if s != [] && IsWhiteSpace(s[0]) {
      LeadingWhiteSpaceIsLongest(s[1..]);
    }
  }

  /** The suffix `TrailingWhiteSpace` measures is all white space and cannot be extended. */
  lemma {:induction false} TrailingWhiteSpaceIsLongest(s: string)
    ensures forall k :: |s| - TrailingWhiteSpace(s) <= k < |s| ==> IsWhiteSpace(s[k])
    ensures TrailingWhiteSpace(s) < |s| ==> !IsWhiteSpace(s[|s| - 1 - TrailingWhiteSpace(s)])
  {
    if s != [] && IsWhiteSpace(s[|s| - 1]) {
      TrailingWhiteSpaceIsLongest(s[..|s| - 1]);
    }
  }

  /** `s.trim()`: `s` without its leading white space, then without its trailing white space. */
  function Trim(s: string): string
  {
    var rest := s[LeadingWhiteSpace(s)..];
    rest[..|rest| - TrailingWhiteSpace(rest)]
  }

  /**
   * The trimmed string is empty exactly when `s` is all white space; otherwise
   * it starts and ends with a non-white-space character, it is a slice of `s`,
   * and everything cut off on either side is white space.
   */
  lemma TrimSpec(s: string)
    ensures Trim(s) == [] <==> forall k :: 0 <= k < |s| ==> IsWhiteSpace(s[k])
    ensures Trim(s) != [] ==> !IsWhiteSpace(Trim(s)[0]) && !IsWhiteSpace(Trim(s)[|Trim(s)| - 1])
    ensures exists i :: 0 <= i <= |s| - |Trim(s)| && OccursAt(s, Trim(s), i)
                          && (forall k :: 0 <= k < i ==> IsWhiteSpace(s[k]))
                          && (forall k :: i + |Trim(s)| <= k < |s| ==> IsWhiteSpace(s[k]))
  {
    var a := LeadingWhiteSpace(s);
    var rest := s[a..];
    LeadingWhiteSpaceIsLongest(s);
    TrailingWhiteSpaceIsLongest(rest);
    assert OccursAt(s, Trim(s), a);
  }

  /** `"  ".repeat(depth)`: two spaces per level. */
  function Indent(depth: nat): (r: string)
    ensures |r| == 2 * depth
  {
    if depth == 0 then "" else "  " + Indent(depth - 1)
  }

  /** The indentation is made of spaces only. */
  lemma {:induction false} IndentIsSpaces(depth: nat)
    ensures forall k :: 0 <= k < |Indent(depth)| ==> Indent(depth)[k] == ' '
  {
    if depth > 0 {
      IndentIsSpaces(depth - 1);
    }
  }
}
