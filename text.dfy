/**
 * Character classes and string helpers shared by the query layer and the
 * client-side classifier: JavaScript's white space, ASCII case folding (the
 * folding both SQLite's LIKE and a non-unicode `/i` regular expression use for
 * the ASCII keywords of this system), substring search, `trim`, and SQL LIKE.
 */
module Text {

  /** JavaScript `\s` and the set `String.prototype.trim` strips: WhiteSpace and LineTerminator code points. */
  predicate IsSpace(c: char) {
    var n := c as int;
    n == 0x09 || n == 0x0A || n == 0x0B || n == 0x0C || n == 0x0D || n == 0x20 || n == 0xA0 ||
    n == 0x1680 || (0x2000 <= n <= 0x200A) || n == 0x2028 || n == 0x2029 || n == 0x202F ||
    n == 0x205F || n == 0x3000 || n == 0xFEFF
  }

  /** The characters a regular expression's `.` does not match. */
  predicate IsLineTerminator(c: char) {
    c == '\n' || c == '\r' || c as int == 0x2028 || c as int == 0x2029
  }

  /** Characters of `\w` in a non-unicode regular expression; `\b` sits between a word and a non-word character. */
  predicate IsWordChar(c: char) {
    ('a' <= c <= 'z') || ('A' <= c <= 'Z') || ('0' <= c <= '9') || c == '_'
  }

  /** ASCII lower-casing; every other character is left as it is. */
  function LowerChar(c: char): (r: char)
    ensures IsSpace(r) <==> IsSpace(c)
    ensures IsWordChar(r) <==> IsWordChar(c)
    ensures !('A' <= r <= 'Z')
  {
    if 'A' <= c <= 'Z' then (c as int + 32) as char else c
  }

  function Lower(s: string): (r: string)
    ensures |r| == |s|
  {
    seq(|s|, i requires 0 <= i < |s| => LowerChar(s[i]))
  }

  /** `w` occurs in `s` at index `i`, letters compared without regard to ASCII case. */
  predicate MatchesAt(s: string, w: string, i: nat) {
    i + |w| <= |s| && forall j :: 0 <= j < |w| ==> LowerChar(s[i + j]) == LowerChar(w[j])
  }

  /** `w` occurs in `s` at index `i`, character for character. */
  predicate OccursAt(s: string, w: string, i: nat) {
    i + |w| <= |s| && s[i..i + |w|] == w
  }

  /** JavaScript `s.includes(w)`. */
  predicate Contains(s: string, w: string) {
    exists i :: 0 <= i <= |s| - |w| && OccursAt(s, w, i)
  }

  /** Case-insensitive (ASCII) substring search. */
  predicate ContainsFolded(s: string, w: string) {
    exists i :: 0 <= i <= |s| - |w| && MatchesAt(s, w, i)
  }

  /** A keyword made of lower-case ASCII letters and spaces occurs in the lower-cased text exactly where it matches case-insensitively. */
  lemma LowerOccursIffMatches(s: string, w: string, i: nat)
    requires forall j :: 0 <= j < |w| ==> LowerChar(w[j]) == w[j]
    ensures OccursAt(Lower(s), w, i) <==> MatchesAt(s, w, i)
  {
    if i + |w| <= |s| {
      if OccursAt(Lower(s), w, i) {
        forall j | 0 <= j < |w| ensures LowerChar(s[i + j]) == LowerChar(w[j]) {
          assert Lower(s)[i..i + |w|][j] == Lower(s)[i + j];
        }
      }
      if MatchesAt(s, w, i) {
        assert Lower(s)[i..i + |w|] == w;
      }
    }
  }

  lemma {:induction false} ContainsLowerIffFolded(s: string, w: string)
    requires forall j :: 0 <= j < |w| ==> LowerChar(w[j]) == w[j]
    ensures Contains(Lower(s), w) <==> ContainsFolded(s, w)
  {
    if Contains(Lower(s), w) {
      var i :| 0 <= i <= |Lower(s)| - |w| && OccursAt(Lower(s), w, i);
      LowerOccursIffMatches(s, w, i);
    }
    if ContainsFolded(s, w) {
      var i :| 0 <= i <= |s| - |w| && MatchesAt(s, w, i);
      LowerOccursIffMatches(s, w, i);
    }
  }

  /** The first index from `i` on that does not hold white space, or the end of the text. */
  function SpanStart(s: string, i: nat): (a: nat)
    requires i <= |s|
    ensures i <= a <= |s| && (a == |s| || !IsSpace(s[a]))
    ensures forall j :: i <= j < a ==> IsSpace(s[j])
    decreases |s| - i
  {
    if i < |s| && IsSpace(s[i]) then SpanStart(s, i + 1) else i
  }

  /** Going back from `j` no further than `a`, the end of the last character that is not white space. */
  function SpanEnd(s: string, a: nat, j: nat): (b: nat)
    requires a <= j <= |s|
    ensures a <= b <= j && (b == a || !IsSpace(s[b - 1]))
    ensures forall k :: b <= k < j ==> IsSpace(s[k])
    decreases j
  {
    if a < j && IsSpace(s[j - 1]) then SpanEnd(s, a, j - 1) else j
  }

  /** `r` is a contiguous run of the characters of `s`, in their original case. */
  predicate IsSliceOf(r: string, s: string) {
    exists a :: 0 <= a <= |s| - |r| && OccursAt(s, r, a)
  }

  /**
   * `r` is `s` with a white space prefix and a white space suffix cut off,
   * and nothing more: `r` neither starts nor ends with white space.
   */
  ghost predicate IsTrimOf(r: string, s: string) {
    (r == [] || (!IsSpace(r[0]) && !IsSpace(r[|r| - 1]))) &&
    exists a, b :: 0 <= a <= b <= |s| && r == s[a..b] &&
      (forall i :: 0 <= i < a ==> IsSpace(s[i])) && (forall i :: b <= i < |s| ==> IsSpace(s[i]))
  }

  /** JavaScript `s.trim()`: the leading and the trailing white space removed. */
  function Trim(s: string): (r: string)
    ensures IsTrimOf(r, s)
    ensures IsSliceOf(r, s)
    ensures r == [] || (!IsSpace(r[0]) && !IsSpace(r[|r| - 1]))
  {
    var a := SpanStart(s, 0);
    var b := SpanEnd(s, a, |s|);
    assert OccursAt(s, s[a..b], a);
    s[a..b]
  }

  /** Exactly one string is the trim of a text, so `IsTrimOf` pins down what `Trim` returns. */
  lemma TrimUnique(r1: string, r2: string, s: string)
    requires IsTrimOf(r1, s) && IsTrimOf(r2, s)
    ensures r1 == r2
  {
    TrimIsOnlyTrim(r1, s);
    TrimIsOnlyTrim(r2, s);
  }

  lemma TrimIsOnlyTrim(r: string, s: string)
    requires IsTrimOf(r, s)
    ensures r == Trim(s)
  {
    var a, b :| 0 <= a <= b <= |s| && r == s[a..b] &&
      (forall i :: 0 <= i < a ==> IsSpace(s[i])) && (forall i :: b <= i < |s| ==> IsSpace(s[i]));
    if r == [] {
      TrimEmptyIff(s);
    } else {
      assert r[0] == s[a] && r[|r| - 1] == s[b - 1];
      SpanBounds(s, a, b);
    }
  }

  /** Around a run that starts and ends with non-white space and has only white space outside, the spans are that run. */
  lemma SpanBounds(s: string, a: nat, b: nat)
    requires a < b <= |s| && !IsSpace(s[a]) && !IsSpace(s[b - 1])
    requires forall i :: 0 <= i < a ==> IsSpace(s[i])
    requires forall i :: b <= i < |s| ==> IsSpace(s[i])
    ensures SpanStart(s, 0) == a && SpanEnd(s, a, |s|) == b
  {
  }

  /** Trimming yields the empty string exactly when the text is all white space. */
  lemma TrimEmptyIff(s: string)
    ensures Trim(s) == [] <==> forall i :: 0 <= i < |s| ==> IsSpace(s[i])
  {
    var a := SpanStart(s, 0);
    var b := SpanEnd(s, a, |s|);
    assert |Trim(s)| == b - a;
  }

  /** Text with no white space at either end is its own trim. */
  lemma TrimOfTrimmed(s: string)
    requires s == [] || (!IsSpace(s[0]) && !IsSpace(s[|s| - 1]))
    ensures Trim(s) == s
  {
    if s != [] {
      assert SpanStart(s, 0) == 0;
      assert SpanEnd(s, 0, |s|) == |s|;
      assert s[0..|s|] == s;
    }
  }

  /** A character SQL LIKE treats as a wildcard: `%` (any run) or `_` (any one character). */
  predicate IsLikeWildcard(c: char) {
    c == '%' || c == '_'
  }

  /** SQLite's `s LIKE p` without an ESCAPE clause: `%` and `_` are wildcards, ASCII letters compare without case. */
  predicate Like(s: string, p: string)
    decreases |s| + |p|
  {
    if p == [] then s == []
    else if p[0] == '%' then Like(s, p[1..]) || (s != [] && Like(s[1..], p))
    else if p[0] == '_' then s != [] && Like(s[1..], p[1..])
    else s != [] && LowerChar(s[0]) == LowerChar(p[0]) && Like(s[1..], p[1..])
  }

  lemma {:induction false} LikeAnyRun(s: string)
    ensures Like(s, "%")
  {
    if s != [] {
      LikeAnyRun(s[1..]);
    }
  }

  /** A wildcard-free `c` followed by `%` matches exactly the strings that start with `c` (ignoring ASCII case). */
  lemma {:induction false} LikePrefix(s: string, c: string)
    requires forall j :: 0 <= j < |c| ==> !IsLikeWildcard(c[j])
    ensures Like(s, c + "%") <==> MatchesAt(s, c, 0)
  {
    if c == [] {
      assert c + "%" == "%";
      LikeAnyRun(s);
    } else {
      assert (c + "%")[0] == c[0] && (c + "%")[1..] == c[1..] + "%";
      if s != [] {
        LikePrefix(s[1..], c[1..]);
        if MatchesAt(s[1..], c[1..], 0) && LowerChar(s[0]) == LowerChar(c[0]) {
          forall j | 0 <= j < |c| ensures LowerChar(s[j]) == LowerChar(c[j]) {
            if j > 0 {
              assert s[1..][j - 1] == s[j] && c[1..][j - 1] == c[j];
            }
          }
        }
        if MatchesAt(s, c, 0) {
          forall j | 0 <= j < |c| - 1 ensures LowerChar(s[1..][j]) == LowerChar(c[1..][j]) {
            assert s[1..][j] == s[j + 1] && c[1..][j] == c[j + 1];
          }
        }
      }
    }
  }

  /** A leading `%` lets the rest of the pattern match any suffix. */
  lemma {:induction false} LikeLeadingRun(s: string, q: string)
    ensures Like(s, "%" + q) <==> exists i :: 0 <= i <= |s| && Like(s[i..], q)
  {
    var p := "%" + q;
    assert p[0] == '%' && p[1..] == q;
    assert s[0..] == s;
    if s != [] {
      LikeLeadingRun(s[1..], q);
      if exists i :: 0 <= i <= |s| && Like(s[i..], q) {
        var i :| 0 <= i <= |s| && Like(s[i..], q);
        if i > 0 {
          assert s[1..][i - 1..] == s[i..];
        }
      }
      if exists i :: 0 <= i <= |s[1..]| && Like(s[1..][i..], q) {
        var i :| 0 <= i <= |s[1..]| && Like(s[1..][i..], q);
        assert s[1..][i..] == s[i + 1..];
      }
    }
  }

  /** The pattern `%c%` of a wildcard-free `c` is a case-insensitive substring test. */
  lemma LikeContainsFolded(s: string, c: string)
    requires forall j :: 0 <= j < |c| ==> !IsLikeWildcard(c[j])
    ensures Like(s, "%" + c + "%") <==> ContainsFolded(s, c)
  {
    assert "%" + c + "%" == "%" + (c + "%");
    LikeLeadingRun(s, c + "%");
    if ContainsFolded(s, c) {
      var i :| 0 <= i <= |s| - |c| && MatchesAt(s, c, i);
      LikePrefix(s[i..], c);
      assert MatchesAt(s[i..], c, 0) by {
        forall j | 0 <= j < |c| ensures LowerChar(s[i..][j]) == LowerChar(c[j]) {
          assert s[i..][j] == s[i + j];
        }
      }
    }
    if exists i :: 0 <= i <= |s| && Like(s[i..], c + "%") {
      var i :| 0 <= i <= |s| && Like(s[i..], c + "%");
      LikePrefix(s[i..], c);
      assert MatchesAt(s, c, i) by {
        forall j | 0 <= j < |c| ensures LowerChar(s[i + j]) == LowerChar(c[j]) {
          assert s[i..][j] == s[i + j];
        }
      }
    }
  }
}
