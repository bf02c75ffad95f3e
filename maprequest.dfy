/**
 * The chat screen's map-request classifier (`detectMapRequest` in
 * frontend/yourfoodie/screen/ChatScreen.js) and the decision `handleSend`
 * takes with it.
 *
 * The three regular expressions are stated as the positions a backtracking
 * matcher settles on. None of them has the `m` flag, so `$` is the end of the
 * text; `.` is any character but a line terminator; `\s` is `IsSpace`; the
 * `/i` flag folds ASCII case only, since every letter in the patterns is
 * ASCII.
 */
module MapRequest {
  import opened Options
  import opened Text

  /** The words whose presence (in the lower-cased text) makes a message a map request. */
  const MapKeywords: seq<string> := ["map", "show me", "location", "where is", "navigate", "directions"]

  /** `mapKeywords.some(keyword => lowerText.includes(keyword))`, from keyword `k` on. */
  function SomeKeyword(lowerText: string, k: nat): (r: bool)
    requires k <= |MapKeywords|
    ensures r <==> exists j :: k <= j < |MapKeywords| && Contains(lowerText, MapKeywords[j])
    decreases |MapKeywords| - k
  {
    if k == |MapKeywords| then false
    else Contains(lowerText, MapKeywords[k]) || SomeKeyword(lowerText, k + 1)
  }

  predicate HasMapKeyword(text: string) {
    SomeKeyword(Lower(text), 0)
  }

  // ---------------------------------------------------------------------
  // Positions in the text
  // ---------------------------------------------------------------------

  /** The length of the run of white space starting at `p`. */
  function WsRun(t: string, p: nat): (n: nat)
    ensures p + n <= |t| || n == 0
    ensures forall j :: p <= j < p + n ==> IsSpace(t[j])
    ensures p + n < |t| ==> !IsSpace(t[p + n])
    decreases |t| - p
  {
    if p < |t| && IsSpace(t[p]) then 1 + WsRun(t, p + 1) else 0
  }

  /** The first index from `j` on that holds white space, or the end of the text. */
  function WordEnd(t: string, j: nat): (e: nat)
    requires j <= |t|
    ensures j <= e <= |t| && (e == |t| || IsSpace(t[e]))
    ensures forall x :: j <= x < e ==> !IsSpace(t[x])
    decreases |t| - j
  {
    if j == |t| || IsSpace(t[j]) then j else WordEnd(t, j + 1)
  }

  /** The first index from `j` on that holds a line terminator, or the end of the text. */
  function LineEnd(t: string, j: nat): (e: nat)
    requires j <= |t|
    ensures j <= e <= |t| && (e == |t| || IsLineTerminator(t[e]))
    ensures forall x :: j <= x < e ==> !IsLineTerminator(t[x])
    decreases |t| - j
  {
    if j == |t| || IsLineTerminator(t[j]) then j else LineEnd(t, j + 1)
  }

  /** The characters in `[a, b)` are white space. */
  ghost predicate AllSpace(t: string, a: nat, b: nat) {
    b <= |t| && forall x :: a <= x < b ==> IsSpace(t[x])
  }

  /** `.` matches every character in `[a, b)`: none is a line terminator. */
  ghost predicate LineFree(t: string, a: nat, b: nat) {
    b <= |t| && forall x :: a <= x < b ==> !IsLineTerminator(t[x])
  }

  /**
   * `\s+` followed by a group starting with `.`: the greedy `\s+` gives back
   * characters until the group can start, so the group starts at `p + m` for
   * the largest `m <= n` (`n` the white space run) that is inside the text
   * and not a line terminator.
   */
  function GroupStart(t: string, p: nat, m: nat): (s: Option<nat>)
    ensures s.Some? ==> p < s.value <= p + m && s.value < |t| && !IsLineTerminator(t[s.value])
    ensures s.Some? ==> forall x :: s.value < x <= p + m ==> x >= |t| || IsLineTerminator(t[x])
    ensures s.None? ==> forall x :: p < x <= p + m ==> x >= |t| || IsLineTerminator(t[x])
    decreases m
  {
    if m == 0 then None
    else if p + m < |t| && !IsLineTerminator(t[p + m]) then Some(p + m)
    else GroupStart(t, p, m - 1)
  }

  /**
   * A regular expression without the `g` flag reports the match found at the
   * smallest start position: the first of `f(i)`, `f(i + 1)`, ..., `f(n)` that
   * is present.
   */
  function Leftmost<T>(f: nat -> Option<T>, i: nat, n: nat): Option<T>
    decreases n + 1 - i
  {
    if i > n then None
    else if f(i).Some? then f(i)
    else Leftmost(f, i + 1, n)
  }

  /** No start position in `[i, j)` gives a match. */
  ghost predicate NoneBefore<T>(f: nat -> Option<T>, i: nat, j: nat) {
    forall x: nat :: i <= x < j ==> f(x).None?
  }

  /** When `j` is the first start position from `i` on with a match, the search returns that match. */
  lemma {:induction false} LeftmostFinds<T>(f: nat -> Option<T>, i: nat, j: nat, n: nat)
    requires i <= j <= n && NoneBefore(f, i, j) && f(j).Some?
    ensures Leftmost(f, i, n) == f(j)
    decreases j - i
  {
    if i < j {
      LeftmostFinds(f, i + 1, j, n);
    }
  }

  /** The search finds nothing exactly when no start position up to `n` gives a match. */
  lemma {:induction false} LeftmostNone<T>(f: nat -> Option<T>, i: nat, n: nat)
    ensures Leftmost(f, i, n).None? <==> NoneBefore(f, i, n + 1)
    decreases n + 1 - i
  {
    if i <= n {
      LeftmostNone(f, i + 1, n);
      if f(i).None? && NoneBefore(f, i + 1, n + 1) {
        assert NoneBefore(f, i, n + 1);
      }
    }
  }

  // ---------------------------------------------------------------------
  // Pattern 1: /(?:show me|where is|map of|navigate to)\s+(.+?)(?:\s|$)/i
  // ---------------------------------------------------------------------

  /** The length of the pattern-1 keyword at `i`; the four start with different letters, so at most one matches. */
  function Lead1(t: string, i: nat): Option<nat> {
    if MatchesAt(t, "show me", i) then Some(7)
    else if MatchesAt(t, "where is", i) then Some(8)
    else if MatchesAt(t, "map of", i) then Some(6)
    else if MatchesAt(t, "navigate to", i) then Some(11)
    else None
  }

  /**
   * Pattern 1 tried at `i`: the lazy group takes as few characters as it can
   * up to white space or the end; from a non-blank start that is the rest of
   * the word.
   */
  function Pattern1At(t: string, i: nat): Option<string> {
    match Lead1(t, i)
    case None => None
    case Some(len) =>
      var p := i + len;
      var n := WsRun(t, p);
      if n == 0 then None
      else match GroupStart(t, p, n)
        case None => None
        case Some(s) => Some(t[s..WordEnd(t, s + 1)])
  }

  /** `c` is the shortest non-empty line-terminator-free run at `s` followed by white space or the end. */
  ghost predicate Group1At(t: string, s: nat, c: string) {
    |c| >= 1 && OccursAt(t, c, s) && !IsLineTerminator(c[0]) &&
    (s + |c| == |t| || IsSpace(t[s + |c|])) &&
    forall x :: s < x < s + |c| ==> !IsSpace(t[x])
  }

  /** Pattern 1 matches at `i` with its group `c` at `s`: the keyword, white space up to `s`, then the group. */
  ghost predicate Match1(t: string, i: nat, s: nat, c: string) {
    Lead1(t, i).Some? && i + Lead1(t, i).value < s && AllSpace(t, i + Lead1(t, i).value, s) && Group1At(t, s, c)
  }

  /** The match at `i` a backtracking matcher reports: the greedy `\s+` lets the group start as late as it can. */
  ghost predicate Best1(t: string, i: nat, s: nat, c: string) {
    Match1(t, i, s, c) && forall s': nat, c' :: Match1(t, i, s', c') ==> s' <= s
  }

  /** Tried at `i`, pattern 1 reports the group of its preferred match, and nothing when it cannot match there. */
  lemma Pattern1AtSpec(t: string, i: nat)
    ensures Pattern1At(t, i).Some? ==> exists s :: Best1(t, i, s, Pattern1At(t, i).value)
    ensures Pattern1At(t, i).None? ==> forall s: nat, c :: !Match1(t, i, s, c)
  {
    assert Pattern1At(t, i).None? ==> forall s: nat, c :: !Match1(t, i, s, c) by {
      forall s: nat, c | Match1(t, i, s, c) ensures Pattern1At(t, i).Some? {
        Match1Bounds(t, i, s, c);
      }
    }
    if Pattern1At(t, i).Some? {
      assert exists s :: Best1(t, i, s, Pattern1At(t, i).value) by {
        var p := i + Lead1(t, i).value;
        var s := GroupStart(t, p, WsRun(t, p)).value;
        var c := t[s..WordEnd(t, s + 1)];
        assert Group1At(t, s, c);
        assert Match1(t, i, s, c);
        forall s': nat, c' | Match1(t, i, s', c') ensures s' <= s {
          Match1Bounds(t, i, s', c');
        }
        assert Best1(t, i, s, c);
      }
    }
  }

  /** Any match of the pattern at `i` starts its group within the white space run, on a character `.` accepts. */
  lemma Match1Bounds(t: string, i: nat, s: nat, c: string)
    requires Match1(t, i, s, c)
    ensures var p := i + Lead1(t, i).value;
      1 <= WsRun(t, p) && s <= p + WsRun(t, p) && s < |t| && !IsLineTerminator(t[s])
  {
    assert t[s] == c[0];
    assert IsSpace(t[i + Lead1(t, i).value]);
  }

  /** The group at a given start is determined: the shortest run that ends at white space or the end. */
  lemma Group1Unique(t: string, s: nat, c1: string, c2: string)
    requires Group1At(t, s, c1) && Group1At(t, s, c2)
    ensures c1 == c2
  {
    assert |c1| == |c2|;
  }

  /** The leftmost match of pattern 1, as its group. */
  function FirstPattern1(t: string): Option<string> {
    Leftmost(p => Pattern1At(t, p), 0, |t|)
  }

  // ---------------------------------------------------------------------
  // Pattern 2: /(.+?)\s+(?:on|in)\s+(?:the\s+)?map/i
  // ---------------------------------------------------------------------

  /** What must follow the group: white space, `on` or `in`, white space, an optional `the` and white space, `map`. */
  predicate Tail2(t: string, e: nat) {
    var a := WsRun(t, e);
    a >= 1 && (MatchesAt(t, "on", e + a) || MatchesAt(t, "in", e + a)) &&
    var b := WsRun(t, e + a + 2);
    b >= 1 &&
    var r := e + a + 2 + b;
    (MatchesAt(t, "the", r) && WsRun(t, r + 3) >= 1 && MatchesAt(t, "map", r + 3 + WsRun(t, r + 3))) ||
    MatchesAt(t, "map", r)
  }

  /**
   * Pattern 2 at some start, trying group ends `e` in increasing order (the
   * lazy group); the group's `.` stops at a line terminator, which is checked
   * for the character just taken in.
   */
  function Pattern2End(t: string, e: nat): (r: Option<nat>)
    requires 0 < e
    ensures r.Some? ==> e <= r.value && LineFree(t, e - 1, r.value) && Tail2(t, r.value)
    ensures r.Some? ==> forall x :: e <= x < r.value ==> !Tail2(t, x)
    ensures r.None? ==> forall x: nat :: e <= x && LineFree(t, e - 1, x) ==> !Tail2(t, x)
    decreases |t| - e
  {
    if e > |t| || IsLineTerminator(t[e - 1]) then None
    else if Tail2(t, e) then Some(e)
    else Pattern2End(t, e + 1)
  }

  /** Pattern 2 at `i` can close its group at `e`: `t[i..e]` is non-empty and line-terminator free, and the tail follows. */
  ghost predicate End2(t: string, i: nat, e: nat) {
    i < e && LineFree(t, i, e) && Tail2(t, e)
  }

  /** Tried at `i`, pattern 2 reports the shortest group the tail can follow (the lazy `.+?`), and nothing when none can. */
  lemma Pattern2AtSpec(t: string, i: nat)
    ensures Pattern2At(t, i).Some? ==>
      exists e: nat :: End2(t, i, e) && Pattern2At(t, i).value == t[i..e] && forall x :: i < x < e ==> !End2(t, i, x)
    ensures Pattern2At(t, i).None? ==> forall e: nat :: !End2(t, i, e)
  {
    if Pattern2At(t, i).Some? {
      var e := Pattern2End(t, i + 1).value;
      assert End2(t, i, e) && Pattern2At(t, i).value == t[i..e];
    }
  }

  /** Pattern 2 at `i`, as its group: the shortest line-terminator-free run from `i` that the tail follows. */
  function Pattern2At(t: string, i: nat): Option<string> {
    match Pattern2End(t, i + 1)
    case Some(e) => Some(t[i..e])
    case None => None
  }

  /** The leftmost match of pattern 2, as its group. */
  function FirstPattern2(t: string): Option<string> {
    Leftmost(p => Pattern2At(t, p), 0, |t|)
  }

  // ---------------------------------------------------------------------
  // Pattern 3: /location of\s+(.+)/i
  // ---------------------------------------------------------------------

  /** Pattern 3 at `i`: the greedy group runs to the end of the line. */
  function Pattern3At(t: string, i: nat): (c: Option<string>)
    ensures c.Some? ==>
      |c.value| >= 1 && IsSliceOf(c.value, t) && forall x :: 0 <= x < |c.value| ==> !IsLineTerminator(c.value[x])
  {
    if !MatchesAt(t, "location of", i) then None
    else
      var p := i + 11;
      var n := WsRun(t, p);
      if n == 0 then None
      else match GroupStart(t, p, n)
        case None => None
        case Some(s) =>
          var c := t[s..LineEnd(t, s)];
          assert OccursAt(t, c, s);
          Some(c)
  }

  /** `c` is the greedy `.+` at `s`: a non-empty line-terminator-free run reaching the end of its line. */
  ghost predicate Group3At(t: string, s: nat, c: string) {
    |c| >= 1 && OccursAt(t, c, s) && LineFree(t, s, s + |c|) && (s + |c| == |t| || IsLineTerminator(t[s + |c|]))
  }

  /** Pattern 3 matches at `i` with its group `c` at `s`: "location of", white space up to `s`, then the group. */
  ghost predicate Match3(t: string, i: nat, s: nat, c: string) {
    MatchesAt(t, "location of", i) && i + 11 < s && AllSpace(t, i + 11, s) && Group3At(t, s, c)
  }

  /** The match at `i` a backtracking matcher reports: the greedy `\s+` lets the group start as late as it can. */
  ghost predicate Best3(t: string, i: nat, s: nat, c: string) {
    Match3(t, i, s, c) && forall s': nat, c' :: Match3(t, i, s', c') ==> s' <= s
  }

  /** Tried at `i`, pattern 3 reports the group of its preferred match, and nothing when it cannot match there. */
  lemma Pattern3AtSpec(t: string, i: nat)
    ensures Pattern3At(t, i).Some? ==> exists s :: Best3(t, i, s, Pattern3At(t, i).value)
    ensures Pattern3At(t, i).None? ==> forall s: nat, c :: !Match3(t, i, s, c)
  {
    assert Pattern3At(t, i).None? ==> forall s: nat, c :: !Match3(t, i, s, c) by {
      forall s: nat, c | Match3(t, i, s, c) ensures Pattern3At(t, i).Some? {
        Match3Bounds(t, i, s, c);
      }
    }
    if Pattern3At(t, i).Some? {
      assert exists s :: Best3(t, i, s, Pattern3At(t, i).value) by {
        var p := i + 11;
        var s := GroupStart(t, p, WsRun(t, p)).value;
        var c := t[s..LineEnd(t, s)];
        assert Group3At(t, s, c);
        assert Match3(t, i, s, c);
        forall s': nat, c' | Match3(t, i, s', c') ensures s' <= s {
          Match3Bounds(t, i, s', c');
        }
        assert Best3(t, i, s, c);
      }
    }
  }

  /** Any match of the pattern at `i` starts its group within the white space run, on a character `.` accepts. */
  lemma Match3Bounds(t: string, i: nat, s: nat, c: string)
    requires Match3(t, i, s, c)
    ensures var p := i + 11;
      1 <= WsRun(t, p) && s <= p + WsRun(t, p) && s < |t| && !IsLineTerminator(t[s])
  {
    assert t[s] == c[0];
    assert IsSpace(t[i + 11]);
  }

  /** The group at a given start is determined: the run up to the end of the line. */
  lemma Group3Unique(t: string, s: nat, c1: string, c2: string)
    requires Group3At(t, s, c1) && Group3At(t, s, c2)
    ensures c1 == c2
  {
    assert |c1| == |c2|;
  }

  /** The leftmost match of pattern 3, as its group. */
  function FirstPattern3(t: string): Option<string> {
    Leftmost(p => Pattern3At(t, p), 0, |t|)
  }

  // ---------------------------------------------------------------------
  // The fallback: text.replace(/\b(map|show me|location|where is|navigate|directions)\b/gi, '')
  // ---------------------------------------------------------------------

  /** A word boundary at `i`: word character on exactly one side. */
  predicate Boundary(t: string, i: nat) {
    var before := 0 < i <= |t| && IsWordChar(t[i - 1]);
    var after := i < |t| && IsWordChar(t[i]);
    before != after
  }

  /** `w` occurs at `i` as a whole word, ignoring ASCII case: `\b` on both sides. */
  predicate WholeWordAt(t: string, w: string, i: nat) {
    Boundary(t, i) && MatchesAt(t, w, i) && Boundary(t, i + |w|)
  }

  /** The length of the whole-word alternative of `ks` at `i`, trying them in order. */
  function KeywordAt(t: string, ks: seq<string>, i: nat): (r: Option<nat>)
    requires NonEmptyWords(ks)
    ensures r.Some? ==> r.value >= 1
  {
    KeywordFrom(t, i, ks, 0)
  }

  /** Every alternative of `ks` is a nonempty word. */
  predicate NonEmptyWords(ks: seq<string>) {
    forall j :: 0 <= j < |ks| ==> ks[j] != []
  }

  /** The first alternative of `ks` from `k` on that matches at `i` as a whole word, as its length. */
  function KeywordFrom(t: string, i: nat, ks: seq<string>, k: nat): (r: Option<nat>)
    requires k <= |ks| && NonEmptyWords(ks)
    ensures r.Some? ==> r.value >= 1
    decreases |ks| - k
  {
    if k == |ks| then None
    else if WholeWordAt(t, ks[k], i) then Some(|ks[k]|)
    else KeywordFrom(t, i, ks, k + 1)
  }

  /** `ks[j]` is the first alternative from index `k` on to match at `i` as a whole word. */
  ghost predicate FirstKeyword(t: string, i: nat, ks: seq<string>, k: nat, j: nat) {
    k <= j < |ks| && WholeWordAt(t, ks[j], i) &&
    forall j' :: k <= j' < j ==> !WholeWordAt(t, ks[j'], i)
  }

  /**
   * The alternation tries the keywords in order: the length found is that of
   * the first one matching at `i` as a whole word, and nothing is found
   * exactly when none does.
   */
  lemma {:induction false} KeywordFromSpec(t: string, i: nat, ks: seq<string>, k: nat)
    requires k <= |ks| && NonEmptyWords(ks)
    ensures KeywordFrom(t, i, ks, k).Some? ==>
      exists j: nat :: FirstKeyword(t, i, ks, k, j) && KeywordFrom(t, i, ks, k).value == |ks[j]|
    ensures KeywordFrom(t, i, ks, k).None? <==> forall j :: k <= j < |ks| ==> !WholeWordAt(t, ks[j], i)
    decreases |ks| - k
  {
    if k < |ks| {
      if WholeWordAt(t, ks[k], i) {
        assert FirstKeyword(t, i, ks, k, k);
      } else {
        KeywordFromSpec(t, i, ks, k + 1);
        if KeywordFrom(t, i, ks, k).Some? {
          var j: nat :| FirstKeyword(t, i, ks, k + 1, j) && KeywordFrom(t, i, ks, k).value == |ks[j]|;
          assert FirstKeyword(t, i, ks, k, j);
        }
      }
    }
  }

  /** The global replace: scanning left to right, each whole-word keyword is removed and scanning resumes after it. */
  function StripKeywords(t: string, ks: seq<string>, i: nat): (r: string)
    requires NonEmptyWords(ks)
    ensures |r| <= |t| - i || i > |t|
    decreases |t| - i
  {
    if i >= |t| then []
    else match KeywordAt(t, ks, i)
      case Some(n) => StripKeywords(t, ks, i + n)
      case None => [t[i]] + StripKeywords(t, ks, i + 1)
  }

  // ---------------------------------------------------------------------
  // detectMapRequest and handleSend
  // ---------------------------------------------------------------------

  /** The text `detectMapRequest` trims: the group of the first pattern that matches, or else the text with its keywords removed. */
  function Candidate(text: string): string {
    match FirstPattern1(text)
    case Some(c) => c
    case None => match FirstPattern2(text)
      case Some(c) => c
      case None => match FirstPattern3(text)
        case Some(c) => c
        case None => StripKeywords(text, MapKeywords, 0)
  }

  /** `detectMapRequest`: `None` (null) without a keyword; otherwise the trimmed candidate. */
  function DetectMapRequest(text: string): (r: Option<string>)
    ensures r.None? <==> !HasMapKeyword(text)
    ensures r.Some? ==> r.value == [] || (!IsSpace(r.value[0]) && !IsSpace(r.value[|r.value| - 1]))
  {
    if !HasMapKeyword(text) then None else Some(Trim(Candidate(text)))
  }

  /** What the send button does with the typed message. */
  datatype SendAction = Ignore | OpenMap(locationQuery: string, userMessage: string) | SendToAgent(message: string)

  /**
   * `handleSend`: a blank message is ignored; a map request with a non-empty
   * query opens the map; anything else goes to the agent.
   */
  function HandleSend(message: string): (a: SendAction)
    ensures a == Ignore <==> forall i :: 0 <= i < |message| ==> IsSpace(message[i])
    ensures a.OpenMap? <==>
      Trim(message) != [] && DetectMapRequest(message).Some? && DetectMapRequest(message).value != []
    ensures a.OpenMap? ==> a.locationQuery == DetectMapRequest(message).value && a.userMessage == message
    ensures a.SendToAgent? ==> a.message == message
  {
    TrimEmptyIff(message);
    if Trim(message) == [] then Ignore
    else match DetectMapRequest(message)
      case Some(q) => if q != [] then OpenMap(q, message) else SendToAgent(message)
      case None => SendToAgent(message)
  }

  // ---------------------------------------------------------------------
  // Properties
  // ---------------------------------------------------------------------

  /** A message is a map request exactly when one of the keywords occurs in it, ignoring ASCII case. */
  lemma NoKeywordIffNull(text: string)
    ensures DetectMapRequest(text).None? <==>
      forall j :: 0 <= j < |MapKeywords| ==> !ContainsFolded(text, MapKeywords[j])
  {
    forall j | 0 <= j < |MapKeywords|
      ensures Contains(Lower(text), MapKeywords[j]) <==> ContainsFolded(text, MapKeywords[j])
    {
      ContainsLowerIffFolded(text, MapKeywords[j]);
    }
  }

  /** Up to the first position where an alternative matches as a whole word, the replace copies the text as it is. */
  lemma {:induction false} StripCopiesUpTo(t: string, ks: seq<string>, i: nat, j: nat)
    requires i <= j <= |t| && NonEmptyWords(ks)
    requires forall x, k :: i <= x < j && 0 <= k < |ks| ==> !WholeWordAt(t, ks[k], x)
    ensures StripKeywords(t, ks, i) == t[i..j] + StripKeywords(t, ks, j)
    decreases j - i
  {
    if i < j {
      var rest := StripKeywords(t, ks, j);
      calc {
        StripKeywords(t, ks, i);
        == { NoKeywordAt(t, ks, i); StripStep(t, ks, i); }
        [t[i]] + StripKeywords(t, ks, i + 1);
        == { StripCopiesUpTo(t, ks, i + 1, j); }
        [t[i]] + (t[i + 1..j] + rest);
        == { AppendAssoc([t[i]], t[i + 1..j], rest); SliceCons(t, i, j); }
        t[i..j] + rest;
      }
    }
  }

  lemma StripStep(t: string, ks: seq<string>, i: nat)
    requires i < |t| && NonEmptyWords(ks) && KeywordAt(t, ks, i).None?
    ensures StripKeywords(t, ks, i) == [t[i]] + StripKeywords(t, ks, i + 1)
  {
  }

  lemma AppendAssoc<T>(a: seq<T>, b: seq<T>, c: seq<T>)
    ensures a + (b + c) == (a + b) + c
  {
  }

  lemma SliceCons(t: string, i: nat, j: nat)
    requires i < j <= |t|
    ensures t[i..j] == [t[i]] + t[i + 1..j]
  {
  }

  /** A whole-word keyword is removed, and the scan resumes right after it. */
  lemma StripDropsKeyword(t: string, i: nat, k: nat)
    requires i < |t| && k < |MapKeywords| && WholeWordAt(t, MapKeywords[k], i)
    ensures StripKeywords(t, MapKeywords, i) == StripKeywords(t, MapKeywords, i + |MapKeywords[k]|)
  {
    MapKeywordsNonEmpty();
    var j := KeywordIndexAt(t, MapKeywords, i);
    FirstLetter(t, MapKeywords[j], i);
    FirstLetter(t, MapKeywords[k], i);
    KeywordsStartApart(j, k);
    StripSkip(t, MapKeywords, i, |MapKeywords[k]|);
  }

  lemma StripSkip(t: string, ks: seq<string>, i: nat, n: nat)
    requires i < |t| && NonEmptyWords(ks) && KeywordAt(t, ks, i) == Some(n)
    ensures StripKeywords(t, ks, i) == StripKeywords(t, ks, i + n)
  {
  }

  /** Where no alternative matches as a whole word, the replace finds no keyword. */
  lemma NoKeywordAt(t: string, ks: seq<string>, i: nat)
    requires NonEmptyWords(ks)
    requires forall k :: 0 <= k < |ks| ==> !WholeWordAt(t, ks[k], i)
    ensures KeywordAt(t, ks, i).None?
  {
    KeywordFromSpec(t, i, ks, 0);
  }

  /** The alternative the replace removes at `i`. */
  lemma KeywordIndexAt(t: string, ks: seq<string>, i: nat) returns (j: nat)
    requires NonEmptyWords(ks)
    requires exists k :: 0 <= k < |ks| && WholeWordAt(t, ks[k], i)
    ensures j < |ks| && KeywordAt(t, ks, i) == Some(|ks[j]|) && WholeWordAt(t, ks[j], i)
  {
    KeywordFromSpec(t, i, ks, 0);
    j :| FirstKeyword(t, i, ks, 0, j) && KeywordAt(t, ks, i).value == |ks[j]|;
  }

  lemma FirstLetter(t: string, w: string, i: nat)
    requires MatchesAt(t, w, i) && w != []
    ensures LowerChar(t[i]) == LowerChar(w[0])
  {
    assert t[i + 0] == t[i];
  }

  lemma MapKeywordsNonEmpty()
    ensures NonEmptyWords(MapKeywords)
  {
  }

  /** The six keywords start with six different letters, so at most one matches at a position. */
  lemma KeywordsStartApart(j: nat, k: nat)
    requires j < |MapKeywords| && k < |MapKeywords|
    requires LowerChar(MapKeywords[j][0]) == LowerChar(MapKeywords[k][0])
    ensures j == k
  {
    assert MapKeywords[0][0] == 'm' && MapKeywords[1][0] == 's' && MapKeywords[2][0] == 'l';
    assert MapKeywords[3][0] == 'w' && MapKeywords[4][0] == 'n' && MapKeywords[5][0] == 'd';
  }

  // ---------------------------------------------------------------------
  // The cascade of detectMapRequest, against the matches of each pattern
  // ---------------------------------------------------------------------

  /** Pattern 1 matches at no start position before `n`. */
  ghost predicate NoMatch1Before(t: string, n: nat) {
    forall j: nat, s: nat, c :: j < n ==> !Match1(t, j, s, c)
  }

  /** Pattern 2 matches at no start position before `n`. */
  ghost predicate NoMatch2Before(t: string, n: nat) {
    forall j: nat, e: nat :: j < n ==> !End2(t, j, e)
  }

  /** Pattern 3 matches at no start position before `n`. */
  ghost predicate NoMatch3Before(t: string, n: nat) {
    forall j: nat, s: nat, c :: j < n ==> !Match3(t, j, s, c)
  }

  lemma FirstPattern1Is(t: string, i: nat, s: nat, c: string)
    requires Best1(t, i, s, c) && NoMatch1Before(t, i)
    ensures FirstPattern1(t) == Some(c)
  {
    assert NoneBefore(p => Pattern1At(t, p), 0, i) by {
      forall x: nat | x < i ensures Pattern1At(t, x).None? {
        Pattern1AtSpec(t, x);
      }
    }
    assert Pattern1At(t, i) == Some(c) by {
      Pattern1AtSpec(t, i);
      var s0 :| Best1(t, i, s0, Pattern1At(t, i).value);
      Group1Unique(t, s, c, Pattern1At(t, i).value);
    }
    LeftmostFinds(p => Pattern1At(t, p), 0, i, |t|);
  }

  lemma FirstPattern1None(t: string)
    requires NoMatch1Before(t, |t| + 1)
    ensures FirstPattern1(t).None?
  {
    forall x: nat | x <= |t| ensures Pattern1At(t, x).None? {
      Pattern1AtSpec(t, x);
    }
    LeftmostNone(p => Pattern1At(t, p), 0, |t|);
  }

  lemma FirstPattern2Is(t: string, i: nat, e: nat)
    requires End2(t, i, e) && (forall x :: i < x < e ==> !End2(t, i, x)) && NoMatch2Before(t, i)
    ensures FirstPattern2(t) == Some(t[i..e])
  {
    assert NoneBefore(p => Pattern2At(t, p), 0, i) by {
      forall x: nat | x < i ensures Pattern2At(t, x).None? {
        Pattern2AtSpec(t, x);
      }
    }
    assert Pattern2At(t, i) == Some(t[i..e]) by {
      Pattern2AtSpec(t, i);
      var e0: nat :| End2(t, i, e0) && Pattern2At(t, i).value == t[i..e0] && forall x :: i < x < e0 ==> !End2(t, i, x);
      assert e0 == e;
    }
    LeftmostFinds(p => Pattern2At(t, p), 0, i, |t|);
  }

  lemma FirstPattern2None(t: string)
    requires NoMatch2Before(t, |t| + 1)
    ensures FirstPattern2(t).None?
  {
    forall x: nat | x <= |t| ensures Pattern2At(t, x).None? {
      Pattern2AtSpec(t, x);
    }
    LeftmostNone(p => Pattern2At(t, p), 0, |t|);
  }

  lemma FirstPattern3Is(t: string, i: nat, s: nat, c: string)
    requires Best3(t, i, s, c) && NoMatch3Before(t, i)
    ensures FirstPattern3(t) == Some(c)
  {
    assert NoneBefore(p => Pattern3At(t, p), 0, i) by {
      forall x: nat | x < i ensures Pattern3At(t, x).None? {
        Pattern3AtSpec(t, x);
      }
    }
    assert Pattern3At(t, i) == Some(c) by {
      Pattern3AtSpec(t, i);
      var s0 :| Best3(t, i, s0, Pattern3At(t, i).value);
      Group3Unique(t, s, c, Pattern3At(t, i).value);
    }
    LeftmostFinds(p => Pattern3At(t, p), 0, i, |t|);
  }

  lemma FirstPattern3None(t: string)
    requires NoMatch3Before(t, |t| + 1)
    ensures FirstPattern3(t).None?
  {
    forall x: nat | x <= |t| ensures Pattern3At(t, x).None? {
      Pattern3AtSpec(t, x);
    }
    LeftmostNone(p => Pattern3At(t, p), 0, |t|);
  }

  /** When pattern 1 matches, the result is the trimmed group of its leftmost match. */
  lemma DetectByPattern1(t: string, i: nat, s: nat, c: string)
    requires HasMapKeyword(t)
    requires Best1(t, i, s, c) && NoMatch1Before(t, i)
    ensures DetectMapRequest(t) == Some(Trim(c))
  {
    FirstPattern1Is(t, i, s, c);
  }

  /** When only pattern 2 matches, the result is the trimmed shortest group of its leftmost match. */
  lemma DetectByPattern2(t: string, i: nat, e: nat)
    requires HasMapKeyword(t) && NoMatch1Before(t, |t| + 1)
    requires End2(t, i, e) && (forall x :: i < x < e ==> !End2(t, i, x)) && NoMatch2Before(t, i)
    ensures DetectMapRequest(t) == Some(Trim(t[i..e]))
  {
    FirstPattern1None(t);
    FirstPattern2Is(t, i, e);
  }

  /** When only pattern 3 matches, the result is the trimmed rest of the line after "location of". */
  lemma DetectByPattern3(t: string, i: nat, s: nat, c: string)
    requires HasMapKeyword(t) && NoMatch1Before(t, |t| + 1) && NoMatch2Before(t, |t| + 1)
    requires Best3(t, i, s, c) && NoMatch3Before(t, i)
    ensures DetectMapRequest(t) == Some(Trim(c))
  {
    FirstPattern1None(t);
    FirstPattern2None(t);
    FirstPattern3Is(t, i, s, c);
  }

  /** When no pattern matches, the result is the text with its whole-word keywords removed, trimmed. */
  lemma DetectByFallback(t: string)
    requires HasMapKeyword(t)
    requires NoMatch1Before(t, |t| + 1) && NoMatch2Before(t, |t| + 1) && NoMatch3Before(t, |t| + 1)
    ensures DetectMapRequest(t) == Some(Trim(StripKeywords(t, MapKeywords, 0)))
  {
    FirstPattern1None(t);
    FirstPattern2None(t);
    FirstPattern3None(t);
  }

  /** The first pattern takes one word after "show me", keeping its punctuation and case. */
  lemma ShowMeExample()
    ensures DetectMapRequest("Show me Tacos!") == Some("Tacos!")
  {
    var t := "Show me Tacos!";
    ShowMeKeyword();
    ShowMeGroup();
    LeftmostFinds(p => Pattern1At(t, p), 0, 0, |t|);
    TrimOfTrimmed("Tacos!");
  }

  lemma ShowMeKeyword()
    ensures HasMapKeyword("Show me Tacos!")
  {
    var t := "Show me Tacos!";
    assert MatchesAt(t, "show me", 0);
    LowerOccursIffMatches(t, "show me", 0);
    assert Contains(Lower(t), MapKeywords[1]);
  }

  lemma ShowMeLead()
    ensures Lead1("Show me Tacos!", 0) == Some(7)
  {
    assert MatchesAt("Show me Tacos!", "show me", 0);
  }

  lemma ShowMeGroup()
    ensures Pattern1At("Show me Tacos!", 0) == Some("Tacos!")
  {
    var t := "Show me Tacos!";
    ShowMeLead();
    ShowMeGroupStart();
    assert WordEnd(t, 9) == |t|;
    assert t[8..|t|] == "Tacos!";
  }

  lemma ShowMeGroupStart()
    ensures WsRun("Show me Tacos!", 7) == 1
    ensures GroupStart("Show me Tacos!", 7, 1) == Some(8)
  {
    var t := "Show me Tacos!";
    assert WsRun(t, 8) == 0;
  }

  /** "map" alone matches none of the three patterns, so its candidate is what the replace leaves. */
  lemma BareKeywordCandidate()
    ensures Candidate("map") == StripKeywords("map", MapKeywords, 0)
  {
    var t := "map";
    assert forall p: nat :: p <= |t| ==> Lead1(t, p).None? && !MatchesAt(t, "location of", p);
    LeftmostNone(p => Pattern1At(t, p), 0, |t|);
    LeftmostNone(p => Pattern3At(t, p), 0, |t|);
    assert forall e: nat :: 0 < e <= |t| ==> WsRun(t, e) == 0;
    assert forall p: nat :: p <= |t| ==> Pattern2At(t, p).None? by {
      assert Pattern2End(t, 4) == None;
      assert Pattern2End(t, 3) == None;
      assert Pattern2End(t, 2) == None;
      assert Pattern2End(t, 1) == None;
    }
    LeftmostNone(p => Pattern2At(t, p), 0, |t|);
  }

  lemma BareKeywordStrips()
    ensures StripKeywords("map", MapKeywords, 0) == []
  {
    var t := "map";
    assert WholeWordAt(t, MapKeywords[0], 0) by {
      assert Boundary(t, 0) && Boundary(t, 3);
      assert MatchesAt(t, "map", 0);
    }
    StripDropsKeyword(t, 0, 0);
  }

  /** A bare keyword is a map request whose query is empty, so the message goes to the agent. */
  lemma BareKeywordGoesToAgent()
    ensures DetectMapRequest("map") == Some("")
    ensures HandleSend("map") == SendToAgent("map")
  {
    var t := "map";
    assert MatchesAt(t, "map", 0);
    LowerOccursIffMatches(t, "map", 0);
    assert Contains(Lower(t), MapKeywords[0]);
    assert HasMapKeyword(t);
    BareKeywordCandidate();
    BareKeywordStrips();
    TrimEmptyIff(t);
    assert !IsSpace(t[0]);
  }
}
