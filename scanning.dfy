/** The four regular expressions of the extractor, each as a hand-written
    scanner: a match at one position, and `re.findall`'s leftmost,
    non-overlapping search built on it. */
module Scanning {

  datatype Option<T> = None | Some(value: T)

  /** `[a-zA-Z0-9_]`, the capture class of the JSON-key, XML-tag and
      dot-segment patterns. */
  predicate IsAsciiWordChar(c: char) {
    ('a' <= c <= 'z') || ('A' <= c <= 'Z') || ('0' <= c <= '9') || c == '_'
  }

  /** Python's `\s` on text patterns: the characters Python treats as Unicode
      whitespace. */
  predicate IsSpace(c: char) {
    ('\t' <= c <= '\r') || ('\U{1C}' <= c <= '\U{1F}') || c == ' ' || c == '\U{85}'
    || c == '\U{A0}' || c == '\U{1680}' || ('\U{2000}' <= c <= '\U{200A}')
    || c == '\U{2028}' || c == '\U{2029}' || c == '\U{202F}' || c == '\U{205F}'
    || c == '\U{3000}'
  }

  /** `w` stands for Python's Unicode `\w`: on ASCII it is exactly
      `[a-zA-Z0-9_]`; beyond ASCII it is left open. */
  ghost predicate ModelsWordClass(w: char -> bool) {
    forall c: char :: c < '\U{80}' ==> (w(c) <==> IsAsciiWordChar(c))
  }

  /** The class `[\.\w\s|]` of the html pattern, with `w` for `\w`. */
  predicate InExprClass(w: char -> bool, c: char) {
    c == '.' || w(c) || IsSpace(c) || c == '|'
  }

  datatype Pattern =
    | HtmlExpr(word: char -> bool)  // {{\s*([\.\w\s|]+)\s*}}
    | JsonKey                       // "([a-zA-Z0-9_]+)":
    | XmlTag                        // <([a-zA-Z0-9_]+)
    | DotSegment                    // \.([a-zA-Z0-9_]+)

  ghost predicate WellFormed(p: Pattern) {
    p.HtmlExpr? ==> ModelsWordClass(p.word)
  }

  /** The character class of the pattern's one capturing group. */
  predicate InCapture(p: Pattern, c: char) {
    match p
    case HtmlExpr(w) => InExprClass(w, c)
    case _ => IsAsciiWordChar(c)
  }

  /** One match: where it starts, what its group captured, and where the
      search resumes (the end of the whole match). */
  datatype Match = Match(start: nat, capture: string, end: nat)

  /** `m` is a match of `p` in `s`, read off the regular expression. For the
      html pattern the capture keeps the whitespace that the optional `\s*`
      around the group may take; whitespace never changes the dot-segments
      found inside it. */
  ghost predicate IsMatch(p: Pattern, s: string, m: Match) {
    m.start < m.end <= |s| && 0 < |m.capture| &&
    (forall c :: c in m.capture ==> InCapture(p, c)) &&
    (match p
     case HtmlExpr(_) =>
       m.end == m.start + |m.capture| + 4 &&
       s[m.start] == '{' && s[m.start + 1] == '{' &&
       s[m.start + 2..m.end - 2] == m.capture &&
       s[m.end - 2] == '}' && s[m.end - 1] == '}'
     case JsonKey =>
       m.end == m.start + |m.capture| + 3 &&
       s[m.start] == '"' && s[m.start + 1..m.end - 2] == m.capture &&
       s[m.end - 2] == '"' && s[m.end - 1] == ':'
     case XmlTag =>
       m.end == m.start + |m.capture| + 1 &&
       s[m.start] == '<' && s[m.start + 1..m.end] == m.capture &&
       (m.end == |s| || !IsAsciiWordChar(s[m.end]))
     case DotSegment =>
       m.end == m.start + |m.capture| + 1 &&
       s[m.start] == '.' && s[m.start + 1..m.end] == m.capture &&
       (m.end == |s| || !IsAsciiWordChar(s[m.end])))
  }

  /** The end of the longest run of capture-class characters from `j`: the
      greedy `+` of every pattern. */
  function RunEnd(p: Pattern, s: string, j: nat): (e: nat)
    requires j <= |s|
    ensures j <= e <= |s|
    ensures e == |s| || !InCapture(p, s[e])
    decreases |s| - j
  {
    if j < |s| && InCapture(p, s[j]) then RunEnd(p, s, j + 1) else j
  }

  /** Everything the greedy run takes is in the class. */
  lemma {:induction false} RunEndClass(p: Pattern, s: string, j: nat)
    requires j <= |s|
    ensures forall k :: j <= k < RunEnd(p, s, j) ==> InCapture(p, s[k])
    decreases |s| - j
  {
    if j < |s| && InCapture(p, s[j]) {
      RunEndClass(p, s, j + 1);
    }
  }

  /** A prefix character followed by a non-empty greedy word run. */
  function WordAfter(p: Pattern, prefix: char, s: string, i: nat): Option<Match>
    requires i <= |s|
  {
    if i < |s| && s[i] == prefix then
      var e := RunEnd(p, s, i + 1);
      if i + 1 < e then Some(Match(i, s[i + 1..e], e)) else None
    else None
  }

  /** The attempt of `p` at position `i`; the regex engine backtracks only
      inside the group's run, and since the terminator of each pattern lies
      outside the group's class, the greedy run is the only one that can
      succeed. */
  function MatchAt(p: Pattern, s: string, i: nat): (r: Option<Match>)
    requires i <= |s|
    ensures r.Some? ==> r.value.start == i < r.value.end <= |s|
  {
    match p
    case HtmlExpr(_) =>
      if i + 2 <= |s| && s[i] == '{' && s[i + 1] == '{' then
        var e := RunEnd(p, s, i + 2);
        if i + 2 < e && e + 2 <= |s| && s[e] == '}' && s[e + 1] == '}'
        then Some(Match(i, s[i + 2..e], e + 2))
        else None
      else None
    case JsonKey =>
      if i < |s| && s[i] == '"' then
        var e := RunEnd(p, s, i + 1);
        if i + 1 < e && e + 2 <= |s| && s[e] == '"' && s[e + 1] == ':'
        then Some(Match(i, s[i + 1..e], e + 2))
        else None
      else None
    case XmlTag => WordAfter(p, '<', s, i)
    case DotSegment => WordAfter(p, '.', s, i)
  }

  /** A match found at `i` is a match of the regular expression there. */
  lemma MatchAtSound(p: Pattern, s: string, i: nat)
    requires i <= |s| && MatchAt(p, s, i).Some?
    ensures IsMatch(p, s, MatchAt(p, s, i).value)
  {
    match p
    case HtmlExpr(_) => HtmlSound(p, s, i);
    case JsonKey => JsonSound(s, i);
    case XmlTag => WordAfterSound(p, '<', s, i);
    case DotSegment => WordAfterSound(p, '.', s, i);
  }

  lemma HtmlSound(p: Pattern, s: string, i: nat)
    requires p.HtmlExpr? && i <= |s| && MatchAt(p, s, i).Some?
    ensures IsMatch(p, s, MatchAt(p, s, i).value)
  {
    var m := MatchAt(p, s, i).value;
    RunEndClass(p, s, i + 2);
    assert s[m.start + 2..m.end - 2] == m.capture;
  }

  lemma JsonSound(s: string, i: nat)
    requires i <= |s| && MatchAt(JsonKey, s, i).Some?
    ensures IsMatch(JsonKey, s, MatchAt(JsonKey, s, i).value)
  {
    var m := MatchAt(JsonKey, s, i).value;
    RunEndClass(JsonKey, s, i + 1);
    assert s[m.start + 1..m.end - 2] == m.capture;
  }

  lemma WordAfterSound(p: Pattern, prefix: char, s: string, i: nat)
    requires (p == XmlTag && prefix == '<') || (p == DotSegment && prefix == '.')
    requires i <= |s| && WordAfter(p, prefix, s, i).Some?
    ensures IsMatch(p, s, WordAfter(p, prefix, s, i).value)
  {
    RunEndClass(p, s, i + 1);
  }

  /** Conversely, every match the regular expression admits at a position
      is the one MatchAt finds there. */
  lemma MatchAtFindsEveryMatch(p: Pattern, s: string, m: Match)
    requires WellFormed(p) && IsMatch(p, s, m)
    ensures MatchAt(p, s, m.start) == Some(m)
  {
    match p
    case HtmlExpr(_) => HtmlComplete(p, s, m);
    case JsonKey => JsonComplete(s, m);
    case XmlTag => WordAfterComplete(p, '<', s, m);
    case DotSegment => WordAfterComplete(p, '.', s, m);
  }

  lemma HtmlComplete(p: Pattern, s: string, m: Match)
    requires p.HtmlExpr? && WellFormed(p) && IsMatch(p, s, m)
    ensures MatchAt(p, s, m.start) == Some(m)
  {
    assert !InCapture(p, '}');
    RunEndAt(p, s, m.start + 2, m.end - 2, m.capture);
  }

  lemma JsonComplete(s: string, m: Match)
    requires IsMatch(JsonKey, s, m)
    ensures MatchAt(JsonKey, s, m.start) == Some(m)
  {
    RunEndAt(JsonKey, s, m.start + 1, m.end - 2, m.capture);
  }

  lemma WordAfterComplete(p: Pattern, prefix: char, s: string, m: Match)
    requires (p == XmlTag && prefix == '<') || (p == DotSegment && prefix == '.')
    requires IsMatch(p, s, m)
    ensures WordAfter(p, prefix, s, m.start) == Some(m)
  {
    RunEndAt(p, s, m.start + 1, m.end, m.capture);
  }

  /** A run of class characters that stops at a non-class character is the
      greedy run. */
  lemma RunEndAt(p: Pattern, s: string, j: nat, e: nat, run: string)
    requires j <= e <= |s| && s[j..e] == run
    requires forall c :: c in run ==> InCapture(p, c)
    requires e == |s| || !InCapture(p, s[e])
    ensures RunEnd(p, s, j) == e
  {
    forall k | j <= k < e
      ensures InCapture(p, s[k])
    {
      assert s[k] == run[k - j];
    }
    RunThrough(p, s, j, e);
  }

  lemma {:induction false} RunThrough(p: Pattern, s: string, j: nat, e: nat)
    requires j <= e <= |s|
    requires forall k :: j <= k < e ==> InCapture(p, s[k])
    requires e == |s| || !InCapture(p, s[e])
    ensures RunEnd(p, s, j) == e
    decreases e - j
  {
    if j < e {
      RunThrough(p, s, j + 1, e);
    }
  }

  /** `re.findall`'s search from `from`: at each position try the pattern;
      on success resume after the match, otherwise one position later. */
  function FindMatches(p: Pattern, s: string, from: nat): seq<Match>
    requires from <= |s|
    decreases |s| - from
  {
    if from == |s| then []
    else
      match MatchAt(p, s, from)
      case Some(m) => [m] + FindMatches(p, s, m.end)
      case None => FindMatches(p, s, from + 1)
  }

  /** Every match found is a match of the pattern at its own position, and
      the matches come in order without overlapping. */
  lemma {:induction false} FindMatchesSound(p: Pattern, s: string, from: nat)
    requires from <= |s|
    ensures forall k :: 0 <= k < |FindMatches(p, s, from)| ==>
      Found(p, s, from, FindMatches(p, s, from)[k])
    ensures forall k :: 0 < k < |FindMatches(p, s, from)| ==>
      FindMatches(p, s, from)[k - 1].end <= FindMatches(p, s, from)[k].start
    decreases |s| - from
  {
    if from < |s| {
      match MatchAt(p, s, from)
      case Some(m) =>
        FindMatchesSound(p, s, m.end);
      case None =>
        FindMatchesSound(p, s, from + 1);
    }
  }

  /** `m` is what MatchAt finds at its start, no earlier than `from`. */
  ghost predicate Found(p: Pattern, s: string, from: nat, m: Match) {
    from <= m.start < m.end <= |s| && MatchAt(p, s, m.start) == Some(m)
  }

  /** No match is missed: every position where the pattern matches lies
      inside one of the matches found (leftmost, non-overlapping search). */
  lemma {:induction false} FindMatchesLeftmost(p: Pattern, s: string, from: nat, i: nat)
    requires from <= i < |s| && MatchAt(p, s, i).Some?
    ensures Covers(FindMatches(p, s, from), i)
    decreases |s| - from
  {
    var r := FindMatches(p, s, from);
    match MatchAt(p, s, from)
    case None =>
      FindMatchesLeftmost(p, s, from + 1, i);
    case Some(m) =>
      assert r == [m] + FindMatches(p, s, m.end);
      if i < m.end {
        assert r[0].start <= i < r[0].end;
      } else {
        var tail := FindMatches(p, s, m.end);
        FindMatchesLeftmost(p, s, m.end, i);
        var k :| 0 <= k < |tail| && tail[k].start <= i < tail[k].end;
        assert r[k + 1] == tail[k];
      }
  }

  /** Position `i` lies inside one of the matches `ms`. */
  ghost predicate Covers(ms: seq<Match>, i: nat) {
    exists k :: 0 <= k < |ms| && ms[k].start <= i < ms[k].end
  }

  /** Positions where the pattern does not match are skipped. */
  lemma {:induction false} SkipUnmatched(p: Pattern, s: string, from: nat, to: nat)
    requires from <= to <= |s|
    requires forall i :: from <= i < to ==> MatchAt(p, s, i).None?
    ensures FindMatches(p, s, from) == FindMatches(p, s, to)
    decreases |s| - from
  {
    if from < to {
      assert MatchAt(p, s, from).None?;
      FindMatchesSkip(p, s, from);
      SkipUnmatched(p, s, from + 1, to);
    }
  }

  function Captures(ms: seq<Match>): (r: seq<string>)
    ensures |r| == |ms| && forall k :: 0 <= k < |ms| ==> r[k] == ms[k].capture
  {
    seq(|ms|, k requires 0 <= k < |ms| => ms[k].capture)
  }

  /** `re.findall(pattern, s)` for a pattern with one group: the captures. */
  function FindAll(p: Pattern, s: string): seq<string> {
    Captures(FindMatches(p, s, 0))
  }

  /** Every capture is a non-empty run of the pattern's class. */
  lemma FindAllTokens(p: Pattern, s: string, t: string)
    requires t in FindAll(p, s)
    ensures 0 < |t| && forall c :: c in t ==> InCapture(p, c)
  {
    FindMatchesSound(p, s, 0);
    var r := FindMatches(p, s, 0);
    var k :| 0 <= k < |r| && r[k].capture == t;
    assert Found(p, s, 0, r[k]);
    MatchAtSound(p, s, r[k].start);
  }

  /** The html matches of the template syntax `{{ ... }}`. */
  function FindExpressions(w: char -> bool, s: string): seq<string> {
    FindAll(HtmlExpr(w), s)
  }

  /** `re.findall(r'\.([a-zA-Z0-9_]+)', m)`: the dot-prefixed segments. */
  function Segments(m: string): seq<string> {
    FindAll(DotSegment, m)
  }

  /** Every segment is a non-empty `[a-zA-Z0-9_]+` token, so holds no dot. */
  lemma SegmentIsIdentifier(m: string, t: string)
    requires t in Segments(m)
    ensures IsIdentifier(t) && '.' !in t
  {
    FindAllTokens(DotSegment, m, t);
  }

  /** A text without a dot has no segments; JSON keys and XML tag names are
      such texts. */
  lemma DotlessHasNoSegments(m: string)
    requires '.' !in m
    ensures Segments(m) == []
  {
    forall i | 0 <= i < |m|
      ensures MatchAt(DotSegment, m, i).None?
    {
      assert m[i] != '.';
    }
    SkipUnmatched(DotSegment, m, 0, |m|);
  }

  /** Text in front of a position does not change what is found from it:
      every pattern looks only forward. */
  lemma {:induction false} CapturesIgnorePrefix(p: Pattern, pre: string, s: string, j: nat)
    requires j <= |s|
    ensures Captures(FindMatches(p, pre + s, |pre| + j)) == Captures(FindMatches(p, s, j))
    decreases |s| - j
  {
    if j < |s| {
      CapturesIgnorePrefix(p, pre, s, Resume(p, s, j));
      ResumeStep(p, pre, s, j);
    }
  }

  /** Where the search goes on after position `j`. */
  function Resume(p: Pattern, s: string, j: nat): (k: nat)
    requires j < |s|
    ensures j < k <= |s|
  {
    match MatchAt(p, s, j)
    case None => j + 1
    case Some(m) => m.end
  }

  lemma ResumeStep(p: Pattern, pre: string, s: string, j: nat)
    requires j < |s|
    requires Captures(FindMatches(p, pre + s, |pre| + Resume(p, s, j))) == Captures(FindMatches(p, s, Resume(p, s, j)))
    ensures Captures(FindMatches(p, pre + s, |pre| + j)) == Captures(FindMatches(p, s, j))
  {
    match MatchAt(p, s, j)
    case None => SkipStep(p, pre, s, j);
    case Some(m) => MatchStep(p, pre, s, j, m);
  }

  lemma SkipStep(p: Pattern, pre: string, s: string, j: nat)
    requires j < |s| && MatchAt(p, s, j).None?
    requires Captures(FindMatches(p, pre + s, |pre| + (j + 1))) == Captures(FindMatches(p, s, j + 1))
    ensures Captures(FindMatches(p, pre + s, |pre| + j)) == Captures(FindMatches(p, s, j))
  {
    SkipIgnoresPrefix(p, pre, s, j);
  }

  lemma MatchStep(p: Pattern, pre: string, s: string, j: nat, m: Match)
    requires j < |s| && MatchAt(p, s, j) == Some(m)
    requires Captures(FindMatches(p, pre + s, |pre| + m.end)) == Captures(FindMatches(p, s, m.end))
    ensures Captures(FindMatches(p, pre + s, |pre| + j)) == Captures(FindMatches(p, s, j))
  {
    MatchIgnoresPrefix(p, pre, s, j, m);
    CapturesAt(p, s, j, m);
  }

  lemma SkipIgnoresPrefix(p: Pattern, pre: string, s: string, j: nat)
    requires j < |s| && MatchAt(p, s, j).None?
    ensures FindMatches(p, pre + s, |pre| + j) == FindMatches(p, pre + s, |pre| + (j + 1))
    ensures FindMatches(p, s, j) == FindMatches(p, s, j + 1)
  {
    MatchAtIgnoresPrefix(p, pre, s, j);
    FindMatchesSkip(p, pre + s, |pre| + j);
    FindMatchesSkip(p, s, j);
  }

  lemma MatchIgnoresPrefix(p: Pattern, pre: string, s: string, j: nat, m: Match)
    requires j < |s| && MatchAt(p, s, j) == Some(m)
    ensures Captures(FindMatches(p, pre + s, |pre| + j)) == [m.capture] + Captures(FindMatches(p, pre + s, |pre| + m.end))
  {
    MatchAtIgnoresPrefix(p, pre, s, j);
    CapturesAt(p, pre + s, |pre| + j, Match(|pre| + m.start, m.capture, |pre| + m.end));
  }

  lemma CapturesAt(p: Pattern, s: string, i: nat, m: Match)
    requires i < |s| && MatchAt(p, s, i) == Some(m)
    ensures Captures(FindMatches(p, s, i)) == [m.capture] + Captures(FindMatches(p, s, m.end))
  {
    FindMatchesAt(p, s, i, m);
    CapturesCons(m, FindMatches(p, s, m.end));
  }

  lemma FindMatchesAt(p: Pattern, s: string, i: nat, m: Match)
    requires i < |s| && MatchAt(p, s, i) == Some(m)
    ensures FindMatches(p, s, i) == [m] + FindMatches(p, s, m.end)
  {
  }

  lemma FindMatchesSkip(p: Pattern, s: string, i: nat)
    requires i < |s| && MatchAt(p, s, i).None?
    ensures FindMatches(p, s, i) == FindMatches(p, s, i + 1)
  {
  }

  lemma CapturesCons(m: Match, ms: seq<Match>)
    ensures Captures([m] + ms) == [m.capture] + Captures(ms)
  {
  }

  /** A match moved `n` positions to the right. */
  function Shifted(r: Option<Match>, n: nat): Option<Match> {
    match r
    case None => None
    case Some(m) => Some(Match(n + m.start, m.capture, n + m.end))
  }

  lemma MatchAtIgnoresPrefix(p: Pattern, pre: string, s: string, j: nat)
    requires j <= |s|
    ensures MatchAt(p, pre + s, |pre| + j) == Shifted(MatchAt(p, s, j), |pre|)
  {
    match p
    case HtmlExpr(_) => HtmlIgnoresPrefix(p, pre, s, j);
    case JsonKey => JsonIgnoresPrefix(p, pre, s, j);
    case XmlTag => WordAfterIgnoresPrefix(p, '<', pre, s, j);
    case DotSegment => WordAfterIgnoresPrefix(p, '.', pre, s, j);
  }

  lemma HtmlIgnoresPrefix(p: Pattern, pre: string, s: string, j: nat)
    requires p.HtmlExpr? && j <= |s|
    ensures MatchAt(p, pre + s, |pre| + j) == Shifted(MatchAt(p, s, j), |pre|)
  {
    if j + 2 <= |s| {
      var t, n, e := pre + s, |pre|, RunEnd(p, s, j + 2);
      RunEndIgnoresPrefix(p, pre, s, j + 2);
      assert t[n + j + 2..n + e] == s[j + 2..e];
    }
  }

  lemma JsonIgnoresPrefix(p: Pattern, pre: string, s: string, j: nat)
    requires p.JsonKey? && j <= |s|
    ensures MatchAt(p, pre + s, |pre| + j) == Shifted(MatchAt(p, s, j), |pre|)
  {
    if j < |s| {
      var t, n, e := pre + s, |pre|, RunEnd(p, s, j + 1);
      RunEndIgnoresPrefix(p, pre, s, j + 1);
      assert t[n + j + 1..n + e] == s[j + 1..e];
    }
  }

  lemma WordAfterIgnoresPrefix(p: Pattern, prefix: char, pre: string, s: string, j: nat)
    requires j <= |s|
    ensures WordAfter(p, prefix, pre + s, |pre| + j) == Shifted(WordAfter(p, prefix, s, j), |pre|)
  {
    if j < |s| {
      var t, n, e := pre + s, |pre|, RunEnd(p, s, j + 1);
      RunEndIgnoresPrefix(p, pre, s, j + 1);
      assert t[n + j + 1..n + e] == s[j + 1..e];
    }
  }

  lemma RunEndIgnoresPrefix(p: Pattern, pre: string, s: string, j: nat)
    requires j <= |s|
    ensures RunEnd(p, pre + s, |pre| + j) == |pre| + RunEnd(p, s, j)
  {
    var e := RunEnd(p, s, j);
    RunEndClass(p, s, j);
    RunEndAt(p, pre + s, |pre| + j, |pre| + e, s[j..e]);
  }

  /** A complete expression `{{x}}` is found on its own, and the search
      resumes right after it: no expression spans a `}}`. */
  lemma ExpressionThenRest(w: char -> bool, x: string, rest: string)
    requires ModelsWordClass(w)
    requires 0 < |x| && forall c :: c in x ==> InExprClass(w, c)
    ensures FindExpressions(w, "{{" + x + "}}" + rest) == [x] + FindExpressions(w, rest)
  {
    var p, e := HtmlExpr(w), "{{" + x + "}}";
    var s := e + rest;
    assert s == "{{" + x + "}}" + rest;
    var m := Match(0, x, |x| + 4);
    assert s[2..|x| + 2] == x;
    assert IsMatch(p, s, m);
    MatchAtFindsEveryMatch(p, s, m);
    assert FindMatches(p, s, 0) == [m] + FindMatches(p, s, |e|);
    CapturesCons(m, FindMatches(p, s, |e|));
    CapturesIgnorePrefix(p, e, rest, 0);
  }

  /** Text without `{` in front of the rest contributes no expression. */
  lemma BracelessThenRest(w: char -> bool, pre: string, rest: string)
    requires '{' !in pre
    ensures FindExpressions(w, pre + rest) == FindExpressions(w, rest)
  {
    var p := HtmlExpr(w);
    var s := pre + rest;
    forall i | 0 <= i < |pre|
      ensures MatchAt(p, s, i).None?
    {
      assert s[i] == pre[i];
    }
    SkipUnmatched(p, s, 0, |pre|);
    CapturesIgnorePrefix(p, pre, rest, 0);
  }

  /** `.a.b.c` for the path `[a, b, c]`. */
  function Dotted(path: seq<string>): string {
    if path == [] then [] else "." + path[0] + Dotted(path[1..])
  }

  /** A name the segment pattern can capture: a non-empty `[a-zA-Z0-9_]+`. */
  predicate IsIdentifier(t: string) {
    0 < |t| && forall c :: c in t ==> IsAsciiWordChar(c)
  }

  /** A character other than `.` starts no segment. */
  lemma SegmentsSkip(c: char, rest: string)
    requires c != '.'
    ensures Segments([c] + rest) == Segments(rest)
  {
    var s := [c] + rest;
    FindMatchesSkip(DotSegment, s, 0);
    CapturesIgnorePrefix(DotSegment, [c], rest, 0);
  }

  /** Text made of whitespace only, as the `\s*` around the html group
      may take. */
  predicate Blank(t: string) {
    forall c :: c in t ==> IsSpace(c)
  }

  /** Whitespace starts no segment, so it never changes the segments found
      after it. */
  lemma {:induction false} BlankSegments(ws: string, rest: string)
    requires Blank(ws)
    ensures Segments(ws + rest) == Segments(rest)
    decreases |ws|
  {
    if ws == [] {
      assert ws + rest == rest;
    } else {
      assert ws[0] in ws;
      assert ws + rest == [ws[0]] + (ws[1..] + rest);
      assert Blank(ws[1..]) by {
        forall c | c in ws[1..]
          ensures IsSpace(c)
        {
          assert c in ws;
        }
      }
      BlankSegments(ws[1..], rest);
      SegmentsSkip(ws[0], ws[1..] + rest);
    }
  }

  /** `.t` followed by a non-word character is one segment `t`. */
  lemma SegmentsWord(t: string, rest: string)
    requires IsIdentifier(t)
    requires rest == [] || !IsAsciiWordChar(rest[0])
    ensures Segments("." + t + rest) == [t] + Segments(rest)
  {
    var p, e := DotSegment, "." + t;
    var s := e + rest;
    assert s == "." + t + rest;
    var m := Match(0, t, |e|);
    assert s[1..|e|] == t;
    assert IsMatch(p, s, m);
    MatchAtFindsEveryMatch(p, s, m);
    CapturesAt(p, s, 0, m);
    CapturesIgnorePrefix(p, e, rest, 0);
  }

  /** The segments of a dotted path are its parts, when no word character
      continues the last one. */
  lemma {:induction false} SegmentsDotted(path: seq<string>, rest: string)
    requires forall k :: 0 <= k < |path| ==> IsIdentifier(path[k])
    requires rest == [] || !IsAsciiWordChar(rest[0])
    ensures Segments(Dotted(path) + rest) == path + Segments(rest)
  {
    if path == [] {
      assert Dotted(path) + rest == rest;
    } else {
      SegmentsDotted(path[1..], rest);
      SegmentsDottedStep(path, rest);
    }
  }

  lemma SegmentsDottedStep(path: seq<string>, rest: string)
    requires path != [] && IsIdentifier(path[0])
    requires rest == [] || !IsAsciiWordChar(rest[0])
    requires Segments(Dotted(path[1..]) + rest) == path[1..] + Segments(rest)
    ensures Segments(Dotted(path) + rest) == path + Segments(rest)
  {
    var tail := Dotted(path[1..]) + rest;
    DottedThen(path, rest);
    SegmentsWord(path[0], tail);
    var later := Segments(rest);
    calc {
      Segments(Dotted(path) + rest);
      Segments("." + path[0] + tail);
      [path[0]] + Segments(tail);
      [path[0]] + (path[1..] + later);
      { SeqAssoc([path[0]], path[1..], later); }
      ([path[0]] + path[1..]) + later;
      { assert [path[0]] + path[1..] == path; }
      path + later;
    }
  }

  lemma SeqAssoc<T>(a: seq<T>, b: seq<T>, c: seq<T>)
    ensures a + (b + c) == (a + b) + c
  {
  }

  /** Unfolding `Dotted` once, in front of `rest`; what follows the first
      part is a dot or `rest`. */
  lemma DottedThen(path: seq<string>, rest: string)
    requires path != []
    ensures Dotted(path) + rest == "." + path[0] + (Dotted(path[1..]) + rest)
    ensures var tail := Dotted(path[1..]) + rest; tail == rest || tail[0] == '.'
  {
  }

  /** Wherever a complete expression `{{x}}` stands in a text, the search
      finds it: no earlier match can swallow its opening braces. */
  lemma ContainedExpressionIsFound(w: char -> bool, s: string, i: nat, x: string)
    requires ModelsWordClass(w)
    requires IsMatch(HtmlExpr(w), s, Match(i, x, i + |x| + 4))
    ensures x in FindExpressions(w, s)
  {
    var p, m := HtmlExpr(w), Match(i, x, i + |x| + 4);
    MatchAtFindsEveryMatch(p, s, m);
    var k := CoveringMatch(p, s, i);
    var r := FindMatches(p, s, 0);
    MatchAtSound(p, s, r[k].start);
    OpeningNotInsideExpression(w, s, r[k], i);
    assert r[k] == m;
    assert Captures(r)[k] == x;
  }

  /** The found match that covers a matching position. */
  lemma CoveringMatch(p: Pattern, s: string, i: nat) returns (k: nat)
    requires i < |s| && MatchAt(p, s, i).Some?
    ensures k < |FindMatches(p, s, 0)|
    ensures FindMatches(p, s, 0)[k].start <= i < FindMatches(p, s, 0)[k].end
    ensures MatchAt(p, s, FindMatches(p, s, 0)[k].start) == Some(FindMatches(p, s, 0)[k])
  {
    FindMatchesLeftmost(p, s, 0, i);
    FindMatchesSound(p, s, 0);
    var r := FindMatches(p, s, 0);
    k :| 0 <= k < |r| && r[k].start <= i < r[k].end;
    assert Found(p, s, 0, r[k]);
  }

  /** An opening `{{` never lies strictly inside an html match. */
  lemma OpeningNotInsideExpression(w: char -> bool, s: string, m: Match, i: nat)
    requires ModelsWordClass(w) && IsMatch(HtmlExpr(w), s, m)
    requires i + 1 < |s| && s[i] == '{' && s[i + 1] == '{'
    ensures !(m.start < i < m.end)
  {
    assert !InCapture(HtmlExpr(w), '{');
  }

  /** `{{x}}` written anywhere in a text is one of its html matches. */
  lemma ExpressionInside(w: char -> bool, before: string, x: string, after: string)
    requires ModelsWordClass(w)
    requires 0 < |x| && forall c :: c in x ==> InExprClass(w, c)
    ensures x in FindExpressions(w, before + "{{" + x + "}}" + after)
  {
    var s := before + "{{" + x + "}}" + after;
    var i := |before|;
    assert s[i..i + |x| + 4] == "{{" + x + "}}";
    assert s[i + 2..i + |x| + 2] == x;
    ContainedExpressionIsFound(w, s, i, x);
  }

  /** `{{` whose run of class characters `x` ends at a character `c` other
      than `}` (a trim marker `-`, a quote) opens no expression: the search
      moves past the braces. */
  lemma UnclosedOpening(w: char -> bool, x: string, c: char, rest: string)
    requires forall d :: d in x ==> InExprClass(w, d)
    requires c != '{' && c != '}' && !InExprClass(w, c)
    ensures FindExpressions(w, "{{" + x + [c] + rest) == FindExpressions(w, x + [c] + rest)
  {
    var p, s, tail := HtmlExpr(w), "{{" + x + [c] + rest, x + [c] + rest;
    assert s == "{{" + tail;
    assert s[2 + |x|] == c && s[2..2 + |x|] == x;
    RunEndAt(p, s, 2, 2 + |x|, x);
    assert MatchAt(p, s, 0).None?;
    assert s[2] == c || s[2] in x;
    assert MatchAt(p, s, 1).None?;
    SkipUnmatched(p, s, 0, 2);
    CapturesIgnorePrefix(p, "{{", tail, 0);
  }
}
