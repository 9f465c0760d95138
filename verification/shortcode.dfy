/**
 * `extract_shortcode`: five regular expressions tried in a fixed order with
 * `re.search`, returning the first capture group of the first one that
 * matches anywhere in the URL.
 *
 * Each expression is a literal (`instagram\.com/p/` and so on) followed by
 * a greedy run, so `re.search` amounts to: the leftmost index where the
 * literal occurs and is followed by a non-empty run; the capture is the
 * maximal run. For the story expression `stories/[^/]+/(\d+)` the run of
 * non-slash characters can only be followed by `/` when it is taken whole,
 * so the regex engine has no other way to match.
 */
module Shortcode {
  import opened Wrappers
  import opened Text
  import opened Listing

  datatype Pattern = Post | Reel | Reels | Tv | Story

  /** The order in which the patterns are tried. */
  const PatternOrder: seq<Pattern> := [Post, Reel, Reels, Tv, Story]

  /** The literal part of each expression. */
  function Literal(p: Pattern): string {
    match p
    case Post => "instagram.com/p/"
    case Reel => "instagram.com/reel/"
    case Reels => "instagram.com/reels/"
    case Tv => "instagram.com/tv/"
    case Story => "instagram.com/stories/"
  }

  /** `[A-Za-z0-9_-]`. */
  predicate IsCodeChar(c: char) {
    ('A' <= c <= 'Z') || ('a' <= c <= 'z') || ('0' <= c <= '9') || c == '_' || c == '-'
  }

  datatype CharClass = CodeChars | Digits | NotSlash

  predicate InClass(k: CharClass, c: char) {
    match k
    case CodeChars => IsCodeChar(c)
    case Digits => IsDigit(c)
    case NotSlash => c != '/'
  }

  /** The class of the captured group. */
  function CaptureClass(p: Pattern): CharClass {
    if p == Story then Digits else CodeChars
  }

  /** The length of the maximal run of class `k` starting at `i` (a greedy `+` or `*`). */
  function RunLength(s: string, i: nat, k: CharClass): (n: nat)
    requires i <= |s|
    ensures i + n <= |s|
    ensures forall j :: i <= j < i + n ==> InClass(k, s[j])
    ensures i + n == |s| || !InClass(k, s[i + n])
    decreases |s| - i
  {
    if i < |s| && InClass(k, s[i]) then 1 + RunLength(s, i + 1, k) else 0
  }

  /** A captured group and the index where it starts in the URL. */
  datatype Capture = Capture(start: nat, code: string)

  /** A capture that is a maximal non-empty run of `k` in `url`. */
  predicate IsMaximalRun(url: string, c: Capture, k: CharClass) {
    && c.start + |c.code| <= |url|
    && url[c.start..c.start + |c.code|] == c.code
    && |c.code| > 0
    && (forall j :: 0 <= j < |c.code| ==> InClass(k, c.code[j]))
    && (c.start + |c.code| == |url| || !InClass(k, url[c.start + |c.code|]))
  }

  /**
   * When the expression for `p`, tried at index `i` of `url`, can match at all,
   * stated without reference to the scan.
   */
  ghost predicate RegexMatchesAt(url: string, p: Pattern, i: nat) {
    && OccursAt(url, Literal(p), i)
    && (p.Story? || CodeTailMatches(url, i + |Literal(p)|))
    && (!p.Story? || StoryTailMatches(url, i + |Literal(p)|))
  }

  /** `([A-Za-z0-9_-]+)` can match at index `j`. */
  predicate CodeTailMatches(url: string, j: nat) {
    j < |url| && IsCodeChar(url[j])
  }

  /** `[^/]+/(\d+)` can match at index `j`: a slash ends a non-empty slash-free segment and a digit follows it. */
  ghost predicate StoryTailMatches(url: string, j: nat) {
    exists e :: j < e < |url| - 1 && url[e] == '/' && IsDigit(url[e + 1]) && SlashFree(url, j, e)
  }

  predicate SlashFree(url: string, j: nat, e: int)
    requires j <= e <= |url|
  {
    forall m :: j <= m < e ==> url[m] != '/'
  }

  /**
   * `start` is just past the first `/` at or after `j`, and that slash ends
   * a non-empty slash-free segment: where `[^/]+/` starting at `j` ends.
   */
  predicate AfterFirstSlash(url: string, j: nat, start: nat) {
    j + 1 < start <= |url| && url[start - 1] == '/' && SlashFree(url, j, start - 1)
  }

  /** The capture of the expression for `p` tried at index `i`. */
  function MatchAt(url: string, p: Pattern, i: nat): (r: Option<Capture>)
    ensures r.Some? <==> RegexMatchesAt(url, p, i)
    ensures r.Some? ==> IsMaximalRun(url, r.value, CaptureClass(p))
    ensures r.Some? ==> r.value.start >= i + |Literal(p)|
    ensures r.Some? && !p.Story? ==> r.value.start == i + |Literal(p)|
    ensures r.Some? && p.Story? ==> AfterFirstSlash(url, i + |Literal(p)|, r.value.start)
  {
    if !OccursAt(url, Literal(p), i) then None
    else if p.Story? then MatchStoryTail(url, i + |Literal(p)|)
    else MatchCodeTail(url, i + |Literal(p)|)
  }

  /** `([A-Za-z0-9_-]+)` tried at index `j`. */
  function MatchCodeTail(url: string, j: nat): (r: Option<Capture>)
    requires j <= |url|
    ensures r.Some? <==> CodeTailMatches(url, j)
    ensures r.Some? ==> IsMaximalRun(url, r.value, CodeChars) && r.value.start == j
  {
    var n := RunLength(url, j, CodeChars);
    if n == 0 then None else Some(Capture(j, url[j..j + n]))
  }

  /** `[^/]+/(\d+)` tried at index `j`. */
  function MatchStoryTail(url: string, j: nat): (r: Option<Capture>)
    requires j <= |url|
    ensures r.Some? <==> StoryTailMatches(url, j)
    ensures r.Some? ==> IsMaximalRun(url, r.value, Digits) && r.value.start > j
    ensures r.Some? ==> AfterFirstSlash(url, j, r.value.start)
  {
    var u := RunLength(url, j, NotSlash);
    if u == 0 || j + u == |url| then
      assert !StoryTailMatches(url, j) by {
        if u == 0 { StoryUserRun(url, j); } else { StoryUserRunEnd(url, j); }
      }
      None
    else
      var d := RunLength(url, j + u + 1, Digits);
      if d == 0 then
        assert !StoryTailMatches(url, j) by { StoryDigitsAfterRun(url, j, u); }
        None
      else
        assert SlashFree(url, j, j + u);
        Some(Capture(j + u + 1, url[j + u + 1..j + u + 1 + d]))
  }

  /** No user segment: the `[^/]+` part cannot match. */
  lemma StoryUserRun(url: string, j: nat)
    requires j <= |url| && RunLength(url, j, NotSlash) == 0
    ensures !StoryTailMatches(url, j)
  {
  }

  /** The user segment runs to the end of the URL: no `/` follows it. */
  lemma StoryUserRunEnd(url: string, j: nat)
    requires j <= |url| && j + RunLength(url, j, NotSlash) == |url|
    ensures !StoryTailMatches(url, j)
  {
  }

  /** Every successful split of `[^/]+/` ends at the end of the maximal non-slash run. */
  lemma StoryDigitsAfterRun(url: string, j: nat, u: nat)
    requires j <= |url| && u == RunLength(url, j, NotSlash) && j + u < |url|
    requires j + u + 1 <= |url| && RunLength(url, j + u + 1, Digits) == 0
    ensures !StoryTailMatches(url, j)
  {
    forall e | j < e < |url| - 1 && url[e] == '/' && (forall m :: j <= m < e ==> url[m] != '/')
      ensures !IsDigit(url[e + 1])
    {
      assert e == j + u;
    }
  }

  /** A match found by `re.search`: where the expression started and what it captured. */
  datatype Match = Match(pos: nat, capture: Capture)

  /** The first index `k` in `i..n` at which `f(k)` holds something, with that value. */
  function ScanFrom<T>(f: nat -> Option<T>, n: nat, i: nat): (r: Option<(nat, T)>)
    ensures r.Some? ==> i <= r.value.0 <= n && f(r.value.0) == Some(r.value.1)
    ensures r.Some? ==> forall k :: i <= k < r.value.0 ==> f(k).None?
    ensures r.None? <==> forall k :: i <= k <= n ==> f(k).None?
    decreases n + 1 - i
  {
    if i > n then None
    else match f(i)
      case Some(v) => Some((i, v))
      case None => ScanFrom(f, n, i + 1)
  }

  /** `re.search` from index `i` on: the leftmost index at which the expression matches. */
  function SearchFrom(url: string, p: Pattern, i: nat): (r: Option<Match>)
    ensures r.Some? ==> i <= r.value.pos <= |url| && MatchAt(url, p, r.value.pos) == Some(r.value.capture)
    ensures r.Some? ==> forall k :: i <= k < r.value.pos ==> MatchAt(url, p, k).None?
    ensures r.None? <==> forall k :: i <= k <= |url| ==> MatchAt(url, p, k).None?
  {
    var f: nat -> Option<Capture> := (k: nat) => MatchAt(url, p, k);
    assert forall k: nat :: f(k) == MatchAt(url, p, k);
    var s := ScanFrom(f, |url|, i);
    if s.None? then None else Some(Match(s.value.0, s.value.1))
  }

  function Search(url: string, p: Pattern): Option<Match> {
    SearchFrom(url, p, 0)
  }

  /** The outcome of `re.search` for every pattern, in `PatternOrder`. */
  function Searches(url: string): (r: seq<Option<Match>>)
    ensures |r| == |PatternOrder|
    ensures forall m :: 0 <= m < |PatternOrder| ==> r[m] == Search(url, PatternOrder[m])
  {
    seq(|PatternOrder|, m requires 0 <= m < |PatternOrder| => Search(url, PatternOrder[m]))
  }

  predicate Found(o: Option<Match>) {
    o.Some?
  }

  /** Pattern number `k` is the one whose capture `extract_shortcode` returns. */
  predicate Wins(url: string, k: int) {
    FirstWhere(Searches(url), Found, k)
  }

  function CodeOf(url: string, k: int): string
    requires Wins(url, k)
  {
    Searches(url)[k].value.capture.code
  }

  /**
   * `extract_shortcode`: the capture of the first pattern in `PatternOrder`
   * that matches anywhere in the URL, whatever the positions of the others.
   */
  function ExtractShortcode(url: string): (r: Option<string>)
    ensures r.Some? ==> exists w :: Wins(url, w) && r.value == CodeOf(url, w)
    ensures r.None? <==> forall w :: 0 <= w < |PatternOrder| ==> Search(url, PatternOrder[w]).None?
  {
    var ms := Searches(url);
    match FirstIndex(ms, Found)
    case None => None
    case Some(w) =>
      assert Wins(url, w);
      Some(CodeOf(url, w))
  }

  /**
   * What `re.search` finds for one expression: the literal at the leftmost
   * index where the expression matches, followed by a maximal non-empty run
   * of `[A-Za-z0-9_-]` (of digits for a story).
   */
  lemma SearchShape(url: string, p: Pattern, m: Match)
    requires Search(url, p) == Some(m)
    ensures OccursAt(url, Literal(p), m.pos)
    ensures m.capture.start >= m.pos + |Literal(p)|
    ensures p != Story ==> m.capture.start == m.pos + |Literal(p)|
    ensures p == Story ==> AfterFirstSlash(url, m.pos + |Literal(p)|, m.capture.start)
    ensures IsMaximalRun(url, m.capture, CaptureClass(p))
    ensures forall k :: 0 <= k < m.pos ==> MatchAt(url, p, k).None?
    ensures forall j :: 0 <= j < |m.capture.code| ==> IsCodeChar(m.capture.code[j])
    ensures p == Story ==> AllDigits(m.capture.code)
  {
    assert MatchAt(url, p, m.pos) == Some(m.capture);
    CaptureShape(url, p, m.pos, m.capture);
  }

  /** What one successful try of the expression at index `i` captures. */
  lemma CaptureShape(url: string, p: Pattern, i: nat, c: Capture)
    requires MatchAt(url, p, i) == Some(c)
    ensures OccursAt(url, Literal(p), i)
    ensures p != Story ==> c.start == i + |Literal(p)|
    ensures p == Story ==> AfterFirstSlash(url, i + |Literal(p)|, c.start)
    ensures IsMaximalRun(url, c, CaptureClass(p))
    ensures forall j :: 0 <= j < |c.code| ==> IsCodeChar(c.code[j])
    ensures p == Story ==> AllDigits(c.code)
  {
    assert RegexMatchesAt(url, p, i);
    CapturedCodeChars(c.code, CaptureClass(p));
  }

  lemma CapturedCodeChars(code: string, k: CharClass)
    requires k != NotSlash
    requires forall j :: 0 <= j < |code| ==> InClass(k, code[j])
    ensures forall j :: 0 <= j < |code| ==> IsCodeChar(code[j])
    ensures k == Digits ==> AllDigits(code)
  {
  }

  /**
   * A returned shortcode is the capture of the winning pattern's leftmost
   * match: a non-empty run of `[A-Za-z0-9_-]`, of digits only for a story.
   */
  lemma ShortcodeShape(url: string, w: int)
    requires Wins(url, w)
    ensures Search(url, PatternOrder[w]).Some?
    ensures CodeOf(url, w) == Search(url, PatternOrder[w]).value.capture.code
    ensures |CodeOf(url, w)| > 0
    ensures forall j :: 0 <= j < |CodeOf(url, w)| ==> IsCodeChar(CodeOf(url, w)[j])
    ensures PatternOrder[w] == Story ==> AllDigits(CodeOf(url, w))
  {
    var p := PatternOrder[w];
    assert Searches(url)[w] == Search(url, p);
    SearchShape(url, p, Search(url, p).value);
  }

  /** The story expression cannot match a URL that lacks the `/stories/` segment. */
  lemma StoryNeedsStoriesSegment(url: string)
    requires !Contains(url, "/stories/")
    ensures Search(url, Story).None?
  {
    forall i: nat | i <= |url|
      ensures !OccursAt(url, Literal(Story), i)
    {
      if OccursAt(url, Literal(Story), i) {
        StoryLiteralHasSegment(url, i);
      }
    }
  }

  lemma StoryLiteralHasSegment(url: string, i: nat)
    requires OccursAt(url, Literal(Story), i)
    ensures Contains(url, "/stories/")
  {
    assert OccursAt(Literal(Story), "/stories/", 13);
    OccursWithin(url, Literal(Story), i, "/stories/", 13);
  }

  /**
   * Pattern order, not position, decides: once pattern `w` matches somewhere
   * and every earlier pattern matches nowhere, its capture is the result,
   * however early in the URL a later pattern would have matched.
   */
  lemma WinnerIsExtracted(url: string, w: int)
    requires Wins(url, w)
    ensures ExtractShortcode(url) == Some(CodeOf(url, w))
  {
    var r := ExtractShortcode(url);
    var v :| Wins(url, v) && r.value == CodeOf(url, v);
    FirstWhereUnique(Searches(url), Found, v, w);
  }
}
