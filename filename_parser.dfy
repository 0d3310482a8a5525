// The filename / window-title parser of the desktop watcher and its
// duplicate-suppressing poll (apps/desktop/src/main/watcher.ts). Every
// regular expression is written out as a matcher at one position plus a
// leftmost scan, with JavaScript's backtracking resolved by hand.
module FilenameParser {
  import opened Wrappers
  import opened Text

  /** Index of the last occurrence of c in s. */
  function LastIndexOf(s: string, c: char): (r: Option<nat>)
    ensures r.Some? ==> r.value < |s| && s[r.value] == c && forall k :: r.value < k < |s| ==> s[k] != c
    ensures r.None? ==> forall k :: 0 <= k < |s| ==> s[k] != c
  {
    if s == [] then None
    else if s[|s| - 1] == c then Some(|s| - 1)
    else LastIndexOf(s[..|s| - 1], c)
  }

  /** `filename.replace(/\.[^.]*$/, '')`: everything from the last '.' onward is dropped. */
  function StripExtension(filename: string): (n: string)
    ensures StartsWith(filename, n)
    ensures (forall k :: 0 <= k < |filename| ==> filename[k] != '.') ==> n == filename
    ensures |n| < |filename| ==> filename[|n|] == '.' && forall k :: |n| < k < |filename| ==> filename[k] != '.'
  {
    match LastIndexOf(filename, '.')
    case None => filename
    case Some(i) => filename[..i]
  }

  /** The seven episode patterns, in the order they are tried. */
  datatype EpisodePattern =
    | SeasonAndEpisode  // [Ss](\d+)[Ee](\d+)
    | EpisodeWord       // [Ee]p(?:isode)?\s*(\d+)  (case-insensitive)
    | EMarker           // [Ee](\d+)(?:\s|$|\[|\(|v)
    | DashNumber        // \s-\s*(\d+)(?:\s|$|\[|\(|v)
    | BracketNumber     // \[(\d+)\](?:\s|$)
    | ParenNumber       // \((\d+)\)(?:\s|$)
    | SpaceNumber       // \s(\d+)(?:\s|$|\[|\(|v)

  const EpisodePatterns: seq<EpisodePattern> :=
    [SeasonAndEpisode, EpisodeWord, EMarker, DashNumber, BracketNumber, ParenNumber, SpaceNumber]

  /** A match of s[start..end) whose episode group has the given value. */
  datatype PatternMatch = PatternMatch(start: nat, end: nat, episode: nat)

  /** `(?:\s|$|\[|\(|v)` at position t: where the match ends. */
  function TerminatorEnd(s: string, t: nat): (r: Option<nat>)
    requires t <= |s|
    ensures r.Some? ==> t <= r.value <= |s|
  {
    if t < |s| && (IsSpace(s[t]) || s[t] == '[' || s[t] == '(' || s[t] == 'v') then Some(t + 1)
    else if t == |s| then Some(t)
    else None
  }

  /** `(?:\s|$)` at position t. */
  function SpaceOrEndAt(s: string, t: nat): (r: Option<nat>)
    requires t <= |s|
    ensures r.Some? ==> t <= r.value <= |s|
  {
    if t < |s| && IsSpace(s[t]) then Some(t + 1)
    else if t == |s| then Some(t)
    else None
  }

  /** Case-insensitive literal (ASCII), as under the `i` flag. */
  predicate LiteralAtIgnoreCase(s: string, i: nat, lit: string) {
    i + |lit| <= |s| && Lower(s[i..i + |lit|]) == lit
  }

  /** Some digit lies in s[i..j). */
  predicate DigitIn(s: string, i: nat, j: nat)
    requires i <= j <= |s|
  {
    exists k :: i <= k < j && IsDigit(s[k])
  }

  /** A match that ends after a run of d >= 1 digits at position j. */
  function DigitsMatch(s: string, i: nat, j: nat, d: nat, end: nat): (r: PatternMatch)
    requires i <= j && d >= 1 && j + d <= end <= |s|
    requires forall k :: j <= k < j + d ==> IsDigit(s[k])
    ensures r.start == i && r.end == end && DigitIn(s, i, end)
    ensures r.episode == ValueAt(s, j, j + d)
  {
    assert IsDigit(s[j]);
    PatternMatch(i, end, ValueAt(s, j, j + d))
  }

  /** The characters a match of p can start with. */
  predicate Lead(p: EpisodePattern, c: char) {
    match p
    case SeasonAndEpisode => c == 'S' || c == 's'
    case EpisodeWord => c == 'E' || c == 'e'
    case EMarker => c == 'E' || c == 'e'
    case DashNumber => IsSpace(c)
    case BracketNumber => c == '['
    case ParenNumber => c == '('
    case SpaceNumber => IsSpace(c)
  }

  /** r is a match of p that starts at position i and contains a digit. */
  predicate IsMatchAt(p: EpisodePattern, s: string, i: nat, r: Option<PatternMatch>)
    requires i < |s|
  {
    r.Some? ==> r.value.start == i && i < r.value.end <= |s| && DigitIn(s, i, r.value.end) && Lead(p, s[i])
  }

  function MatchSeasonAndEpisode(s: string, i: nat): (r: Option<PatternMatch>)
    requires i < |s|
    ensures IsMatchAt(SeasonAndEpisode, s, i, r)
  {
    var d1 := DigitRun(s, i + 1);
    if (s[i] == 'S' || s[i] == 's') && d1 >= 1 && i + 1 + d1 < |s| && (s[i + 1 + d1] == 'E' || s[i + 1 + d1] == 'e') then
      var j := i + 2 + d1;
      var d2 := DigitRun(s, j);
      if d2 >= 1 then Some(DigitsMatch(s, i, j, d2, j + d2)) else None
    else None
  }

  function MatchEpisodeWord(s: string, i: nat): (r: Option<PatternMatch>)
    requires i < |s|
    ensures IsMatchAt(EpisodeWord, s, i, r)
  {
    if i + 1 < |s| && LowerChar(s[i]) == 'e' && LowerChar(s[i + 1]) == 'p' then
      var j := if LiteralAtIgnoreCase(s, i + 2, "isode") then i + 7 else i + 2;
      var w := SpaceRun(s, j);
      var d := DigitRun(s, j + w);
      if d >= 1 then Some(DigitsMatch(s, i, j + w, d, j + w + d)) else None
    else None
  }

  function MatchEMarker(s: string, i: nat): (r: Option<PatternMatch>)
    requires i < |s|
    ensures IsMatchAt(EMarker, s, i, r)
  {
    var d := DigitRun(s, i + 1);
    if (s[i] == 'E' || s[i] == 'e') && d >= 1 && TerminatorEnd(s, i + 1 + d).Some? then
      Some(DigitsMatch(s, i, i + 1, d, TerminatorEnd(s, i + 1 + d).value))
    else None
  }

  function MatchDashNumber(s: string, i: nat): (r: Option<PatternMatch>)
    requires i < |s|
    ensures IsMatchAt(DashNumber, s, i, r)
  {
    if IsSpace(s[i]) && i + 1 < |s| && s[i + 1] == '-' then
      var w := SpaceRun(s, i + 2);
      var j := i + 2 + w;
      var d := DigitRun(s, j);
      if d >= 1 && TerminatorEnd(s, j + d).Some? then Some(DigitsMatch(s, i, j, d, TerminatorEnd(s, j + d).value))
      else None
    else None
  }

  function MatchBracketNumber(s: string, i: nat): (r: Option<PatternMatch>)
    requires i < |s|
    ensures IsMatchAt(BracketNumber, s, i, r)
  {
    var d := DigitRun(s, i + 1);
    if s[i] == '[' && d >= 1 && i + 1 + d < |s| && s[i + 1 + d] == ']' && SpaceOrEndAt(s, i + 2 + d).Some? then
      Some(DigitsMatch(s, i, i + 1, d, SpaceOrEndAt(s, i + 2 + d).value))
    else None
  }

  function MatchParenNumber(s: string, i: nat): (r: Option<PatternMatch>)
    requires i < |s|
    ensures IsMatchAt(ParenNumber, s, i, r)
  {
    var d := DigitRun(s, i + 1);
    if s[i] == '(' && d >= 1 && i + 1 + d < |s| && s[i + 1 + d] == ')' && SpaceOrEndAt(s, i + 2 + d).Some? then
      Some(DigitsMatch(s, i, i + 1, d, SpaceOrEndAt(s, i + 2 + d).value))
    else None
  }

  function MatchSpaceNumber(s: string, i: nat): (r: Option<PatternMatch>)
    requires i < |s|
    ensures IsMatchAt(SpaceNumber, s, i, r)
  {
    var d := DigitRun(s, i + 1);
    if IsSpace(s[i]) && d >= 1 && TerminatorEnd(s, i + 1 + d).Some? then
      Some(DigitsMatch(s, i, i + 1, d, TerminatorEnd(s, i + 1 + d).value))
    else None
  }

  /** The match of pattern p starting exactly at position i, if any. */
  function MatchAt(p: EpisodePattern, s: string, i: nat): (r: Option<PatternMatch>)
    requires i <= |s|
    ensures r.Some? ==> r.value.start == i && i < r.value.end <= |s|
    ensures r.Some? ==> Lead(p, s[i])
  {
    if i == |s| then None
    else
      match p
      case SeasonAndEpisode => MatchSeasonAndEpisode(s, i)
      case EpisodeWord => MatchEpisodeWord(s, i)
      case EMarker => MatchEMarker(s, i)
      case DashNumber => MatchDashNumber(s, i)
      case BracketNumber => MatchBracketNumber(s, i)
      case ParenNumber => MatchParenNumber(s, i)
      case SpaceNumber => MatchSpaceNumber(s, i)
  }

  /** Index of the first present entry of ms at or after i. */
  function FirstSomeIndex<T>(ms: seq<Option<T>>, i: nat): (r: Option<nat>)
    requires i <= |ms|
    ensures r.Some? ==> i <= r.value < |ms| && ms[r.value].Some?
    ensures r.Some? ==> forall k :: i <= k < r.value ==> ms[k].None?
    ensures r.None? ==> forall k :: i <= k < |ms| ==> ms[k].None?
    decreases |ms| - i
  {
    if i == |ms| then None
    else if ms[i].Some? then Some(i)
    else FirstSomeIndex(ms, i + 1)
  }

  /** The match of p at every position of s (the end of s included). */
  function MatchesOf(p: EpisodePattern, s: string): (ms: seq<Option<PatternMatch>>)
    ensures |ms| == |s| + 1
    ensures forall k :: 0 <= k <= |s| ==> ms[k] == MatchAt(p, s, k)
  {
    seq(|s| + 1, k requires 0 <= k <= |s| => MatchAt(p, s, k))
  }

  /** `s.match(p)` from position i: the leftmost match. */
  function Find(p: EpisodePattern, s: string, i: nat): (r: Option<PatternMatch>)
    requires i <= |s|
    ensures r.Some? ==> i <= r.value.start < r.value.end <= |s|
    ensures r.Some? ==> r == MatchAt(p, s, r.value.start)
  {
    match FirstSomeIndex(MatchesOf(p, s), i)
    case None => None
    case Some(k) => MatchAt(p, s, k)
  }

  /** Every episode pattern needs a digit inside its match. */
  lemma MatchHasDigit(p: EpisodePattern, s: string, i: nat)
    requires i < |s| && MatchAt(p, s, i).Some?
    ensures DigitIn(s, i, MatchAt(p, s, i).value.end)
  {
    match p
    case SeasonAndEpisode => assert IsMatchAt(p, s, i, MatchSeasonAndEpisode(s, i));
    case EpisodeWord => assert IsMatchAt(p, s, i, MatchEpisodeWord(s, i));
    case EMarker => assert IsMatchAt(p, s, i, MatchEMarker(s, i));
    case DashNumber => assert IsMatchAt(p, s, i, MatchDashNumber(s, i));
    case BracketNumber => assert IsMatchAt(p, s, i, MatchBracketNumber(s, i));
    case ParenNumber => assert IsMatchAt(p, s, i, MatchParenNumber(s, i));
    case SpaceNumber => assert IsMatchAt(p, s, i, MatchSpaceNumber(s, i));
  }

  /** The scan finds the leftmost position at which p matches, and nothing when there is none. */
  lemma FindIsLeftmost(p: EpisodePattern, s: string, i: nat)
    requires i <= |s|
    ensures Find(p, s, i).Some? ==> forall k :: i <= k < Find(p, s, i).value.start ==> MatchAt(p, s, k).None?
    ensures Find(p, s, i).None? ==> forall k :: i <= k <= |s| ==> MatchAt(p, s, k).None?
  {
    var ms := MatchesOf(p, s);
    var r := FirstSomeIndex(ms, i);
    if r.Some? {
      assert Find(p, s, i).value.start == r.value;
    }
  }

  /** `s.replace(p, '')` for the match m. */
  function RemoveMatch(s: string, m: PatternMatch): string
    requires m.start <= m.end <= |s|
  {
    s[..m.start] + s[m.end..]
  }

  /** The loop's state: the episode found so far and the match the title was last cut from. */
  datatype Scan = Scan(episode: Option<nat>, cut: Option<PatternMatch>)

  /** The leftmost match of each pattern in the name, in pattern order. */
  function PatternFinds(n: string): (finds: seq<Option<PatternMatch>>)
    ensures |finds| == |EpisodePatterns|
    ensures forall k :: 0 <= k < |finds| ==> finds[k] == Find(EpisodePatterns[k], n, 0)
  {
    seq(|EpisodePatterns|, k requires 0 <= k < |EpisodePatterns| => Find(EpisodePatterns[k], n, 0))
  }

  /** Every match in finds lies inside n. */
  predicate FitsIn(n: string, finds: seq<Option<PatternMatch>>) {
    forall k :: 0 <= k < |finds| && finds[k].Some? ==> finds[k].value.start <= finds[k].value.end <= |n|
  }

  /** The cut lies inside n. */
  predicate CutFits(n: string, state: Scan) {
    state.cut.Some? ==> state.cut.value.start <= state.cut.value.end <= |n|
  }

  /** The loop's `title`: the name, or the name without the last match, trimmed. */
  function ScanTitle(n: string, state: Scan): string
    requires CutFits(n, state)
  {
    match state.cut
    case None => n
    case Some(m) => Trim(RemoveMatch(n, m))
  }

  /**
   * The pattern loop from pattern k on, given each pattern's match: a matching
   * pattern sets the episode and cuts its match from the name; a nonzero
   * episode stops the loop.
   */
  function ScanFrom(n: string, finds: seq<Option<PatternMatch>>, k: nat, state: Scan): (r: Scan)
    requires FitsIn(n, finds) && CutFits(n, state)
    ensures CutFits(n, r)
    decreases |finds| - k
  {
    if k >= |finds| then state
    else
      match finds[k]
      case None => ScanFrom(n, finds, k + 1, state)
      case Some(m) =>
        if m.episode != 0 then Scan(Some(m.episode), Some(m))
        else ScanFrom(n, finds, k + 1, Scan(Some(m.episode), Some(m)))
  }

  /** Index of the first character at or after j that is `close` or ends the line (`.*?` stops there). */
  function FirstClose(t: string, j: nat, close: char): (r: Option<nat>)
    ensures r.Some? ==> j <= r.value < |t| && t[r.value] == close
    ensures r.Some? ==> forall k :: j <= k < r.value ==> !IsLineTerminator(t[k]) && t[k] != close
    decreases |t| - j
  {
    if j >= |t| then None
    else if t[j] == close then Some(j)
    else if IsLineTerminator(t[j]) then None
    else FirstClose(t, j + 1, close)
  }

  /** `t.replace(/^\[.*?\]\s*\/, '')`: one leading bracket group and the white space after it. */
  function StripLeadingGroup(t: string): (r: string)
    ensures EndsWith(t, r)
    ensures |t| > 0 && t[0] == '[' && FirstClose(t, 1, ']').Some? ==>
      |r| < |t| && (r == [] || !IsSpace(r[0]))
    ensures !(|t| > 0 && t[0] == '[') ==> r == t
  {
    if |t| > 0 && t[0] == '[' then
      match FirstClose(t, 1, ']')
      case None => t
      case Some(k) => t[k + 1 + SpaceRun(t, k + 1)..]
    else t
  }

  predicate AllSpaceFrom(t: string, j: nat) {
    forall k :: j <= k < |t| ==> IsSpace(t[k])
  }

  /** `.*?\]\s*$` from position j: some later `close` is followed only by white space, with no line break before it. */
  predicate ClosesToEnd(t: string, j: nat, close: char)
    decreases |t| - j
  {
    j < |t| && ((t[j] == close && AllSpaceFrom(t, j + 1)) || (!IsLineTerminator(t[j]) && ClosesToEnd(t, j + 1, close)))
  }

  /** Leftmost start of `\s*\[.*?\]\s*$` (for the given brackets) at or after i. */
  function TrailingGroupStart(t: string, open: char, close: char, i: nat): (r: Option<nat>)
    requires i <= |t|
    ensures r.Some? ==> i <= r.value <= |t|
    decreases |t| - i
  {
    var w := SpaceRun(t, i);
    if i + w < |t| && t[i + w] == open && ClosesToEnd(t, i + w + 1, close) then Some(i)
    else if i == |t| then None
    else TrailingGroupStart(t, open, close, i + 1)
  }

  /** `t.replace(/\s*\[.*?\]\s*$/, '')` and its parenthesis twin: the match reaches the end, so the rest is cut off. */
  function StripTrailingGroup(t: string, open: char, close: char): (r: string)
    ensures StartsWith(t, r)
  {
    match TrailingGroupStart(t, open, close, 0)
    case None => t
    case Some(i) => t[..i]
  }

  /** Leftmost start of `\s*-\s*$` at or after i. */
  function TrailingDashStart(t: string, i: nat): (r: Option<nat>)
    requires i <= |t|
    ensures r.Some? ==> i <= r.value <= |t|
    decreases |t| - i
  {
    var w := SpaceRun(t, i);
    if i + w < |t| && t[i + w] == '-' && AllSpaceFrom(t, i + w + 1) then Some(i)
    else if i == |t| then None
    else TrailingDashStart(t, i + 1)
  }

  function StripTrailingDash(t: string): (r: string)
    ensures StartsWith(t, r)
  {
    match TrailingDashStart(t, 0)
    case None => t
    case Some(i) => t[..i]
  }

  predicate DoubleSpaceAt(r: string, k: nat)
    requires k + 1 < |r|
  {
    r[k] == ' ' && r[k + 1] == ' '
  }

  /** `t.replace(/\s+/g, ' ')`: every run of white space becomes one space. */
  function CollapseSpaces(t: string): (r: string)
    ensures |r| <= |t|
    ensures forall k :: 0 <= k < |r| && IsSpace(r[k]) ==> r[k] == ' '
    ensures forall k :: 0 <= k < |r| - 1 ==> !DoubleSpaceAt(r, k)
    ensures (|t| > 0 && !IsSpace(t[0])) ==> |r| > 0 && r[0] == t[0]
    decreases |t|
  {
    if t == [] then []
    else if IsSpace(t[0]) then
      var n := SpaceRun(t, 0);
      var rest := CollapseSpaces(t[n..]);
      assert n == |t| || !IsSpace(t[n..][0]);
      NoDoubleSpaceCons(' ', rest);
      [' '] + rest
    else
      var rest := CollapseSpaces(t[1..]);
      NoDoubleSpaceCons(t[0], rest);
      [t[0]] + rest
  }

  lemma NoDoubleSpaceCons(c: char, rest: string)
    requires forall k :: 0 <= k < |rest| - 1 ==> !DoubleSpaceAt(rest, k)
    requires c == ' ' ==> rest == [] || rest[0] != ' '
    ensures forall k :: 0 <= k < |[c] + rest| - 1 ==> !DoubleSpaceAt([c] + rest, k)
  {
    var r := [c] + rest;
    forall k | 0 <= k < |r| - 1
      ensures !DoubleSpaceAt(r, k)
    {
      if k > 0 {
        assert r[k] == rest[k - 1] && r[k + 1] == rest[k];
        assert !DoubleSpaceAt(rest, k - 1);
      }
    }
  }

  /** The cleanup chain applied to the title after the pattern loop. */
  function CleanTitle(t: string): string {
    CleanAfterGroup(StripLeadingGroup(t))
  }

  /** The steps of the cleanup chain after the leading group is gone. */
  function CleanAfterGroup(t: string): string {
    Trim(CollapseSpaces(StripTrailingDash(StripTrailingGroup(StripTrailingGroup(t, '[', ']'), '(', ')'))))
  }

  /** `t.replace(/\[.*?\]/g, '')` and its parenthesis twin: every complete group on one line is removed. */
  function RemoveGroups(t: string, open: char, close: char): (r: string)
    ensures |r| <= |t|
    decreases |t|
  {
    if t == [] then []
    else if t[0] == open && FirstClose(t, 1, close).Some? then
      RemoveGroups(t[FirstClose(t, 1, close).value + 1..], open, close)
    else [t[0]] + RemoveGroups(t[1..], open, close)
  }

  /** The fallback title: the extension-less name without any bracket or parenthesis group. */
  function FallbackTitle(n: string): string {
    Trim(RemoveGroups(RemoveGroups(n, '[', ']'), '(', ')'))
  }

  /** The parser's result: absent title or episode stand for null. */
  datatype ParsedName = ParsedName(title: Option<string>, episode: Option<nat>)

  /** What `parseAnimeFilename` returns. */
  function ParseFilename(filename: string): (r: ParsedName)
    ensures r.episode.Some? ==> r.episode.value > 0
    ensures r.title.Some? ==> r.title.value != []
  {
    var n := StripExtension(filename);
    var scan := ScanFrom(n, PatternFinds(n), 0, Scan(None, None));
    var found := scan.episode.Some? && scan.episode.value != 0;
    var cleaned := CleanTitle(ScanTitle(n, scan));
    var title := if found && |cleaned| < 2 then FallbackTitle(n) else cleaned;
    ParsedName(if title == [] then None else Some(title), if found then scan.episode else None)
  }

  /** `parseAnimeFilename`: the pattern loop, then the cleanup chain and the fallback. */
  method ParseAnimeFilename(filename: string) returns (r: ParsedName)
    ensures r == ParseFilename(filename)
  {
    var nameWithoutExt := StripExtension(filename);
    var episode: Option<nat> := None;
    var title := nameWithoutExt;
    ghost var finds := PatternFinds(nameWithoutExt);
    ghost var cut: Option<PatternMatch> := None;
    var k := 0;
    while k < |EpisodePatterns|
      invariant 0 <= k <= |EpisodePatterns|
      invariant episode.None? || episode.value == 0
      invariant CutFits(nameWithoutExt, Scan(episode, cut)) && title == ScanTitle(nameWithoutExt, Scan(episode, cut))
      invariant ScanFrom(nameWithoutExt, finds, k, Scan(episode, cut)) == ScanFrom(nameWithoutExt, finds, 0, Scan(None, None))
    {
      var m := Find(EpisodePatterns[k], nameWithoutExt, 0);
      ScanFromStep(nameWithoutExt, finds, k, Scan(episode, cut));
      if m.Some? {
        episode := Some(m.value.episode);
        cut := m;
        title := Trim(RemoveMatch(nameWithoutExt, m.value));
        if m.value.episode != 0 {
          break;
        }
      }
      k := k + 1;
    }
    title := CleanTitle(title);
    if episode.Some? && episode.value != 0 && |title| < 2 {
      title := FallbackTitle(nameWithoutExt);
    }
    r := ParsedName(if title == [] then None else Some(title),
                    if episode.Some? && episode.value != 0 then episode else None);
  }

  /** One step of the pattern loop. */
  lemma ScanFromStep(n: string, finds: seq<Option<PatternMatch>>, k: nat, state: Scan)
    requires FitsIn(n, finds) && CutFits(n, state) && k < |finds|
    ensures finds[k].None? ==> ScanFrom(n, finds, k, state) == ScanFrom(n, finds, k + 1, state)
    ensures finds[k].Some? && finds[k].value.episode != 0 ==>
      ScanFrom(n, finds, k, state) == Scan(Some(finds[k].value.episode), finds[k])
    ensures finds[k].Some? && finds[k].value.episode == 0 ==>
      ScanFrom(n, finds, k, state) == ScanFrom(n, finds, k + 1, Scan(Some(0), finds[k]))
  {
  }

  // ----- properties -----

  /** Absent entries are skipped by the search for the first present one. */
  lemma {:induction false} FirstSomeSkip<T>(ms: seq<Option<T>>, i: nat, j: nat)
    requires i <= j <= |ms|
    requires forall k :: i <= k < j ==> ms[k].None?
    ensures FirstSomeIndex(ms, i) == FirstSomeIndex(ms, j)
    decreases j - i
  {
    if i < j {
      FirstSomeSkip(ms, i + 1, j);
    }
  }

  /** A position where p does not match passes the scan on to the next one. */
  lemma NoMatchStep(p: EpisodePattern, s: string, i: nat)
    requires i < |s| && (!Lead(p, s[i]) || MatchAt(p, s, i).None?)
    ensures Find(p, s, i) == Find(p, s, i + 1)
  {
    var ms := MatchesOf(p, s);
    assert ms[i].None?;
    FirstSomeSkip(ms, i, i + 1);
  }

  /** Positions whose character cannot start a match are skipped by the scan. */
  lemma SkipNonLeads(p: EpisodePattern, s: string, i: nat, j: nat)
    requires i <= j <= |s|
    requires forall k :: i <= k < j ==> !Lead(p, s[k])
    ensures Find(p, s, i) == Find(p, s, j)
  {
    var ms := MatchesOf(p, s);
    forall k | i <= k < j
      ensures ms[k].None?
    {
      assert !Lead(p, s[k]);
    }
    FirstSomeSkip(ms, i, j);
  }

  /** A pattern whose lead character does not occur from position i on finds nothing there. */
  lemma NoLeadNoMatch(p: EpisodePattern, s: string, i: nat)
    requires i <= |s|
    requires forall k :: i <= k < |s| ==> !Lead(p, s[k])
    ensures Find(p, s, i).None?
  {
    SkipNonLeads(p, s, i, |s|);
    assert MatchAt(p, s, |s|).None?;
  }

  /** With no match at all the loop leaves its state alone. */
  lemma {:induction false} NoFindsScan(n: string, finds: seq<Option<PatternMatch>>, k: nat, state: Scan)
    requires FitsIn(n, finds) && CutFits(n, state)
    requires forall i :: 0 <= i < |finds| ==> finds[i].None?
    ensures ScanFrom(n, finds, k, state) == state
    decreases |finds| - k
  {
    if k < |finds| {
      NoFindsScan(n, finds, k + 1, state);
    }
  }

  /** Without digits in the filename there is no episode number. */
  lemma NoDigitsNoEpisode(filename: string)
    requires forall i :: 0 <= i < |filename| ==> !IsDigit(filename[i])
    ensures ParseFilename(filename).episode.None?
  {
    var n := StripExtension(filename);
    assert forall i :: 0 <= i < |n| ==> n[i] == filename[i];
    var finds := PatternFinds(n);
    forall i | 0 <= i < |finds|
      ensures finds[i].None?
    {
      var m := Find(EpisodePatterns[i], n, 0);
      if m.Some? {
        MatchHasDigit(EpisodePatterns[i], n, m.value.start);
      }
    }
    NoFindsScan(n, finds, 0, Scan(None, None));
  }

  /**
   * The first pattern (in order) that matches with a nonzero episode decides
   * the episode and the title, whatever the patterns after it would say.
   */
  lemma {:induction false} FirstNonzeroPatternWins(n: string, finds: seq<Option<PatternMatch>>, j: nat, k: nat, state: Scan, m: PatternMatch)
    requires FitsIn(n, finds) && CutFits(n, state)
    requires j <= k < |finds|
    requires finds[k] == Some(m) && m.episode != 0
    requires forall i :: j <= i < k ==> finds[i].None? || finds[i].value.episode == 0
    ensures ScanFrom(n, finds, j, state) == Scan(Some(m.episode), Some(m))
    decreases k - j
  {
    if j < k {
      match finds[j]
      case None => FirstNonzeroPatternWins(n, finds, j + 1, k, state, m);
      case Some(mj) => FirstNonzeroPatternWins(n, finds, j + 1, k, Scan(Some(mj.episode), Some(mj)), m);
    }
  }

  /** `.*?` stops at the first closing character. */
  lemma {:induction false} FirstCloseIs(t: string, j: nat, close: char, k: nat)
    requires j <= k < |t| && t[k] == close
    requires forall m :: j <= m < k ==> t[m] != close && !IsLineTerminator(t[m])
    ensures FirstClose(t, j, close) == Some(k)
    decreases k - j
  {
    if j < k {
      FirstCloseIs(t, j + 1, close, k);
    }
  }

  /** Without an opening character there is no trailing group to strip. */
  lemma {:induction false} NoOpenNoTrailingGroup(t: string, open: char, close: char, i: nat)
    requires i <= |t|
    requires forall k :: i <= k < |t| ==> t[k] != open
    ensures TrailingGroupStart(t, open, close, i).None?
    decreases |t| - i
  {
    if i < |t| {
      NoOpenNoTrailingGroup(t, open, close, i + 1);
    }
  }

  /** Without a dash there is no trailing dash to strip. */
  lemma {:induction false} NoDashNoTrailingDash(t: string, i: nat)
    requires i <= |t|
    requires forall k :: i <= k < |t| ==> t[k] != '-'
    ensures TrailingDashStart(t, i).None?
    decreases |t| - i
  {
    if i < |t| {
      NoDashNoTrailingDash(t, i + 1);
    }
  }

  /** A title without white space is left alone by the collapse. */
  lemma {:induction false} CollapseWithoutSpace(t: string)
    requires forall k :: 0 <= k < |t| ==> !IsSpace(t[k])
    ensures CollapseSpaces(t) == t
    decreases |t|
  {
    if t != [] {
      CollapseWithoutSpace(t[1..]);
    }
  }

  /** A plain word (no white space, brackets or dashes) survives the cleanup unchanged. */
  lemma CleanPlainWord(t: string)
    requires t != [] && t[0] != '['
    requires forall k :: 0 <= k < |t| ==> !IsSpace(t[k]) && t[k] != '[' && t[k] != '(' && t[k] != '-'
    ensures StripLeadingGroup(t) == t && CleanAfterGroup(t) == t
    ensures CleanTitle(t) == t
  {
    assert StripLeadingGroup(t) == t;
    NoOpenNoTrailingGroup(t, '[', ']', 0);
    assert StripTrailingGroup(t, '[', ']') == t;
    NoOpenNoTrailingGroup(t, '(', ')', 0);
    assert StripTrailingGroup(t, '(', ')') == t;
    NoDashNoTrailingDash(t, 0);
    assert StripTrailingDash(t) == t;
    CollapseWithoutSpace(t);
    TrimUnspaced(t);
  }

  /** Trimming leaves a string without white space at its ends alone. */
  lemma TrimUnspaced(t: string)
    requires t != [] && !IsSpace(t[0]) && !IsSpace(t[|t| - 1])
    ensures Trim(t) == t
  {
    assert LeadingSpace(t) == 0;
    assert TrailingSpace(t) == 0;
  }

  // "[Group] Title - 05": the episode comes from the " - N" pattern and the
  // leading group goes in the cleanup. The string is a parameter pinned by
  // the precondition so that the proofs unfold the definitions step by step.
  const ExampleName: string := "[Group] Title - 05"

  lemma ExampleLeads(s: string)
    requires s == ExampleName
    ensures forall k :: 0 <= k < |s| ==> !Lead(SeasonAndEpisode, s[k])
    ensures forall k :: 0 <= k < 12 ==> !Lead(EpisodeWord, s[k]) && !Lead(EMarker, s[k])
    ensures forall k :: 13 <= k < |s| ==> !Lead(EpisodeWord, s[k]) && !Lead(EMarker, s[k])
    ensures forall k :: 0 <= k < 7 ==> !Lead(DashNumber, s[k])
    ensures forall k :: 8 <= k < 13 ==> !Lead(DashNumber, s[k])
  {
  }

  lemma ExampleNoMatchAtE(s: string)
    requires s == ExampleName
    ensures MatchAt(EpisodeWord, s, 12).None? && MatchAt(EMarker, s, 12).None?
  {
    assert !IsDigit(s[13]);
  }

  lemma ExampleNoDashAt7(s: string)
    requires s == ExampleName
    ensures MatchAt(DashNumber, s, 7).None?
  {
    assert s[8] == 'T';
  }

  lemma ExampleDashAt13(s: string)
    requires s == ExampleName
    ensures MatchAt(DashNumber, s, 13) == Some(PatternMatch(13, 18, 5))
  {
    assert !IsSpace(s[16]);
    assert SpaceRun(s, 15) == 1;
    assert DigitRun(s, 16) == 2 by {
      assert IsDigit(s[16]) && IsDigit(s[17]);
    }
    assert s[16..18] == "05";
    assert DigitsValue("05") == 5 by {
      assert "05"[..1] == "0";
    }
    assert ValueAt(s, 16, 18) == 5;
  }

  lemma ExampleNoLetterPatterns(s: string)
    requires s == ExampleName
    ensures Find(SeasonAndEpisode, s, 0).None?
    ensures Find(EpisodeWord, s, 0).None?
    ensures Find(EMarker, s, 0).None?
  {
    ExampleLeads(s);
    ExampleNoMatchAtE(s);
    NoLeadNoMatch(SeasonAndEpisode, s, 0);
    SkipNonLeads(EpisodeWord, s, 0, 12);
    NoMatchStep(EpisodeWord, s, 12);
    NoLeadNoMatch(EpisodeWord, s, 13);
    SkipNonLeads(EMarker, s, 0, 12);
    NoMatchStep(EMarker, s, 12);
    NoLeadNoMatch(EMarker, s, 13);
  }

  lemma ExampleDashFind(s: string)
    requires s == ExampleName
    ensures Find(DashNumber, s, 0) == Some(PatternMatch(13, 18, 5))
  {
    ExampleLeads(s);
    ExampleNoDashAt7(s);
    ExampleDashAt13(s);
    SkipNonLeads(DashNumber, s, 0, 7);
    NoMatchStep(DashNumber, s, 7);
    SkipNonLeads(DashNumber, s, 8, 13);
  }

  lemma ExamplePatterns(s: string)
    requires s == ExampleName
    ensures Find(SeasonAndEpisode, s, 0).None?
    ensures Find(EpisodeWord, s, 0).None?
    ensures Find(EMarker, s, 0).None?
    ensures Find(DashNumber, s, 0) == Some(PatternMatch(13, 18, 5))
  {
    ExampleNoLetterPatterns(s);
    ExampleDashFind(s);
  }

  lemma ExampleTrimmedTitle(s: string)
    requires s == ExampleName
    ensures Trim(RemoveMatch(s, PatternMatch(13, 18, 5))) == "[Group] Title"
  {
    var t := s[..13];
    assert s[18..] == [];
    assert RemoveMatch(s, PatternMatch(13, 18, 5)) == t;
    assert t == "[Group] Title";
    TrimUnspaced(t);
  }

  lemma ExampleLeadingGroup(t: string)
    requires t == "[Group] Title"
    ensures StripLeadingGroup(t) == "Title"
  {
    FirstCloseIs(t, 1, ']', 6);
    assert SpaceRun(t, 7) == 1 by { assert IsSpace(t[7]) && !IsSpace(t[8]); }
    assert t[8..] == "Title";
  }

  lemma ExamplePlainTitle(t: string)
    requires t == "Title"
    ensures CleanAfterGroup(t) == t
  {
    CleanPlainWord(t);
  }

  lemma ExampleCleanup(s: string)
    requires s == ExampleName
    ensures CleanTitle(Trim(RemoveMatch(s, PatternMatch(13, 18, 5)))) == "Title"
  {
    var t := Trim(RemoveMatch(s, PatternMatch(13, 18, 5)));
    ExampleTrimmedTitle(s);
    ExampleLeadingGroup(t);
    ExamplePlainTitle("Title");
  }

  /** The first four patterns, in order. */
  lemma FirstFourFinds(n: string)
    ensures PatternFinds(n)[0] == Find(SeasonAndEpisode, n, 0) && PatternFinds(n)[1] == Find(EpisodeWord, n, 0)
    ensures PatternFinds(n)[2] == Find(EMarker, n, 0) && PatternFinds(n)[3] == Find(DashNumber, n, 0)
  {
    assert EpisodePatterns[0] == SeasonAndEpisode && EpisodePatterns[1] == EpisodeWord;
    assert EpisodePatterns[2] == EMarker && EpisodePatterns[3] == DashNumber;
  }

  /** When only the " - N" pattern matches among the first four, its match decides the scan. */
  lemma DashNumberDecides(n: string, m: PatternMatch)
    requires Find(SeasonAndEpisode, n, 0).None? && Find(EpisodeWord, n, 0).None? && Find(EMarker, n, 0).None?
    requires Find(DashNumber, n, 0) == Some(m) && m.episode != 0
    ensures ScanFrom(n, PatternFinds(n), 0, Scan(None, None)) == Scan(Some(m.episode), Some(m))
  {
    var finds := PatternFinds(n);
    FirstFourFinds(n);
    assert forall i :: 0 <= i < 3 ==> finds[i].None?;
    FirstNonzeroPatternWins(n, finds, 0, 3, Scan(None, None), m);
  }

  lemma ExampleScan(n: string)
    requires n == ExampleName
    ensures ScanFrom(n, PatternFinds(n), 0, Scan(None, None)) == Scan(Some(5), Some(PatternMatch(13, 18, 5)))
  {
    ExamplePatterns(n);
    DashNumberDecides(n, PatternMatch(13, 18, 5));
  }

  /** "[Group] Title - 05" parses as title "Title", episode 5. */
  lemma ExampleParse(filename: string)
    requires filename == ExampleName
    ensures ParseFilename(filename) == ParsedName(Some("Title"), Some(5))
  {
    assert StripExtension(filename) == filename;
    ExampleScan(filename);
    ExampleCleanup(filename);
  }
}
