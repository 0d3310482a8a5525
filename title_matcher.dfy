// Matching a detected title against the library: `findAnimeByTitle` and its
// helper `getSeasonNumber` (apps/desktop/src/renderer/store/useStore.ts).
// Each regular expression is a matcher at one position plus a leftmost scan.
module TitleMatcher {
  import opened Wrappers
  import opened Text
  import opened Sorting
  import opened AnimeModel

  /** The four digit-carrying season patterns of `getSeasonNumber`. */
  datatype SeasonPattern =
    | SeasonWord   // season\s+(\d+)
    | Ordinal      // (\d+)(?:st|nd|rd|th)\s+season
    | PartWord     // part\s+(\d+)
    | ShortForm    // \bs(\d+)\b

  predicate IsOrdinalSuffix(s: string, i: nat) {
    LiteralAt(s, i, "st") || LiteralAt(s, i, "nd") || LiteralAt(s, i, "rd") || LiteralAt(s, i, "th")
  }

  /** "word", white space, digits at position i: the value of the digits. */
  function WordThenNumberAt(s: string, i: nat, word: string): Option<nat>
    requires i <= |s|
  {
    if !LiteralAt(s, i, word) then None
    else
      var w := SpaceRun(s, i + |word|);
      var j := i + |word| + w;
      var d := DigitRun(s, j);
      if w == 0 || d == 0 then None else Some(ValueAt(s, j, j + d))
  }

  /** The captured number when the pattern matches at position i. */
  function MatchAt(p: SeasonPattern, s: string, i: nat): (r: Option<nat>)
    requires i <= |s|
    ensures r.Some? ==> exists k :: i <= k < |s| && IsDigit(s[k])
  {
    match p
    case SeasonWord => WordThenNumberAt(s, i, "season")
    case PartWord => WordThenNumberAt(s, i, "part")
    case Ordinal =>
      var d := DigitRun(s, i);
      var w := if i + d + 2 <= |s| then SpaceRun(s, i + d + 2) else 0;
      if d >= 1 && IsOrdinalSuffix(s, i + d) && w >= 1 && LiteralAt(s, i + d + 2 + w, "season")
      then Some(ValueAt(s, i, i + d)) else None
    case ShortForm =>
      if i < |s| && s[i] == 's' && WordBoundary(s, i) then
        var d := DigitRun(s, i + 1);
        if d >= 1 && WordBoundary(s, i + 1 + d) then Some(ValueAt(s, i + 1, i + 1 + d)) else None
      else None
  }

  /** `s.match(pattern)` scanning from position i: the leftmost match. */
  function Find(p: SeasonPattern, s: string, i: nat): (r: Option<nat>)
    requires i <= |s|
    ensures r.Some? ==> exists k :: i <= k <= |s| && MatchAt(p, s, k) == r && forall m :: i <= m < k ==> MatchAt(p, s, m).None?
    ensures r.None? ==> forall m :: i <= m <= |s| ==> MatchAt(p, s, m).None?
    ensures r.Some? ==> exists k :: i <= k < |s| && IsDigit(s[k])
    decreases |s| - i
  {
    if MatchAt(p, s, i).Some? then MatchAt(p, s, i)
    else if i == |s| then None
    else Find(p, s, i + 1)
  }

  /** A match at k with none before it is the one `match` returns. */
  lemma {:induction false} FindLeftmostAt(p: SeasonPattern, s: string, i: nat, k: nat)
    requires i <= k <= |s|
    requires MatchAt(p, s, k).Some?
    requires forall m :: i <= m < k ==> MatchAt(p, s, m).None?
    ensures Find(p, s, i) == MatchAt(p, s, k)
    decreases k - i
  {
    if i < k {
      FindLeftmostAt(p, s, i + 1, k);
    }
  }

  /** The value of a lower-case roman numeral ii..x. */
  function RomanValue(t: string): Option<nat> {
    if t == "ii" then Some(2) else if t == "iii" then Some(3) else if t == "iv" then Some(4)
    else if t == "v" then Some(5) else if t == "vi" then Some(6) else if t == "vii" then Some(7)
    else if t == "viii" then Some(8) else if t == "ix" then Some(9) else if t == "x" then Some(10)
    else None
  }

  /** Length of the longest suffix without white space. */
  function TrailingWord(s: string): (n: nat)
    ensures n <= |s|
    ensures forall k :: |s| - n <= k < |s| ==> !IsSpace(s[k])
    ensures n < |s| ==> IsSpace(s[|s| - n - 1])
  {
    if |s| > 0 && !IsSpace(s[|s| - 1]) then 1 + TrailingWord(s[..|s| - 1]) else 0
  }

  /**
   * `\s+(ii|iii|iv|v|vi|vii|viii|ix|x)$`: numerals contain no white space, so the
   * numeral can only be the text after the last white-space character.
   */
  function RomanSuffix(s: string): (r: Option<nat>)
    ensures r.Some? ==> 2 <= r.value <= 10
  {
    var n := TrailingWord(s);
    if n < |s| then RomanValue(s[|s| - n..]) else None
  }

  /**
   * `getSeasonNumber`: the first of "season N", "Nth season", "part N"; else a
   * word "sN"; else a trailing roman numeral; else null.
   */
  function GetSeasonNumber(title: string): (r: Option<nat>)
    ensures r.Some? ==> (exists k :: 0 <= k < |title| && IsDigit(Lower(title)[k])) || 2 <= r.value <= 10
  {
    var lower := Lower(title);
    var word := Find(SeasonWord, lower, 0);
    var ordinal := Find(Ordinal, lower, 0);
    var part := Find(PartWord, lower, 0);
    if word.Some? then word
    else if ordinal.Some? then ordinal
    else if part.Some? then part
    else if Find(ShortForm, lower, 0).Some? then Find(ShortForm, lower, 0)
    else RomanSuffix(lower)
  }

  /** The precedence of the digit patterns in `getSeasonNumber`. */
  function Rank(p: SeasonPattern): (n: nat)
    ensures n < 4
  {
    match p
    case SeasonWord => 0
    case Ordinal => 1
    case PartWord => 2
    case ShortForm => 3
  }

  /**
   * A title with digits: the leftmost match of a pattern decides when no
   * pattern ahead of it in the precedence matches anywhere, whatever the
   * patterns after it would find. So "season N" wins over a later "sM" word,
   * and "sN" counts only when the first three patterns find nothing.
   */
  lemma EarliestPatternDecides(title: string, p: SeasonPattern, k: nat)
    requires k <= |title|
    requires MatchAt(p, Lower(title), k).Some?
    requires forall m :: 0 <= m < k ==> MatchAt(p, Lower(title), m).None?
    requires forall q, m :: Rank(q) < Rank(p) && 0 <= m <= |title| ==> MatchAt(q, Lower(title), m).None?
    ensures GetSeasonNumber(title) == MatchAt(p, Lower(title), k)
  {
    var lower := Lower(title);
    FindLeftmostAt(p, lower, 0, k);
  }

  /** `getSeasonNumber(t) || 1`: no number, or 0, means season 1. */
  function SeasonOrFirst(n: Option<nat>): (r: nat)
    ensures r >= 1
  {
    if n.Some? && n.value != 0 then n.value else 1
  }

  lemma {:induction false} FindNeedsDigit(p: SeasonPattern, s: string, i: nat)
    requires i <= |s|
    requires forall k :: 0 <= k < |s| ==> !IsDigit(s[k])
    ensures Find(p, s, i) == None
    decreases |s| - i
  {
    if i < |s| {
      FindNeedsDigit(p, s, i + 1);
    }
  }

  /** A title without digits and without a trailing roman numeral has no season number. */
  lemma NoDigitsNoSeasonNumber(title: string)
    requires forall k :: 0 <= k < |title| ==> !IsDigit(title[k])
    requires RomanSuffix(Lower(title)).None?
    ensures GetSeasonNumber(title).None?
  {
    var lower := Lower(title);
    FindNeedsDigit(SeasonWord, lower, 0);
    FindNeedsDigit(Ordinal, lower, 0);
    FindNeedsDigit(PartWord, lower, 0);
    FindNeedsDigit(ShortForm, lower, 0);
  }

  /** A trailing roman numeral counts only when no digit pattern matched. */
  lemma RomanNumeralSeason(title: string)
    requires forall k :: 0 <= k < |title| ==> !IsDigit(title[k])
    ensures GetSeasonNumber(title) == RomanSuffix(Lower(title))
    ensures GetSeasonNumber(title).Some? ==> 2 <= GetSeasonNumber(title).value <= 10
  {
    var lower := Lower(title);
    FindNeedsDigit(SeasonWord, lower, 0);
    FindNeedsDigit(Ordinal, lower, 0);
    FindNeedsDigit(PartWord, lower, 0);
    FindNeedsDigit(ShortForm, lower, 0);
  }

  /** `title.toLowerCase() === normalized` on the romaji, English or native title. */
  predicate IsExactMatch(a: Anime, normalized: string) {
    Lower(a.title) == normalized
    || (a.titleEnglish.Some? && Lower(a.titleEnglish.value) == normalized)
    || (a.titleJapanese.Some? && Lower(a.titleJapanese.value) == normalized)
  }

  /** Containment in either direction, for a non-empty alternative title. */
  predicate Overlaps(t: string, normalized: string) {
    Contains(normalized, t) || Contains(t, normalized)
  }

  predicate TitlesOverlap(a: Anime, normalized: string) {
    var english := Lower(a.titleEnglish.OrElse(""));
    var native := Lower(a.titleJapanese.OrElse(""));
    Overlaps(Lower(a.title), normalized)
    || (english != "" && Overlaps(english, normalized))
    || (native != "" && Overlaps(native, normalized))
  }

  /** A fuzzy candidate: an overlapping title of the same season. */
  predicate IsCandidate(a: Anime, normalized: string, searchSeason: nat) {
    TitlesOverlap(a, normalized) && SeasonOrFirst(GetSeasonNumber(a.title)) == searchSeason
  }

  /** Index of the first exact match (`library.find(exact)`). */
  function FirstExactIndex(library: seq<Anime>, normalized: string): (r: Option<nat>)
    ensures r.Some? ==> r.value < |library| && IsExactMatch(library[r.value], normalized)
    ensures r.Some? ==> forall j :: 0 <= j < r.value ==> !IsExactMatch(library[j], normalized)
    ensures r.None? ==> forall j :: 0 <= j < |library| ==> !IsExactMatch(library[j], normalized)
  {
    if library == [] then None
    else if IsExactMatch(library[0], normalized) then Some(0)
    else
      match FirstExactIndex(library[1..], normalized)
      case None => None
      case Some(k) => Some(k + 1)
  }

  function FirstExact(library: seq<Anime>, normalized: string): Option<Anime> {
    match FirstExactIndex(library, normalized)
    case None => None
    case Some(k) => Some(library[k])
  }

  /** `library.filter(candidate)`. */
  function Candidates(library: seq<Anime>, normalized: string, searchSeason: nat): (r: seq<Anime>)
    ensures forall a :: a in r <==> a in library && IsCandidate(a, normalized, searchSeason)
  {
    if library == [] then []
    else
      assert forall a :: a in library ==> a == library[0] || a in library[1..];
      var rest := Candidates(library[1..], normalized, searchSeason);
      if IsCandidate(library[0], normalized, searchSeason) then [library[0]] + rest else rest
  }

  /** `|a.title.length - filenameTitle.length|`, the sort key of the candidates. */
  function LengthGap(a: Anime, filenameTitle: string): nat {
    if |a.title| >= |filenameTitle| then |a.title| - |filenameTitle| else |filenameTitle| - |a.title|
  }

  /** The query after `toLowerCase().trim()`. */
  function Normalize(filenameTitle: string): string {
    Trim(Lower(filenameTitle))
  }

  /** The mapped entry, when the mapping names an id that is in the library. */
  function MappedEntry(library: seq<Anime>, titleMappings: map<string, string>, normalized: string): Option<Anime> {
    if normalized in titleMappings && titleMappings[normalized] != "" then FindById(library, titleMappings[normalized])
    else None
  }

  /** No candidate before position i is as close as the one at i. */
  predicate IsFirstClosestAt(candidates: seq<Anime>, filenameTitle: string, i: int) {
    0 <= i < |candidates|
    && forall j :: 0 <= j < i ==> LengthGap(candidates[j], filenameTitle) > LengthGap(candidates[i], filenameTitle)
  }

  /**
   * `candidates.sort(byLengthGap)[0]`: the candidate whose title length is
   * closest to the query's, the earliest one on a tie (the sort is stable).
   */
  function ClosestCandidate(candidates: seq<Anime>, filenameTitle: string): (r: Anime)
    requires candidates != []
    ensures r in candidates
    ensures forall c :: c in candidates ==> LengthGap(r, filenameTitle) <= LengthGap(c, filenameTitle)
    ensures exists i :: IsFirstClosestAt(candidates, filenameTitle, i) && candidates[i] == r
  {
    var key := (a: Anime) => LengthGap(a, filenameTitle) as int;
    var le := (a: Anime, b: Anime) => key(a) <= key(b);
    StableSortHead(candidates, le, key);
    var i := FirstMinIndex(candidates, key);
    assert candidates[i] in candidates && IsFirstClosestAt(candidates, filenameTitle, i);
    StableSort(candidates, le)[0]
  }

  /**
   * `findAnimeByTitle`: a title mapping to an entry in the library wins, then an
   * exact case-insensitive title, then the same-season containment candidate
   * whose title length is closest to the query, earliest in the library on a tie.
   */
  function FindAnimeByTitle(library: seq<Anime>, titleMappings: map<string, string>, filenameTitle: string): (r: Option<Anime>)
    ensures r.Some? ==> r.value in library
    ensures var n := Normalize(filenameTitle);
      MappedEntry(library, titleMappings, n).Some? ==> r == MappedEntry(library, titleMappings, n)
    ensures var n := Normalize(filenameTitle);
      MappedEntry(library, titleMappings, n).None? && FirstExact(library, n).Some? ==> r == FirstExact(library, n)
    ensures var n := Normalize(filenameTitle);
      var season := SeasonOrFirst(GetSeasonNumber(n));
      var cands := Candidates(library, n, season);
      MappedEntry(library, titleMappings, n).None? && FirstExact(library, n).None? ==>
        && (r.None? <==> cands == [])
        && (r.Some? ==>
             && IsCandidate(r.value, n, season)
             && (forall c :: c in cands ==> LengthGap(r.value, filenameTitle) <= LengthGap(c, filenameTitle))
             && exists i :: IsFirstClosestAt(cands, filenameTitle, i) && cands[i] == r.value)
  {
    var normalized := Normalize(filenameTitle);
    var mapped := MappedEntry(library, titleMappings, normalized);
    if mapped.Some? then mapped
    else
      var exact := FirstExact(library, normalized);
      if exact.Some? then exact
      else
        var candidates := Candidates(library, normalized, SeasonOrFirst(GetSeasonNumber(normalized)));
        if candidates == [] then None
        else Some(ClosestCandidate(candidates, filenameTitle))
  }

  lemma SeasonWordAtFive(lower: string)
    requires lower == "show season 2"
    ensures MatchAt(SeasonWord, lower, 5) == Some(2)
  {
    assert lower[5..11] == "season";
    assert lower[11] == ' ' && lower[12] == '2';
    assert SpaceRun(lower, 12) == 0;
    assert SpaceRun(lower, 11) == 1;
    assert DigitRun(lower, 13) == 0;
    assert DigitRun(lower, 12) == 1;
    assert lower[12..13] == "2";
    assert "2"[..0] == [];
    assert DigitsValue("2") == 2;
  }

  lemma NoSeasonWordBeforeFive(lower: string)
    requires lower == "show season 2"
    ensures forall i :: 0 <= i < 5 ==> MatchAt(SeasonWord, lower, i).None?
  {
    assert lower[0..6][1] == 'h' && lower[1..7][0] == 'h' && lower[2..8][0] == 'o';
    assert lower[3..9][0] == 'w' && lower[4..10][0] == ' ';
  }

  lemma SeasonTwoExample()
    ensures GetSeasonNumber("Show Season 2") == Some(2)
  {
    var lower := Lower("Show Season 2");
    assert lower == "show season 2";
    SeasonWordAtFive(lower);
    NoSeasonWordBeforeFive(lower);
    assert Find(SeasonWord, lower, 5) == Some(2);
    assert Find(SeasonWord, lower, 4) == Some(2);
    assert Find(SeasonWord, lower, 3) == Some(2);
    assert Find(SeasonWord, lower, 2) == Some(2);
    assert Find(SeasonWord, lower, 1) == Some(2);
  }

  lemma SeasonWordAtFiveBeforeShort(lower: string)
    requires lower == "show season 2 s3"
    ensures MatchAt(SeasonWord, lower, 5) == Some(2)
    ensures forall i :: 0 <= i < 5 ==> MatchAt(SeasonWord, lower, i).None?
  {
    assert lower[5..11] == "season";
    assert lower[11] == ' ' && lower[12] == '2' && lower[13] == ' ';
    assert SpaceRun(lower, 12) == 0;
    assert SpaceRun(lower, 11) == 1;
    assert DigitRun(lower, 13) == 0;
    assert DigitRun(lower, 12) == 1;
    assert lower[12..13] == "2";
    assert "2"[..0] == [];
    assert DigitsValue("2") == 2;
    assert lower[0..6][1] == 'h' && lower[1..7][0] == 'h' && lower[2..8][0] == 'o';
    assert lower[3..9][0] == 'w' && lower[4..10][0] == ' ';
  }

  /** "Season 2" decides even though the word "S3" follows it. */
  lemma SeasonWordBeatsShortForm()
    ensures GetSeasonNumber("Show Season 2 S3") == Some(2)
  {
    var lower := Lower("Show Season 2 S3");
    assert lower == "show season 2 s3";
    SeasonWordAtFiveBeforeShort(lower);
    EarliestPatternDecides("Show Season 2 S3", SeasonWord, 5);
  }

  lemma PlainTitleExample()
    ensures GetSeasonNumber("show") == None
  {
    assert Lower("show") == "show";
    assert TrailingWord("show") == 4 by {
      assert "show"[..3] == "sho" && "sho"[..2] == "sh" && "sh"[..1] == "s" && "s"[..0] == "";
    }
    NoDigitsNoSeasonNumber("show");
  }

  lemma NormalizeExample()
    ensures Normalize("Show") == "show"
  {
    assert Lower("Show") == "show";
    assert LeadingSpace("show") == 0 && TrailingSpace("show") == 0;
    assert "show"[0..] == "show" && "show"[..4] == "show";
  }

  lemma SeasonTwoNotCandidate(entry: Anime)
    requires entry.title == "Show Season 2" && entry.titleEnglish.None? && entry.titleJapanese.None?
    ensures Candidates([entry], "show", 1) == []
    ensures FirstExact([entry], "show").None?
  {
    SeasonTwoExample();
    assert SeasonOrFirst(GetSeasonNumber(entry.title)) == 2;
    assert !IsCandidate(entry, "show", 1);
    assert |Lower(entry.title)| != |"show"|;
    assert !IsExactMatch(entry, "show");
  }

  /**
   * Season isolation: with only "Show Season 2" in the library, the query
   * "Show" (season 1) finds nothing, although the titles overlap.
   */
  lemma SeasonIsolation(entry: Anime)
    requires entry.title == "Show Season 2" && entry.titleEnglish.None? && entry.titleJapanese.None?
    ensures FindAnimeByTitle([entry], map[], "Show") == None
  {
    NormalizeExample();
    PlainTitleExample();
    SeasonTwoNotCandidate(entry);
    assert MappedEntry([entry], map[], "show").None?;
  }
}
