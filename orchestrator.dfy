// The decisions the desktop renderer takes for each detected episode
// (apps/desktop/src/renderer/components/Layout.tsx, `handleTrackingUpdate`
// and `handleAnimeMatch`): which entry a detection belongs to, whether the
// AniList search result may be accepted without asking, which season of the
// franchise the episode lands in, and what progress is submitted. The store
// actions the handlers call are returned, in order, as a list of calls; the
// AniList search result and the relation lookup behind the franchise timeline
// are inputs.
module TrackingOrchestrator {
  import opened Wrappers
  import opened Text
  import opened AnimeModel
  import LibraryStore
  import TitleMatcher
  import SeasonEpisode
  import FranchiseResolver
  import AniListService
  import Sequences

  /** The `tracking:detected` payload (the optional fields the handler reads). */
  datatype TrackingUpdate = TrackingUpdate(
    title: string,
    episode: int,
    overallEpisode: Option<int>,
    seasonNumber: Option<int>
  )

  /** A store action the handler awaits. */
  datatype StoreCall =
    | AddToLibrary(anime: Anime)                                  // addToLibrary(anime, 'watching')
    | AddMapping(filenameTitle: string, anilistId: string)        // addMapping(title, id)
    | UpdateProgress(animeId: string, updates: LibraryStore.Updates)  // updateProgress(id, updates, 'desktop')

  /** A JavaScript number used as a condition: present and not 0. */
  predicate Truthy(n: Option<int>) {
    n.Some? && n.value != 0
  }

  // ---------------------------------------------------------------------
  // The hand-written regular expressions, on a lower-cased title t.

  /** `/word\s+[lo-9]/` at position i: the word, white space, then a digit from lo to 9. */
  predicate WordNumberAt(t: string, i: nat, word: string, lo: char) {
    LiteralAt(t, i, word) &&
    var j := i + |word| + SpaceRun(t, i + |word|);
    j > i + |word| && j < |t| && lo <= t[j] <= '9'
  }

  predicate HasWordNumber(t: string, word: string, lo: char) {
    exists i: nat :: i <= |t| && WordNumberAt(t, i, word, lo)
  }

  /** `/\s+s\d+/` at position i: white space, 's', a digit. */
  predicate SpacedShortAt(t: string, i: nat) {
    i + 2 < |t| && IsSpace(t[i]) && t[i + 1] == 's' && IsDigit(t[i + 2])
  }

  predicate HasSpacedShort(t: string) {
    exists i: nat :: i < |t| && SpacedShortAt(t, i)
  }

  /** `/\btok\b/` at position i. */
  predicate TokenAt(t: string, i: nat, tok: string) {
    LiteralAt(t, i, tok) && WordBoundary(t, i) && WordBoundary(t, i + |tok|)
  }

  predicate HasToken(t: string, tok: string) {
    exists i: nat :: i <= |t| && TokenAt(t, i, tok)
  }

  /** `/\bs[2-9]\b/` at position i. */
  predicate LaterShortAt(t: string, i: nat) {
    i + 2 <= |t| && t[i] == 's' && '2' <= t[i + 1] <= '9' && WordBoundary(t, i) && WordBoundary(t, i + 2)
  }

  predicate HasLaterShort(t: string) {
    exists i: nat :: i < |t| && LaterShortAt(t, i)
  }

  // ---------------------------------------------------------------------
  // The three season checks.

  /** The check of season 2 and later: "season N", the word "sN" or "part N". */
  predicate NamesSeason(t: string, n: int) {
    Contains(t, "season " + IntToString(n))
    || HasToken(t, "s" + IntToString(n))
    || Contains(t, "part " + IntToString(n))
  }

  /**
   * First check of a library match: season 1 accepts a title without any
   * season or part number, or one naming season 1; a later season needs its
   * number, where " sN " and " sN:" are also accepted.
   */
  predicate LibraryMatchVerified(t: string, n: int) {
    if n == 1 then
      (!HasWordNumber(t, "season", '0') && !HasSpacedShort(t) && !HasWordNumber(t, "part", '0'))
      || Contains(t, "season 1") || Contains(t, " s1") || Contains(t, "part 1")
    else
      NamesSeason(t, n)
      || Contains(t, " s" + IntToString(n) + " ")
      || Contains(t, " s" + IntToString(n) + ":")
  }

  /** The filter on AniList search results. */
  predicate SearchResultAccepted(t: string, n: int) {
    if n == 1 then
      (!HasWordNumber(t, "season", '0') && !HasSpacedShort(t))
      || Contains(t, "season 1") || HasToken(t, "s1") || Contains(t, "part 1")
    else
      NamesSeason(t, n)
  }

  /** The safeguard run before any update: season 1 only rejects titles naming a season from 2 to 9. */
  predicate SeasonSafeguard(t: string, n: int) {
    if n == 1 then
      (!HasWordNumber(t, "season", '2') && !HasLaterShort(t))
      || Contains(t, "season 1") || HasToken(t, "s1")
    else
      NamesSeason(t, n)
  }

  /** A " sN " or " sN:" inside a title is also the word "sN". */
  lemma DelimitedShortIsToken(t: string, n: nat, delimiter: char)
    requires delimiter == ' ' || delimiter == ':'
    requires Contains(t, " s" + NatToString(n) + [delimiter])
    ensures HasToken(t, "s" + NatToString(n))
  {
    var tok := "s" + NatToString(n);
    var sub := " s" + NatToString(n) + [delimiter];
    assert sub == [' '] + tok + [delimiter];
    var j := ContainsWitness(t, sub);
    assert t[j..j + |sub|] == sub;
    assert t[j + 1..j + 1 + |tok|] == tok by {
      forall k | 0 <= k < |tok|
        ensures t[j + 1 + k] == tok[k]
      {
        assert t[j + 1 + k] == t[j..j + |sub|][1 + k] == sub[1 + k];
      }
    }
    assert t[j] == sub[0] == ' ';
    assert t[j + 1 + |tok|] == sub[1 + |tok|] == delimiter;
    assert tok[|tok| - 1] == NatToString(n)[|NatToString(n)| - 1];
    assert IsDigit(t[j + |tok|]);
    assert TokenAt(t, j + 1, tok);
  }

  /** For season 2 and later the three checks agree: the extra forms of the first one add nothing. */
  lemma LaterSeasonChecksAgree(t: string, n: int)
    requires n >= 2
    ensures LibraryMatchVerified(t, n) == NamesSeason(t, n)
    ensures SearchResultAccepted(t, n) == NamesSeason(t, n)
    ensures SeasonSafeguard(t, n) == NamesSeason(t, n)
  {
    if Contains(t, " s" + IntToString(n) + " ") {
      assert " s" + IntToString(n) + " " == " s" + NatToString(n) + [' '];
      DelimitedShortIsToken(t, n, ' ');
    }
    if Contains(t, " s" + IntToString(n) + ":") {
      assert " s" + IntToString(n) + ":" == " s" + NatToString(n) + [':'];
      DelimitedShortIsToken(t, n, ':');
    }
  }

  /** Any string containing `pre + s` contains s. */
  lemma ContainsSuffixPart(t: string, pre: string, s: string)
    requires Contains(t, pre + s)
    ensures Contains(t, s)
  {
    var j := ContainsWitness(t, pre + s);
    assert t[j + |pre|..j + |pre| + |s|] == s by {
      forall k | 0 <= k < |s|
        ensures t[j + |pre| + k] == s[k]
      {
        assert t[j + |pre| + k] == t[j..j + |pre| + |s|][|pre| + k] == (pre + s)[|pre| + k];
      }
    }
    ContainsAt(t, s, j + |pre|);
  }

  /** A title passes the check of season N (N >= 2) only if it contains N's digits. */
  lemma SafeguardNeedsNumber(t: string, n: int)
    requires n >= 2 && SeasonSafeguard(t, n)
    ensures Contains(t, NatToString(n))
  {
    var digits := NatToString(n);
    assert IntToString(n) == digits;
    if Contains(t, "season " + digits) {
      ContainsSuffixPart(t, "season ", digits);
    } else if Contains(t, "part " + digits) {
      ContainsSuffixPart(t, "part ", digits);
    } else {
      var i: nat :| i <= |t| && TokenAt(t, i, "s" + digits);
      ContainsAt(t, "s" + digits, i);
      ContainsSuffixPart(t, "s", digits);
    }
  }

  /** A title without digits contains nothing that starts with a digit. */
  lemma {:induction false} DigitFreeContainsNoNumber(t: string, s: string)
    requires |s| > 0 && IsDigit(s[0])
    requires forall k :: 0 <= k < |t| ==> !IsDigit(t[k])
    ensures !Contains(t, s)
    decreases |t|
  {
    if 0 < |s| <= |t| {
      assert t[..|s|][0] == t[0];
    }
    if |t| > 0 {
      DigitFreeContainsNoNumber(t[1..], s);
    }
  }

  /**
   * A title without any digit is taken for season 1 by every check, and is
   * never taken for a later season: it is never used for a detection of
   * season 2 or later.
   */
  lemma DigitFreeTitleIsFirstSeason(t: string)
    requires forall k :: 0 <= k < |t| ==> !IsDigit(t[k])
    ensures LibraryMatchVerified(t, 1) && SearchResultAccepted(t, 1) && SeasonSafeguard(t, 1)
    ensures forall n :: n >= 2 ==> !SeasonSafeguard(t, n) && !SearchResultAccepted(t, n) && !LibraryMatchVerified(t, n)
  {
    forall n | n >= 2
      ensures !SeasonSafeguard(t, n) && !SearchResultAccepted(t, n) && !LibraryMatchVerified(t, n)
    {
      LaterSeasonChecksAgree(t, n);
      if SeasonSafeguard(t, n) {
        SafeguardNeedsNumber(t, n);
        DigitFreeContainsNoNumber(t, NatToString(n));
      }
    }
  }

  // ---------------------------------------------------------------------
  // The AniList search fallback.

  /** The search query: " Season N" is added only for a season above 1. */
  function SearchQuery(title: string, seasonNumber: Option<int>): (q: string)
    ensures StartsWith(q, title)
    ensures q == title <==> !(seasonNumber.Some? && seasonNumber.value > 1)
    ensures seasonNumber.Some? && seasonNumber.value > 1 ==>
      EndsWith(q, IntToString(seasonNumber.value)) && Contains(q, " Season ")
  {
    if seasonNumber.Some? && seasonNumber.value > 1 then
      var q := title + " Season " + IntToString(seasonNumber.value);
      assert q[..|title|] == title;
      assert q[|title|..|title| + 8] == " Season ";
      ContainsAt(q, " Season ", |title|);
      q
    else title
  }

  /** The results kept by the season filter, in order. */
  function KeepAccepted(results: seq<Anime>, n: int): (r: seq<Anime>)
    ensures |r| <= |results|
    ensures forall a :: a in r ==> a in results
    ensures forall a :: a in results ==> (a in r <==> SearchResultAccepted(Lower(a.title), n))
    ensures Sequences.IsSubsequence(r, results)
  {
    if results == [] then []
    else
      var rest := KeepAccepted(results[1..], n);
      if SearchResultAccepted(Lower(results[0].title), n) then
        assert ([results[0]] + rest)[1..] == rest;
        [results[0]] + rest
      else rest
  }

  /** The season filter applies only when the detection carries a season. */
  function FilterResults(results: seq<Anime>, seasonNumber: Option<int>): (r: seq<Anime>)
    ensures !Truthy(seasonNumber) ==> r == results
    ensures Truthy(seasonNumber) ==>
      forall a :: a in results ==> (a in r <==> SearchResultAccepted(Lower(a.title), seasonNumber.value))
    ensures forall a :: a in r ==> a in results
  {
    if Truthy(seasonNumber) then KeepAccepted(results, seasonNumber.value) else results
  }

  /** The first result's romaji or English title equals the detected one, or one contains the other (case-insensitively). */
  predicate CloseTitle(best: Anime, detectedTitle: string) {
    var detected := Lower(detectedTitle);
    var romaji := Lower(best.title);
    var english := if best.titleEnglish.Some? then Lower(best.titleEnglish.value) else "";
    romaji == detected || english == detected || Contains(romaji, detected) || Contains(detected, romaji)
  }

  /** A search result is taken without asking when it is the only one left, or when the first one is close. */
  predicate AutoAccepts(filtered: seq<Anime>, detectedTitle: string) {
    |filtered| > 0 && (|filtered| == 1 || CloseTitle(filtered[0], detectedTitle))
  }

  /** Equal romaji titles are already covered by containment; only the English title is compared for equality alone. */
  lemma CloseTitleByContainment(best: Anime, detectedTitle: string)
    ensures CloseTitle(best, detectedTitle) <==>
      var detected := Lower(detectedTitle);
      var romaji := Lower(best.title);
      (best.titleEnglish.Some? && Lower(best.titleEnglish.value) == detected)
      || (best.titleEnglish.None? && detected == "")
      || Contains(romaji, detected) || Contains(detected, romaji)
  {
    ContainsSelf(Lower(best.title));
  }

  // ---------------------------------------------------------------------
  // Episode numbering.

  /** The automatic path: resolve across the franchise when the episode exceeds the match's total, or exceeds 24 for season 2 and later. */
  predicate NeedsResolution(overallEpisode: Option<int>, totalEpisodes: Option<nat>, seasonNumber: Option<int>) {
    Truthy(overallEpisode) &&
    ((totalEpisodes.Some? && totalEpisodes.value != 0 && overallEpisode.value > totalEpisodes.value)
     || (overallEpisode.value > 24 && Truthy(seasonNumber) && seasonNumber.value > 1))
  }

  /** The manual (modal) path: resolve when the episode exceeds 24 or the chosen entry's total. */
  predicate ModalNeedsResolution(overallEpisode: Option<int>, totalEpisodes: Option<nat>) {
    Truthy(overallEpisode) &&
    (overallEpisode.value > 24 || (totalEpisodes.Some? && totalEpisodes.value != 0 && overallEpisode.value > totalEpisodes.value))
  }

  /** Whenever the automatic path resolves, the modal path would too; not the other way round. */
  lemma ResolutionHeuristicsNested(overallEpisode: Option<int>, totalEpisodes: Option<nat>, seasonNumber: Option<int>)
    ensures NeedsResolution(overallEpisode, totalEpisodes, seasonNumber) ==> ModalNeedsResolution(overallEpisode, totalEpisodes)
    ensures !NeedsResolution(Some(30), None, Some(1)) && ModalNeedsResolution(Some(30), None)
  {
  }

  /** Per-season numbering (season 3, episode 7 of 12) is left alone by both heuristics. */
  lemma PerSeasonNumberingKept()
    ensures !NeedsResolution(Some(7), Some(12), Some(3)) && !ModalNeedsResolution(Some(7), Some(12))
  {
  }

  /** The final clamp: never above the entry's known (non-zero) episode count. */
  function ClampToTotal(episode: int, totalEpisodes: Option<nat>): (r: int)
    ensures totalEpisodes.Some? && totalEpisodes.value != 0 ==> r <= totalEpisodes.value
    ensures r <= episode
    ensures r == episode || (totalEpisodes.Some? && r == totalEpisodes.value && episode > r)
  {
    if totalEpisodes.Some? && totalEpisodes.value != 0 && episode > totalEpisodes.value then totalEpisodes.value else episode
  }

  lemma ClampIdempotent(episode: int, totalEpisodes: Option<nat>)
    ensures ClampToTotal(ClampToTotal(episode, totalEpisodes), totalEpisodes) == ClampToTotal(episode, totalEpisodes)
  {
  }

  /** `timeline.map(s => s.episodes || 0)`: the counts the season fix passes, with an unknown count as 0. */
  function CountsAsWritten(timeline: seq<Anime>): (c: seq<Option<nat>>)
    ensures |c| == |timeline|
    ensures forall i :: 0 <= i < |timeline| ==> c[i].Some?
    ensures forall i :: 0 <= i < |timeline| && timeline[i].episodes.None? ==> c[i] == Some(0)
  {
    seq(|timeline|, i requires 0 <= i < |timeline| => Some(FranchiseResolver.KnownCount(timeline[i])))
  }

  /** The counts with an unknown (or zero) count left undefined, so that the conversion does not clamp on it. */
  function KnownCounts(timeline: seq<Anime>): (c: seq<Option<nat>>)
    ensures |c| == |timeline|
    ensures forall i :: 0 <= i < |timeline| ==>
      (c[i].Some? <==> timeline[i].episodes.Some? && timeline[i].episodes.value != 0)
    ensures forall i :: 0 <= i < |timeline| && c[i].Some? ==> c[i] == timeline[i].episodes
  {
    seq(|timeline|, i requires 0 <= i < |timeline| =>
      if timeline[i].episodes.Some? && timeline[i].episodes.value != 0 then timeline[i].episodes else None)
  }

  /**
   * As written, a season whose episode count is unknown (an airing season)
   * gets season episode 0 from the conversion, whatever the global episode.
   */
  lemma UnknownCountGivesEpisodeZero(timeline: seq<Anime>, globalEpisode: int, n: int)
    requires 1 <= n <= |timeline| && timeline[n - 1].episodes.None?
    ensures SeasonEpisode.ConvertGlobalToSeasonEpisode(globalEpisode, n, CountsAsWritten(timeline)) == 0
  {
  }

  /** With the unknown counts left undefined the season episode is at least 1, and with all counts known both agree. */
  lemma KnownCountsGivePositiveEpisode(timeline: seq<Anime>, globalEpisode: int, n: int)
    requires 1 <= n <= |timeline|
    ensures timeline[n - 1].episodes.None? ==>
      SeasonEpisode.ConvertGlobalToSeasonEpisode(globalEpisode, n, KnownCounts(timeline)) >= 1
    ensures (forall i :: 0 <= i < |timeline| ==> timeline[i].episodes.Some? && timeline[i].episodes.value != 0) ==>
      KnownCounts(timeline) == CountsAsWritten(timeline)
  {
  }

  /** The example: season 1 of 12 episodes, season 2 still airing, global episode 14 of season 2. */
  lemma AiringSecondSeasonExample(s1: Anime, s2: Anime)
    requires s1.episodes == Some(12) && s2.episodes.None?
    ensures SeasonEpisode.ConvertGlobalToSeasonEpisode(14, 2, CountsAsWritten([s1, s2])) == 0
    ensures SeasonEpisode.ConvertGlobalToSeasonEpisode(14, 2, KnownCounts([s1, s2])) == 2
  {
    UnknownCountGivesEpisodeZero([s1, s2], 14, 2);
    var c := KnownCounts([s1, s2]);
    assert c == [Some(12), None];
    assert SeasonEpisode.KnownOrZero(c)[..1] == [12];
    assert [12][..0] == [];
    assert SeasonEpisode.PreviousSeasonsTotal(c, 2) == 12;
  }

  // ---------------------------------------------------------------------
  // Where the episode lands.

  /** `getFranchiseTimeline(parseInt(anime.id))`; a non-numeric id fetches nothing. */
  function TimelineOf(lookup: map<nat, AniListService.Media>, anime: Anime): seq<Anime> {
    match LibraryStore.NumericId(anime.id)
    case None => []
    case Some(n) => AniListService.FranchiseTimelineOf(lookup, n)
  }

  /**
   * `timeline` is the franchise timeline of `anime`. The quantifier fires only
   * where TimelineOf is applied, which keeps the walk's definition out of the
   * proofs about the handlers.
   */
  ghost predicate TimelineFor(lookup: map<nat, AniListService.Media>, anime: Anime, timeline: seq<Anime>) {
    forall a {:trigger TimelineOf(lookup, a)} :: a == anime ==> TimelineOf(lookup, a) == timeline
  }

  lemma TimelineForExists(lookup: map<nat, AniListService.Media>, anime: Anime) returns (timeline: seq<Anime>)
    ensures TimelineFor(lookup, anime, timeline)
  {
    timeline := TimelineOf(lookup, anime);
  }

  lemma TimelineForUnique(lookup: map<nat, AniListService.Media>, anime: Anime, t1: seq<Anime>, t2: seq<Anime>)
    requires TimelineFor(lookup, anime, t1) && TimelineFor(lookup, anime, t2)
    ensures t1 == t2
  {
    assert TimelineOf(lookup, anime) == t1;
  }

  method FetchTimeline(lookup: map<nat, AniListService.Media>, anime: Anime) returns (timeline: seq<Anime>)
    ensures TimelineFor(lookup, anime, timeline)
  {
    var id := LibraryStore.NumericId(anime.id);
    if id.None? {
      return [];
    }
    timeline := AniListService.FranchiseTimeline(lookup, id.value);
  }

  /** The season fix applies when the detection has a global episode and a season the timeline reaches. */
  predicate SeasonFixApplies(u: TrackingUpdate, timeline: seq<Anime>) {
    Truthy(u.overallEpisode) && Truthy(u.seasonNumber) && 1 <= u.seasonNumber.value <= |timeline|
  }

  datatype Target = Target(anime: Anime, episode: int)

  /**
   * Where the automatic path puts the episode before the final clamp: the
   * franchise resolver's season when the heuristic asks for it on a
   * multi-season timeline; else the timeline entry of the detected season
   * when the season fix applies; else the matched entry and the detected
   * episode.
   */
  function Retarget(u: TrackingUpdate, anime: Anime, timeline: seq<Anime>): (r: Target)
    ensures r.anime == anime || r.anime in timeline
    ensures !NeedsResolution(u.overallEpisode, anime.episodes, u.seasonNumber) && !SeasonFixApplies(u, timeline) ==>
      r == Target(anime, u.episode)
    ensures !NeedsResolution(u.overallEpisode, anime.episodes, u.seasonNumber) && SeasonFixApplies(u, timeline) ==>
      r.anime == timeline[u.seasonNumber.value - 1]
      && r.episode == SeasonEpisode.ConvertGlobalToSeasonEpisode(u.overallEpisode.value, u.seasonNumber.value, CountsAsWritten(timeline))
    ensures NeedsResolution(u.overallEpisode, anime.episodes, u.seasonNumber) && |timeline| > 1 ==>
      var res := FranchiseResolver.Resolve(timeline, u.overallEpisode.value);
      res.Some? && r == Target(r.anime, res.value.episode) && r.anime.id == res.value.animeId && r.anime in timeline
  {
    var fixed :=
      if SeasonFixApplies(u, timeline) then
        var n := u.seasonNumber.value;
        Target(timeline[n - 1], SeasonEpisode.ConvertGlobalToSeasonEpisode(u.overallEpisode.value, n, CountsAsWritten(timeline)))
      else Target(anime, u.episode);
    if NeedsResolution(u.overallEpisode, anime.episodes, u.seasonNumber) && |timeline| > 1 then
      FranchiseResolver.ResolveNullExactlyWhenEmpty(timeline, u.overallEpisode.value);
      var res := FranchiseResolver.Resolve(timeline, u.overallEpisode.value).value;
      assert HasId(timeline, res.animeId);
      var found := FindById(timeline, res.animeId);
      Target(found.value, res.episode)
    else fixed
  }

  /**
   * The season fix as written, on the airing example: a detection of global
   * episode 14 in season 2, whose count is unknown, lands on episode 0 of
   * season 2, which the final clamp leaves alone.
   */
  lemma AiringSeasonFixGivesZero(s1: Anime, s2: Anime)
    requires s1.episodes == Some(12) && s2.episodes.None?
    ensures var t := Retarget(TrackingUpdate("T", 14, Some(14), Some(2)), s2, [s1, s2]);
      t == Target(s2, 0) && ClampToTotal(t.episode, t.anime.episodes) == 0
  {
    AiringSecondSeasonExample(s1, s2);
  }

  /** The modal path: the resolver's episode when the modal heuristic asks, switching entry only to a different season. */
  function ModalRetarget(overallEpisode: Option<int>, anime: Anime, episode: int, timeline: seq<Anime>): (r: Target)
    ensures r.anime == anime || r.anime in timeline
    ensures !ModalNeedsResolution(overallEpisode, anime.episodes) || |timeline| <= 1 ==> r == Target(anime, episode)
    ensures ModalNeedsResolution(overallEpisode, anime.episodes) && |timeline| > 1 ==>
      var res := FranchiseResolver.Resolve(timeline, overallEpisode.value);
      res.Some? && r.episode == res.value.episode && r.anime.id == res.value.animeId
  {
    if ModalNeedsResolution(overallEpisode, anime.episodes) && |timeline| > 1 then
      FranchiseResolver.ResolveNullExactlyWhenEmpty(timeline, overallEpisode.value);
      var res := FranchiseResolver.Resolve(timeline, overallEpisode.value).value;
      if res.animeId != anime.id then
        assert HasId(timeline, res.animeId);
        Target(FindById(timeline, res.animeId).value, res.episode)
      else Target(anime, res.episode)
    else Target(anime, episode)
  }

  // ---------------------------------------------------------------------
  // The handlers.

  /**
   * `found` is what `findAnimeByTitle` returns for the title. As for
   * TimelineFor, the quantifier keeps the matcher's definition out of the
   * proofs about the handlers.
   */
  ghost predicate FoundByTitle(library: seq<Anime>, titleMappings: map<string, string>, title: string, found: Option<Anime>) {
    forall t {:trigger TitleMatcher.FindAnimeByTitle(library, titleMappings, t)} ::
      t == title ==> TitleMatcher.FindAnimeByTitle(library, titleMappings, t) == found
  }

  /** The library match, dropped when the first season check rejects it. */
  function VerifiedMatch(found: Option<Anime>, seasonNumber: Option<int>): (r: Option<Anime>)
    ensures r.Some? ==> r == found
    ensures r.Some? && Truthy(seasonNumber) ==> LibraryMatchVerified(Lower(r.value.title), seasonNumber.value)
    ensures found.Some? && (!Truthy(seasonNumber) || LibraryMatchVerified(Lower(found.value.title), seasonNumber.value)) ==>
      r == found
  {
    if found.Some? && Truthy(seasonNumber) && !LibraryMatchVerified(Lower(found.value.title), seasonNumber.value)
    then None
    else found
  }

  /** What the matching step of `handleTrackingUpdate` ends with. */
  datatype Matched = Matched(searchQuery: Option<string>, calls: seq<StoreCall>, anime: Option<Anime>)

  /**
   * The matching step: the library match when it passes the first season
   * check; otherwise an AniList search, whose season-filtered first result
   * is added and mapped when it is accepted. A failed search or a result
   * that is not accepted leaves nothing matched (the modal opens).
   */
  method MatchDetection(library: seq<Anime>, titleMappings: map<string, string>, u: TrackingUpdate, search: Option<seq<Anime>>)
    returns (m: Matched, ghost found: Option<Anime>)
    ensures FoundByTitle(library, titleMappings, u.title, found) && (found.Some? ==> found.value in library)
    ensures VerifiedMatch(found, u.seasonNumber).Some? ==> m == Matched(None, [], found)
    ensures VerifiedMatch(found, u.seasonNumber).None? ==> m.searchQuery == Some(SearchQuery(u.title, u.seasonNumber))
    ensures (VerifiedMatch(found, u.seasonNumber).None? &&
             (search.None? || !AutoAccepts(FilterResults(search.value, u.seasonNumber), u.title))) ==>
      m.anime.None? && m.calls == []
    ensures (VerifiedMatch(found, u.seasonNumber).None? &&
             search.Some? && AutoAccepts(FilterResults(search.value, u.seasonNumber), u.title)) ==>
      var best := FilterResults(search.value, u.seasonNumber)[0];
      m.anime == Some(best) && best in search.value && m.calls == [AddToLibrary(best), AddMapping(u.title, best.id)]
  {
    var matchingAnime := TitleMatcher.FindAnimeByTitle(library, titleMappings, u.title);
    found := matchingAnime;
    if matchingAnime.Some? && Truthy(u.seasonNumber) {
      if !LibraryMatchVerified(Lower(matchingAnime.value.title), u.seasonNumber.value) {
        matchingAnime := None;
      }
    }
    if matchingAnime.Some? {
      return Matched(None, [], matchingAnime), found;
    }
    var searchQuery := SearchQuery(u.title, u.seasonNumber);
    if search.None? {
      return Matched(Some(searchQuery), [], None), found;
    }
    var filteredResults := FilterResults(search.value, u.seasonNumber);
    if |filteredResults| == 0 {
      return Matched(Some(searchQuery), [], None), found;
    }
    var bestMatch := filteredResults[0];
    if |filteredResults| == 1 || CloseTitle(bestMatch, u.title) {
      return Matched(Some(searchQuery), [AddToLibrary(bestMatch), AddMapping(u.title, bestMatch.id)], Some(bestMatch)), found;
    }
    return Matched(Some(searchQuery), [], None), found;
  }

  /** Whether an entry with the target's id is in the library or is added by one of the calls. */
  predicate Known(library: seq<Anime>, calls: seq<StoreCall>, id: string) {
    HasId(library, id) || exists c :: c in calls && c.AddToLibrary? && c.anime.id == id
  }

  /** Every call adds a timeline entry that is missing from the library. */
  predicate AddsMissingFrom(library: seq<Anime>, timeline: seq<Anime>, calls: seq<StoreCall>) {
    forall c :: c in calls ==> c.AddToLibrary? && c.anime in timeline && !HasId(library, c.anime.id)
  }

  lemma AddsMissingAppend(library: seq<Anime>, timeline: seq<Anime>, calls: seq<StoreCall>, a: Anime)
    requires AddsMissingFrom(library, timeline, calls)
    requires a in timeline && !HasId(library, a.id)
    ensures AddsMissingFrom(library, timeline, calls + [AddToLibrary(a)])
  {
  }

  /**
   * The numbering step for a verified match: the season fix, then the
   * franchise resolution, each adding its entry to the library when it is
   * missing, then the final clamp. `timeline` is the matched entry's
   * franchise timeline.
   */
  method PlaceEpisode(library: seq<Anime>, lookup: map<nat, AniListService.Media>, u: TrackingUpdate, anime: Anime)
    returns (calls: seq<StoreCall>, target: Anime, episode: int, ghost timeline: seq<Anime>)
    ensures TimelineFor(lookup, anime, timeline)
    ensures var t := Retarget(u, anime, timeline);
      target == t.anime && episode == ClampToTotal(t.episode, t.anime.episodes)
    ensures AddsMissingFrom(library, timeline, calls)
    ensures target == anime || Known(library, calls, target.id)
  {
    timeline := TimelineForExists(lookup, anime);
    calls := [];
    var totalEpisodes := anime.episodes;
    var nextEpisode := u.episode;
    var finalAnime := anime;
    if Truthy(u.overallEpisode) && Truthy(u.seasonNumber) {
      var seasonTimeline := FetchTimeline(lookup, anime);
      TimelineForUnique(lookup, anime, seasonTimeline, timeline);
      var n := u.seasonNumber.value;
      if 1 <= n <= |seasonTimeline| {
        var seasonAnime := seasonTimeline[n - 1];
        finalAnime := seasonAnime;
        nextEpisode := SeasonEpisode.ConvertGlobalToSeasonEpisode(u.overallEpisode.value, n, CountsAsWritten(seasonTimeline));
        if !HasId(library, seasonAnime.id) {
          AddsMissingAppend(library, timeline, calls, seasonAnime);
          calls := calls + [AddToLibrary(seasonAnime)];
        }
      }
    }
    assert finalAnime == anime || Known(library, calls, finalAnime.id);
    if NeedsResolution(u.overallEpisode, totalEpisodes, u.seasonNumber) {
      var resolutionTimeline := FetchTimeline(lookup, anime);
      TimelineForUnique(lookup, anime, resolutionTimeline, timeline);
      if |resolutionTimeline| > 1 {
        var resolved := FranchiseResolver.ResolveFranchiseEpisode(resolutionTimeline, u.overallEpisode.value);
        if resolved.Some? {
          var correctSeason := FindById(resolutionTimeline, resolved.value.animeId);
          if correctSeason.Some? {
            finalAnime := correctSeason.value;
            nextEpisode := resolved.value.episode;
            if !HasId(library, correctSeason.value.id) {
              AddsMissingAppend(library, timeline, calls, correctSeason.value);
              calls := calls + [AddToLibrary(correctSeason.value)];
              assert AddToLibrary(correctSeason.value) in calls;
            }
          }
        }
      }
    }
    target := finalAnime;
    episode := ClampToTotal(nextEpisode, finalAnime.episodes);
  }

  /** None of the calls updates progress. */
  predicate NoProgressUpdate(calls: seq<StoreCall>) {
    forall c :: c in calls ==> !c.UpdateProgress?
  }

  /** What `handleTrackingUpdate` did: the search it ran, the store calls, the verified match and the entry updated (none when the modal opens). */
  datatype Handling = Handling(searchQuery: Option<string>, calls: seq<StoreCall>, matched: Option<Anime>, target: Option<Anime>)

  /** The update submitted for a target: the episode, and always the status 'watching'. */
  function WatchingUpdate(episode: int): (r: LibraryStore.Updates)
    ensures r.status == Some(Watching) && r.progress == Some(episode)
  {
    LibraryStore.Updates(Some(Watching), Some(episode))
  }

  /**
   * `handleTrackingUpdate`: match, run the safeguard, place the episode and
   * submit it with status 'watching'; the modal opens (no target, no progress
   * update) when nothing is matched or the safeguard rejects the match.
   * `found` is the library matcher's answer and `timeline` the franchise
   * timeline of the match.
   */
  method HandleTrackingUpdate(library: seq<Anime>, titleMappings: map<string, string>,
                              lookup: map<nat, AniListService.Media>, u: TrackingUpdate, search: Option<seq<Anime>>)
    returns (h: Handling, ghost found: Option<Anime>, ghost timeline: seq<Anime>)
    ensures FoundByTitle(library, titleMappings, u.title, found)
    // matching: the library first, then the search
    ensures VerifiedMatch(found, u.seasonNumber).Some? ==> h.searchQuery.None? && h.matched == found
    ensures VerifiedMatch(found, u.seasonNumber).None? ==>
      h.searchQuery == Some(SearchQuery(u.title, u.seasonNumber)) &&
      (h.matched.Some? <==> search.Some? && AutoAccepts(FilterResults(search.value, u.seasonNumber), u.title)) &&
      (h.matched.Some? ==> h.matched == Some(FilterResults(search.value, u.seasonNumber)[0]))
    // the safeguard decides between an update and the modal
    ensures h.target.Some? ==> h.matched.Some?
    ensures h.matched.Some? ==>
      (h.target.Some? <==> !Truthy(u.seasonNumber) || SeasonSafeguard(Lower(h.matched.value.title), u.seasonNumber.value))
    // the modal never updates progress
    ensures h.target.None? ==> NoProgressUpdate(h.calls)
    // an update is the last call, names a known entry, says 'watching' and respects the entry's total
    ensures h.target.Some? ==>
      var t := Retarget(u, h.matched.value, timeline);
      && TimelineFor(lookup, h.matched.value, timeline)
      && h.target.value == t.anime
      && |h.calls| > 0
      && h.calls[|h.calls| - 1] == UpdateProgress(t.anime.id, WatchingUpdate(ClampToTotal(t.episode, t.anime.episodes)))
      && NoProgressUpdate(h.calls[..|h.calls| - 1])
      && Known(library, h.calls[..|h.calls| - 1], t.anime.id)
  {
    var m;
    m, found := MatchDetection(library, titleMappings, u, search);
    timeline := [];
    if m.anime.None? {
      return Handling(m.searchQuery, m.calls, None, None), found, timeline;
    }
    var matchingAnime := m.anime.value;
    if Truthy(u.seasonNumber) && !SeasonSafeguard(Lower(matchingAnime.title), u.seasonNumber.value) {
      return Handling(m.searchQuery, m.calls, m.anime, None), found, timeline;
    }
    assert matchingAnime in library || AddToLibrary(matchingAnime) in m.calls;
    var placed, finalAnime, nextEpisode;
    placed, finalAnime, nextEpisode, timeline := PlaceEpisode(library, lookup, u, matchingAnime);
    var calls := m.calls + placed;
    assert NoProgressUpdate(calls);
    assert Known(library, calls, finalAnime.id);
    calls := calls + [UpdateProgress(finalAnime.id, WatchingUpdate(nextEpisode))];
    assert calls[..|calls| - 1] == m.calls + placed;
    h := Handling(m.searchQuery, calls, m.anime, Some(finalAnime));
  }

  /**
   * `handleAnimeMatch`: the user picked `anime` in the modal for the pending
   * detection. The title is mapped, the entry added when missing, the episode
   * resolved when the modal heuristic asks, clamped and submitted with status
   * 'watching'. `timeline` is the chosen entry's franchise timeline.
   */
  method HandleAnimeMatch(library: seq<Anime>, lookup: map<nat, AniListService.Media>,
                          pending: Option<TrackingUpdate>, anime: Anime, episode: int)
    returns (calls: seq<StoreCall>, ghost timeline: seq<Anime>)
    ensures TimelineFor(lookup, anime, timeline)
    ensures |calls| >= 2
    ensures calls[0] == AddMapping(if pending.Some? then pending.value.title else "", anime.id)
    ensures var overall := if pending.Some? then pending.value.overallEpisode else None;
      var t := ModalRetarget(overall, anime, episode, timeline);
      && calls[|calls| - 1] == UpdateProgress(t.anime.id, WatchingUpdate(ClampToTotal(t.episode, t.anime.episodes)))
      && NoProgressUpdate(calls[..|calls| - 1])
      && Known(library, calls[..|calls| - 1], t.anime.id)
  {
    timeline := TimelineForExists(lookup, anime);
    calls := [AddMapping(if pending.Some? then pending.value.title else "", anime.id)];
    if FindById(library, anime.id).None? {
      calls := calls + [AddToLibrary(anime)];
    }
    assert Known(library, calls, anime.id);
    var overallEp := if pending.Some? then pending.value.overallEpisode else None;
    var added, target, nextEpisode := ModalResolve(library, lookup, overallEp, anime, episode, timeline);
    var before := calls + added;
    assert Known(library, before, target.id) by {
      if target == anime {
        assert forall c :: c in calls ==> c in before;
      } else {
        assert forall c :: c in added ==> c in before;
      }
    }
    calls := before + [UpdateProgress(target.id, WatchingUpdate(ClampToTotal(nextEpisode, target.episodes)))];
    assert calls[..|calls| - 1] == before;
  }

  /** The resolution step of `handleAnimeMatch`: the target it picks and the entry it adds. */
  method ModalResolve(library: seq<Anime>, lookup: map<nat, AniListService.Media>,
                      overallEp: Option<int>, anime: Anime, episode: int, ghost timeline: seq<Anime>)
    returns (added: seq<StoreCall>, target: Anime, nextEpisode: int)
    requires TimelineFor(lookup, anime, timeline)
    ensures Target(target, nextEpisode) == ModalRetarget(overallEp, anime, episode, timeline)
    ensures NoProgressUpdate(added)
    ensures target == anime || Known(library, added, target.id)
  {
    added := [];
    nextEpisode := episode;
    target := anime;
    if ModalNeedsResolution(overallEp, anime.episodes) {
      var fetched := FetchTimeline(lookup, anime);
      TimelineForUnique(lookup, anime, fetched, timeline);
      if |fetched| > 1 {
        var resolved := FranchiseResolver.ResolveFranchiseEpisode(fetched, overallEp.value);
        if resolved.Some? {
          nextEpisode := resolved.value.episode;
          if resolved.value.animeId != anime.id {
            var correctSeason := FindById(fetched, resolved.value.animeId);
            if correctSeason.Some? {
              target := correctSeason.value;
              if FindById(library, correctSeason.value.id).None? {
                added := [AddToLibrary(correctSeason.value)];
                assert AddToLibrary(correctSeason.value) in added;
              }
            }
          }
        }
      }
    }
  }
}
