// Mood-based recommendations (apps/desktop/src/renderer/services/recommendation.service.ts):
// the mood table, the library filter, the mood score and the ordering of a
// candidate pool. The pool, which the source fetches from AniList, is an input.
module Recommendation {
  import opened Wrappers
  import opened AnimeModel
  import opened Sorting

  /** The tie-breaker a mood prefers. */
  datatype SortKey = ByScore | ByPopularity | ByTrending

  /** `MoodDefinition` without its display texts. */
  datatype Mood = Mood(
    id: string,
    includeTags: seq<string>,
    excludeTags: seq<string>,
    minScore: Option<nat>,
    sortBy: Option<SortKey>,
    maxEpisodesHint: Option<nat>)

  /** `MOODS`, in the order the source lists them. */
  const Moods: seq<Mood> := [
    Mood("hype", ["Shounen", "Action", "Battle", "Super Power", "Tournament"], [], Some(70), Some(ByTrending), None),
    Mood("chill", ["Slice of Life", "Iyashikei", "Relaxing", "Healing", "CGDCT"], ["Horror", "Gore"], None, Some(ByScore), Some(26)),
    Mood("emotional", ["Drama", "Romance", "Tragedy", "Sad"], ["Parody"], Some(72), Some(ByScore), None),
    Mood("dark", ["Psychological", "Horror", "Thriller", "Seinen", "Dark Fantasy"], ["Iyashikei", "CGDCT"], Some(70), Some(ByScore), None),
    Mood("comedy", ["Comedy", "Parody", "Gag Humor", "Slapstick"], ["Horror"], None, Some(ByPopularity), None),
    Mood("romcom", ["Romance", "Comedy", "Romantic Comedy", "School"], ["Horror"], None, Some(ByScore), None),
    Mood("mind_bend", ["Psychological", "Mystery", "Supernatural", "Time Travel"], ["Parody"], Some(72), Some(ByScore), None),
    Mood("wholesome", ["Slice of Life", "Family", "CGDCT", "Iyashikei", "Friendship"], ["Horror", "Ecchi", "Gore"], None, Some(ByScore), Some(24))
  ]

  /** `MOODS.find(m => m.id === id)`: the first mood with that id. */
  function FindMood(moods: seq<Mood>, id: string): (r: Option<Mood>)
    ensures r.Some? ==> r.value in moods && r.value.id == id
    ensures r.None? <==> forall m :: m in moods ==> m.id != id
  {
    if moods == [] then None
    else if moods[0].id == id then Some(moods[0])
    else FindMood(moods[1..], id)
  }

  /** `getMoodById`. */
  function MoodById(id: string): (r: Option<Mood>)
    ensures r.Some? ==> r.value in Moods && r.value.id == id
    ensures r.None? <==> forall m :: m in Moods ==> m.id != id
  {
    FindMood(Moods, id)
  }

  /** The ids of `MOODS`, in order. */
  const MoodIds: seq<string> := ["hype", "chill", "emotional", "dark", "comedy", "romcom", "mind_bend", "wholesome"]

  /** The eight mood ids are found; any other id is unknown. */
  lemma KnownMoodIds(id: string)
    ensures MoodById(id).Some? <==> id in MoodIds
  {
    assert |Moods| == |MoodIds|;
    assert forall k :: 0 <= k < |Moods| ==> Moods[k].id == MoodIds[k];
    if id in MoodIds {
      var k :| 0 <= k < |MoodIds| && MoodIds[k] == id;
      assert Moods[k] in Moods;
    } else {
      forall m | m in Moods ensures m.id != id {
        var k :| 0 <= k < |Moods| && Moods[k] == m;
      }
    }
  }

  // ----- the library filter -----

  /** What `libraryStatusById` holds after the loop over library[..n]: a later entry overwrites an earlier one. */
  function StatusesOf(library: seq<Anime>): (m: map<string, Status>)
    ensures forall id :: id in m ==> id != ""
  {
    if library == [] then map[]
    else
      var rest := StatusesOf(library[..|library| - 1]);
      var last := library[|library| - 1];
      if last.id != "" then rest[last.id := last.status] else rest
  }

  /** An id has a recorded status exactly when some library entry carries it and it is not empty. */
  lemma {:induction false} StatusesOfDomain(library: seq<Anime>, id: string)
    ensures id in StatusesOf(library) <==> (id != "" && exists i :: 0 <= i < |library| && library[i].id == id)
  {
    if library != [] {
      var init := library[..|library| - 1];
      StatusesOfDomain(init, id);
      if exists i :: 0 <= i < |library| && library[i].id == id {
        var i :| 0 <= i < |library| && library[i].id == id;
        if i < |init| {
          assert init[i] == library[i];
        }
      }
      if exists i :: 0 <= i < |init| && init[i].id == id {
        var i :| 0 <= i < |init| && init[i].id == id;
        assert library[i] == init[i];
      }
    }
  }

  /** The status recorded for an id is that of the last library entry with the id. */
  lemma {:induction false} StatusesOfLast(library: seq<Anime>, id: string)
    requires id in StatusesOf(library)
    ensures exists i ::
      (0 <= i < |library| && library[i].id == id && StatusesOf(library)[id] == library[i].status
       && (forall j :: i < j < |library| ==> library[j].id != id))
  {
    var init, last := library[..|library| - 1], library[|library| - 1];
    if last.id != id {
      assert StatusesOf(library) == (if last.id != "" then StatusesOf(init)[last.id := last.status] else StatusesOf(init));
      assert id in StatusesOf(init) && StatusesOf(library)[id] == StatusesOf(init)[id];
      StatusesOfLast(init, id);
      var i :| 0 <= i < |init| && init[i].id == id && StatusesOf(init)[id] == init[i].status
        && (forall j :: i < j < |init| ==> init[j].id != id);
      assert library[i] == init[i];
      forall j | i < j < |library|
        ensures library[j].id != id
      {
        if j < |init| {
          assert library[j] == init[j];
        }
      }
    } else {
      assert StatusesOf(library)[id] == last.status;
    }
  }

  /** `libraryStatusById`, filled by a loop over the library. */
  method LibraryStatusById(library: seq<Anime>) returns (m: map<string, Status>)
    ensures m == StatusesOf(library)
  {
    m := map[];
    var i := 0;
    while i < |library|
      invariant 0 <= i <= |library|
      invariant m == StatusesOf(library[..i])
    {
      var item := library[i];
      assert library[..i + 1][..i] == library[..i];
      if item.id != "" {
        m := m[item.id := item.status];
      }
      i := i + 1;
    }
    assert library[..|library|] == library;
  }

  /** `MoodRecommendationOptions`; a missing field takes its default. */
  datatype Options = Options(limit: Option<int>, excludeCompleted: Option<bool>, excludeDropped: Option<bool>)

  /** Whether the library filter drops the anime: completed or dropped in the library, when that exclusion is on (both are on by default). */
  predicate ExcludedByLibrary(statuses: map<string, Status>, options: Options, a: Anime) {
    a.id in statuses
    && ((options.excludeCompleted.OrElse(true) && statuses[a.id] == Completed)
        || (options.excludeDropped.OrElse(true) && statuses[a.id] == Dropped))
  }

  // ----- the mood score -----

  /** `tags.filter(t => wanted.includes(t)).length`: duplicates in tags count again. */
  function MatchCount(tags: seq<string>, wanted: seq<string>): (n: nat)
    ensures n <= |tags|
    ensures n == 0 <==> forall t :: t in tags ==> t !in wanted
  {
    if tags == [] then 0
    else (if tags[0] in wanted then 1 else 0) + MatchCount(tags[1..], wanted)
  }

  function TagsOf(a: Anime): seq<string> {
    if a.tags.Some? then a.tags.value else []
  }

  /** `exclusions.some(ex => tags.includes(ex) || genres.includes(ex))`. */
  predicate HasExcludedTag(mood: Mood, a: Anime) {
    exists ex :: ex in mood.excludeTags && (ex in TagsOf(a) || ex in a.genres)
  }

  /** The +10 for an average score at least the mood's (non-zero) minimum. */
  predicate MeetsMinScore(mood: Mood, a: Anime) {
    mood.minScore.Some? && mood.minScore.value != 0 && a.averageScore.Some? && a.averageScore.value >= mood.minScore.value
  }

  /** The +5 for a (non-zero) episode count within the mood's (non-zero) hint. */
  predicate WithinEpisodeHint(mood: Mood, a: Anime) {
    mood.maxEpisodesHint.Some? && mood.maxEpisodesHint.value != 0
    && a.episodes.Some? && a.episodes.value != 0 && a.episodes.value <= mood.maxEpisodesHint.value
  }

  /** The +3 as written: the entry's `status` compared with AniList's airing status 'FINISHED'. */
  predicate FinishedBonus(mood: Mood, a: Anime) {
    StatusName(a.status) == "FINISHED" && mood.id in ["emotional", "mind_bend", "chill"]
  }

  /** The mood score; None stands for the negative infinity of an excluded tag. */
  function MoodScore(mood: Mood, a: Anime): (r: Option<int>)
    ensures r.None? <==> HasExcludedTag(mood, a)
    ensures r.Some? ==> 0 <= r.value <= 15 * |TagsOf(a)| + 8 * |a.genres| + 18
    ensures r.Some? && r.value == 0 ==> forall t :: t in TagsOf(a) + a.genres ==> t !in mood.includeTags
  {
    if HasExcludedTag(mood, a) then None
    else
      var s := 15 * MatchCount(TagsOf(a), mood.includeTags) + 8 * MatchCount(a.genres, mood.includeTags)
        + (if MeetsMinScore(mood, a) then 10 else 0)
        + (if WithinEpisodeHint(mood, a) then 5 else 0)
        + (if FinishedBonus(mood, a) then 3 else 0);
      Some(s)
  }

  /** Pool entries carry the local status 'plan-to-watch', never AniList's 'FINISHED': the +3 never applies. */
  lemma FinishedBonusNeverApplies(mood: Mood, a: Anime)
    ensures !FinishedBonus(mood, a)
  {
    assert "watching"[0] != "FINISHED"[0];
  }

  /** Each wanted tag the entry has earns 15 points, each wanted genre 8. */
  lemma {:induction false} MatchCountAppend(tags: seq<string>, t: string, wanted: seq<string>)
    ensures MatchCount(tags + [t], wanted) == MatchCount(tags, wanted) + (if t in wanted then 1 else 0)
  {
    if tags != [] {
      assert (tags + [t])[1..] == tags[1..] + [t];
      MatchCountAppend(tags[1..], t, wanted);
    }
  }

  /** One more matching tag raises the score by exactly 15 (unless the tag is excluded). */
  lemma ExtraTagScores(mood: Mood, a: Anime, t: string)
    requires a.tags.Some? && t in mood.includeTags && t !in mood.excludeTags
    requires !HasExcludedTag(mood, a)
    ensures MoodScore(mood, a.(tags := Some(a.tags.value + [t]))).value == MoodScore(mood, a).value + 15
  {
    var b := a.(tags := Some(a.tags.value + [t]));
    MatchCountAppend(a.tags.value, t, mood.includeTags);
    assert !HasExcludedTag(mood, b) by {
      forall ex | ex in mood.excludeTags ensures !(ex in TagsOf(b) || ex in b.genres) {
        assert ex != t;
      }
    }
  }

  // ----- ordering -----

  /** The scored form of a pool entry; a missing tie-breaker field counts as -1. */
  datatype Scored = Scored(anime: Anime, moodScore: int, avgScore: int, popularity: int, trending: int)

  function OrMinusOne(o: Option<int>): int {
    if o.Some? then o.value else -1
  }

  /** The `map` step: None for an entry the library filter or an excluded tag removes. */
  function ScoreEntry(mood: Mood, statuses: map<string, Status>, options: Options, a: Anime): (r: Option<Scored>)
    ensures r.None? <==> ExcludedByLibrary(statuses, options, a) || HasExcludedTag(mood, a)
    ensures r.Some? ==> r.value.anime == a && Some(r.value.moodScore) == MoodScore(mood, a)
    ensures r.Some? ==> (r.value.avgScore == OrMinusOne(a.averageScore)
      && r.value.popularity == OrMinusOne(a.popularity) && r.value.trending == OrMinusOne(a.trending))
  {
    if ExcludedByLibrary(statuses, options, a) then None
    else
      match MoodScore(mood, a)
      case None => None
      case Some(s) => Some(Scored(a, s, OrMinusOne(a.averageScore), OrMinusOne(a.popularity), OrMinusOne(a.trending)))
  }

  /** The `map` and `filter` steps over the pool, in pool order. */
  function ScoredPool(mood: Mood, statuses: map<string, Status>, options: Options, pool: seq<Anime>): (r: seq<Scored>)
    ensures |r| <= |pool|
    ensures forall e :: e in r ==> e.anime in pool && ScoreEntry(mood, statuses, options, e.anime) == Some(e)
    ensures forall a :: a in pool && ScoreEntry(mood, statuses, options, a).Some? ==> ScoreEntry(mood, statuses, options, a).value in r
  {
    if pool == [] then []
    else
      var rest := ScoredPool(mood, statuses, options, pool[1..]);
      match ScoreEntry(mood, statuses, options, pool[0])
      case None => rest
      case Some(e) => [e] + rest
  }

  /** The tie-breaker the mood's `sortBy` selects; trending by default. */
  function TieValue(mood: Mood, e: Scored): int {
    match mood.sortBy
    case Some(ByScore) => e.avgScore
    case Some(ByPopularity) => e.popularity
    case _ => e.trending
  }

  /** The comparator, read as "a may come before b": a higher mood score, or an equal one and a tie value at least b's. */
  function RanksBefore(mood: Mood): (le: (Scored, Scored) -> bool)
    ensures forall a, b :: le(a, b) == (a.moodScore > b.moodScore || (a.moodScore == b.moodScore && TieValue(mood, a) >= TieValue(mood, b)))
  {
    (a: Scored, b: Scored) => a.moodScore > b.moodScore || (a.moodScore == b.moodScore && TieValue(mood, a) >= TieValue(mood, b))
  }

  lemma RanksBeforeIsPreorder(mood: Mood)
    ensures TotalPreorder(RanksBefore(mood))
  {
  }

  /** `scored.sort(...)`; the sort is stable. */
  function Ranked(mood: Mood, scored: seq<Scored>): (r: seq<Scored>)
    ensures multiset(r) == multiset(scored)
  {
    StableSort(scored, RanksBefore(mood))
  }

  /** The ranked list is ordered by mood score, then by the tie-breaker, both descending. */
  lemma RankedIsOrdered(mood: Mood, scored: seq<Scored>)
    ensures forall i, j :: 0 <= i < j < |Ranked(mood, scored)| ==>
      Ranked(mood, scored)[i].moodScore > Ranked(mood, scored)[j].moodScore
      || (Ranked(mood, scored)[i].moodScore == Ranked(mood, scored)[j].moodScore
          && TieValue(mood, Ranked(mood, scored)[i]) >= TieValue(mood, Ranked(mood, scored)[j]))
  {
    RanksBeforeIsPreorder(mood);
    StableSortSorted(scored, RanksBefore(mood));
  }

  /** Where `slice(0, limit)` ends on a list of length n, negative limits counting from the end. */
  function SliceEnd(n: nat, limit: int): (k: nat)
    ensures k <= n
    ensures limit >= 0 ==> k == if limit < n then limit else n
  {
    if limit >= 0 then (if limit < n then limit else n)
    else if n + limit > 0 then n + limit else 0
  }

  function AnimeOf(entries: seq<Scored>): (r: seq<Anime>)
    ensures |r| == |entries|
    ensures forall k :: 0 <= k < |r| ==> r[k] == entries[k].anime
  {
    if entries == [] then [] else [entries[0].anime] + AnimeOf(entries[1..])
  }

  /** `MoodRecommendation`. */
  datatype MoodRecommendation = MoodRecommendation(mood: Mood, anime: seq<Anime>)

  /** The ranked entries that are returned: the first `limit` (12 by default). */
  function TopEntries(mood: Mood, library: seq<Anime>, options: Options, pool: seq<Anime>): seq<Scored> {
    var ranked := Ranked(mood, ScoredPool(mood, StatusesOf(library), options, pool));
    ranked[..SliceEnd(|ranked|, options.limit.OrElse(12))]
  }

  /** What `getMoodRecommendations` resolves to for a given pool; an unknown mood id is an error. */
  function MoodRecommendations(moodId: string, library: seq<Anime>, options: Options, pool: seq<Anime>): (r: Result<MoodRecommendation>)
    ensures r.Err? <==> MoodById(moodId).None?
    ensures r.Ok? ==> r.value.mood == MoodById(moodId).value
  {
    match MoodById(moodId)
    case None => Err("Mood not found: " + moodId)
    case Some(mood) => Ok(MoodRecommendation(mood, AnimeOf(TopEntries(mood, library, options, pool))))
  }

  /** `getMoodRecommendations` with the pool supplied: the status map by a loop, then the scoring pipeline. */
  method GetMoodRecommendations(moodId: string, library: seq<Anime>, options: Options, pool: seq<Anime>)
    returns (r: Result<MoodRecommendation>)
    ensures r == MoodRecommendations(moodId, library, options, pool)
  {
    var mood := MoodById(moodId);
    if mood.None? {
      return Err("Mood not found: " + moodId);
    }
    var statuses := LibraryStatusById(library);
    var ranked := Ranked(mood.value, ScoredPool(mood.value, statuses, options, pool));
    var top := ranked[..SliceEnd(|ranked|, options.limit.OrElse(12))];
    r := Ok(MoodRecommendation(mood.value, AnimeOf(top)));
  }

  /** Every recommendation comes from the pool, passed the filters, and there are at most `limit` of them (12 by default). */
  lemma RecommendationsAreFilteredPool(moodId: string, library: seq<Anime>, options: Options, pool: seq<Anime>)
    requires MoodById(moodId).Some?
    ensures var r := MoodRecommendations(moodId, library, options, pool).value.anime;
      var mood := MoodById(moodId).value;
      (options.limit.OrElse(12) >= 0 ==> |r| <= options.limit.OrElse(12))
      && forall a :: a in r ==> a in pool && !HasExcludedTag(mood, a) && !ExcludedByLibrary(StatusesOf(library), options, a)
  {
    var mood := MoodById(moodId).value;
    var scored := ScoredPool(mood, StatusesOf(library), options, pool);
    var ranked := Ranked(mood, scored);
    var top := TopEntries(mood, library, options, pool);
    var r := AnimeOf(top);
    forall a | a in r
      ensures a in pool && !HasExcludedTag(mood, a) && !ExcludedByLibrary(StatusesOf(library), options, a)
    {
      var k :| 0 <= k < |r| && r[k] == a;
      assert top[k] in multiset(ranked);
      assert top[k] in scored;
    }
  }

  /** With the default options, nothing the library marks completed or dropped is recommended. */
  lemma DefaultsSkipFinishedWith(moodId: string, library: seq<Anime>, pool: seq<Anime>, a: Anime)
    requires MoodById(moodId).Some?
    requires a in MoodRecommendations(moodId, library, Options(None, None, None), pool).value.anime
    ensures a.id in StatusesOf(library) ==> StatusesOf(library)[a.id] != Completed && StatusesOf(library)[a.id] != Dropped
  {
    RecommendationsAreFilteredPool(moodId, library, Options(None, None, None), pool);
  }

  /** The recommendations come in ranked order: mood score, then the tie-breaker, both descending. */
  lemma RecommendationsRanked(mood: Mood, library: seq<Anime>, options: Options, pool: seq<Anime>)
    ensures var top := TopEntries(mood, library, options, pool);
      forall i, j :: 0 <= i < j < |top| ==>
        top[i].moodScore > top[j].moodScore
        || (top[i].moodScore == top[j].moodScore && TieValue(mood, top[i]) >= TieValue(mood, top[j]))
  {
    RankedIsOrdered(mood, ScoredPool(mood, StatusesOf(library), options, pool));
  }
}
