// The statistics service of the desktop renderer
// (apps/desktop/src/renderer/services/stats.service.ts): library totals, the
// day heatmap, binge sessions, milestones and the yearly summary. Timestamps
// are milliseconds since the epoch (see AnimeModel.WatchEvent); a calendar day
// 'YYYY-MM-DD' is the number of its UTC day, which sorts the same way; the
// local time zone is a fixed offset in minutes.
module Stats {
  import opened Wrappers
  import opened AnimeModel
  import opened Counting
  import opened Text
  import Sorting
  import Numbers
  import LibraryStore

  /** `EPISODE_MINUTES`. */
  const EpisodeMinutes := 24

  // ----- calculateLibraryStats -----

  /** `progress ?? episodes ?? 12`. */
  function EffectiveEpisodes(a: Anime): int {
    if a.progress.Some? then a.progress.value
    else if a.episodes.Some? then a.episodes.value
    else 12
  }

  /** The episodes counted for a library. */
  function TotalEpisodesOf(library: seq<Anime>): int {
    if library == [] then 0
    else TotalEpisodesOf(library[..|library| - 1]) + EffectiveEpisodes(library[|library| - 1])
  }

  /** The entries counted in totalAnime. */
  predicate IsActive(a: Anime) {
    a.status == Completed || a.status == Watching
  }

  /** The number of completed or watching entries. */
  function ActiveCount(library: seq<Anime>): (n: nat)
    ensures n <= |library|
  {
    if library == [] then 0
    else ActiveCount(library[..|library| - 1]) + (if IsActive(library[|library| - 1]) then 1 else 0)
  }

  /** Every genre of every entry, in library order. */
  function GenresOf(library: seq<Anime>): seq<string> {
    if library == [] then [] else GenresOf(library[..|library| - 1]) + library[|library| - 1].genres
  }

  function Clamp(n: int, lo: int, hi: int): int
    requires lo <= hi
  {
    if n < lo then lo else if n > hi then hi else n
  }

  /** The start of a score bucket: 1, 11, ..., 91. */
  predicate IsBucketStart(b: int) {
    1 <= b <= 91 && b % 10 == 1
  }

  /** The bucket of a rating on the 0-100 scale: the rating is clamped to 1..100 and falls in [b, b + 10). */
  function BucketStart(normalized: int): (b: int)
    ensures IsBucketStart(b)
    ensures b <= Clamp(normalized, 1, 100) < b + 10
  {
    var clamped := Clamp(normalized, 1, 100);
    (clamped - 1) / 10 * 10 + 1
  }

  /** Whether an entry has a rating. */
  predicate Rated(a: Anime) {
    a.ratingTimesTen.Some?
  }

  function RatedCount(library: seq<Anime>): (n: nat)
    ensures n <= |library|
  {
    if library == [] then 0
    else RatedCount(library[..|library| - 1]) + (if Rated(library[|library| - 1]) then 1 else 0)
  }

  /** The bucket of each rated entry, in library order: one bucket start per rated entry. */
  function RatingBuckets(library: seq<Anime>): (r: seq<int>)
    ensures |r| == RatedCount(library)
    ensures forall k :: 0 <= k < |r| ==> IsBucketStart(r[k])
  {
    if library == [] then []
    else
      var last := library[|library| - 1];
      RatingBuckets(library[..|library| - 1])
      + (if last.ratingTimesTen.Some? then [BucketStart(last.ratingTimesTen.value)] else [])
  }

  /** The top five genres by count. */
  function GenreBreakdown(library: seq<Anime>): seq<Entry<string>> {
    TopOf(GenresOf(library), 5)
  }

  /** The score buckets in ascending order. */
  function ScoreDistribution(library: seq<Anime>): seq<Entry<int>> {
    Sorting.StableSort(Tally(RatingBuckets(library)), KeyAtMost)
  }

  /** `LibraryStats`. */
  datatype LibraryStats = LibraryStats(
    totalEpisodes: int, totalMinutes: int, totalHours: real, totalAnime: nat,
    genreBreakdown: seq<Entry<string>>, scoreDistribution: seq<Entry<int>>)

  /** What one more entry adds to each of the totals. */
  lemma LibraryStep(library: seq<Anime>, i: nat)
    requires i < |library|
    ensures TotalEpisodesOf(library[..i + 1]) == TotalEpisodesOf(library[..i]) + EffectiveEpisodes(library[i])
    ensures ActiveCount(library[..i + 1]) == ActiveCount(library[..i]) + (if IsActive(library[i]) then 1 else 0)
    ensures GenresOf(library[..i + 1]) == GenresOf(library[..i]) + library[i].genres
    ensures RatingBuckets(library[..i + 1]) == RatingBuckets(library[..i])
      + (if library[i].ratingTimesTen.Some? then [BucketStart(library[i].ratingTimesTen.value)] else [])
  {
    assert library[..i + 1][..i] == library[..i];
  }

  /** The inner loop of `calculateLibraryStats`: one count per genre of an entry. */
  method CountGenres(counts: seq<Entry<string>>, genres: seq<string>, ghost before: seq<string>) returns (r: seq<Entry<string>>)
    requires counts == Tally(before)
    ensures r == Tally(before + genres)
  {
    r := counts;
    assert before + genres[..0] == before;
    for j := 0 to |genres|
      invariant r == Tally(before + genres[..j])
    {
      TallySnoc(before + genres[..j], genres[j]);
      assert before + genres[..j + 1] == before + genres[..j] + [genres[j]];
      r := Add(r, genres[j], 1);
    }
    assert genres[..|genres|] == genres;
  }

  /** The score part of `calculateLibraryStats`'s loop: a rated entry counts once in its bucket. */
  method CountRating(buckets: seq<Entry<int>>, anime: Anime, ghost before: seq<int>) returns (r: seq<Entry<int>>)
    requires buckets == Tally(before)
    ensures r == Tally(before + if anime.ratingTimesTen.Some? then [BucketStart(anime.ratingTimesTen.value)] else [])
  {
    r := buckets;
    if anime.ratingTimesTen.Some? {
      var bucketStart := BucketStart(anime.ratingTimesTen.value);
      TallySnoc(before, bucketStart);
      r := Add(r, bucketStart, 1);
    } else {
      assert before + [] == before;
    }
  }

  /** `calculateLibraryStats`: one pass over the library filling the counters. */
  method CalculateLibraryStats(library: seq<Anime>) returns (stats: LibraryStats)
    ensures stats.totalEpisodes == TotalEpisodesOf(library)
    ensures stats.totalMinutes == EpisodeMinutes * stats.totalEpisodes
    ensures stats.totalHours == stats.totalMinutes as real / 60.0
    ensures stats.totalAnime == ActiveCount(library)
    ensures stats.genreBreakdown == GenreBreakdown(library)
    ensures stats.scoreDistribution == ScoreDistribution(library)
  {
    var totalEpisodes := 0;
    var totalAnime := 0;
    var genreCounts: seq<Entry<string>> := [];
    var scoreBuckets: seq<Entry<int>> := [];
    for i := 0 to |library|
      invariant totalEpisodes == TotalEpisodesOf(library[..i])
      invariant totalAnime == ActiveCount(library[..i])
      invariant genreCounts == Tally(GenresOf(library[..i]))
      invariant scoreBuckets == Tally(RatingBuckets(library[..i]))
    {
      var anime := library[i];
      LibraryStep(library, i);
      totalEpisodes := totalEpisodes + EffectiveEpisodes(anime);
      totalAnime := totalAnime + if anime.status == Completed || anime.status == Watching then 1 else 0;
      genreCounts := CountGenres(genreCounts, anime.genres, GenresOf(library[..i]));
      scoreBuckets := CountRating(scoreBuckets, anime, RatingBuckets(library[..i]));
    }
    assert library[..|library|] == library;
    var genreBreakdown := Sorting.Take(Sorting.StableSort(genreCounts, CountAtLeast), 5);
    var scoreDistribution := Sorting.StableSort(scoreBuckets, KeyAtMost);
    var totalMinutes := totalEpisodes * EpisodeMinutes;
    stats := LibraryStats(totalEpisodes, totalMinutes, totalMinutes as real / 60.0, totalAnime, genreBreakdown, scoreDistribution);
  }

  /**
   * The breakdown is a top five: at most five distinct genres, highest count
   * first, each with its number of occurrences, and a genre left out occurs no
   * more often than any listed (so five were listed).
   */
  lemma GenreBreakdownIsTopFive(library: seq<Anime>)
    ensures |GenreBreakdown(library)| <= 5 && DistinctKeys(GenreBreakdown(library))
    ensures forall i, j :: 0 <= i < j < |GenreBreakdown(library)| ==>
      GenreBreakdown(library)[i].count >= GenreBreakdown(library)[j].count
    ensures forall e :: e in GenreBreakdown(library) ==>
      e.key in GenresOf(library) && e.count == multiset(GenresOf(library))[e.key]
    ensures forall g :: g in GenresOf(library) && !HasKey(GenreBreakdown(library), g) ==>
      |GenreBreakdown(library)| == 5
      && forall i :: 0 <= i < 5 ==> GenreBreakdown(library)[i].count >= multiset(GenresOf(library))[g]
  {
    TopOfTally(GenresOf(library), 5);
  }

  /** The distribution lists its buckets in strictly ascending order. */
  lemma ScoreDistributionAscending(library: seq<Anime>)
    ensures forall i, j :: 0 <= i < j < |ScoreDistribution(library)| ==>
      ScoreDistribution(library)[i].key < ScoreDistribution(library)[j].key
  {
    TallyFacts(RatingBuckets(library));
    SortByKeyAscending(Tally(RatingBuckets(library)));
  }

  /**
   * Each listed bucket is a bucket start with the number of rated entries in
   * it, and the counts add up to the number of rated entries.
   */
  lemma ScoreDistributionCounts(library: seq<Anime>)
    ensures forall e :: e in ScoreDistribution(library) ==>
      IsBucketStart(e.key) && e.count > 0 && e.count == multiset(RatingBuckets(library))[e.key]
    ensures Total(ScoreDistribution(library)) == RatedCount(library)
  {
    var buckets := RatingBuckets(library);
    var tally := Tally(buckets);
    TallyFacts(buckets);
    SortMembers(tally, KeyAtMost);
    SortTotal(tally, KeyAtMost);
    forall e | e in ScoreDistribution(library)
      ensures IsBucketStart(e.key) && e.count > 0 && e.count == multiset(buckets)[e.key]
    {
      var i :| 0 <= i < |tally| && tally[i] == e;
      CountAt(tally, i);
      assert HasKey(tally, e.key);
      var k :| 0 <= k < |buckets| && buckets[k] == e.key;
    }
  }

  /** The totals add up over a split library. */
  lemma {:induction false} TotalsAppend(a: seq<Anime>, b: seq<Anime>)
    ensures TotalEpisodesOf(a + b) == TotalEpisodesOf(a) + TotalEpisodesOf(b)
    ensures ActiveCount(a + b) == ActiveCount(a) + ActiveCount(b)
    decreases |b|
  {
    if b == [] {
      assert a + b == a;
    } else {
      assert (a + b)[..|a + b| - 1] == a + b[..|b| - 1];
      TotalsAppend(a, b[..|b| - 1]);
    }
  }

  // ----- buildHeatmapData -----

  const DayMillis := 86_400_000

  /** `formatDate`: the UTC calendar day of a timestamp. */
  function Day(at: int): int {
    at / DayMillis
  }

  /** The day of each event, in order. */
  function DaysOf(events: seq<WatchEvent>): seq<int> {
    seq(|events|, k requires 0 <= k < |events| => Day(events[k].at))
  }

  /** The heatmap cells: one per day with its count, by ascending date. */
  function HeatmapCells(events: seq<WatchEvent>): seq<Entry<int>> {
    Sorting.StableSort(Tally(DaysOf(events)), KeyAtMost)
  }

  /** `HeatmapData`. */
  datatype Heatmap = Heatmap(cells: seq<Entry<int>>, maxCount: nat)

  /** `buildHeatmapData`: group the events by day, sort the days, take the highest count. */
  method BuildHeatmapData(events: seq<WatchEvent>) returns (h: Heatmap)
    ensures h.cells == HeatmapCells(events)
    ensures h.maxCount == MaxCount(h.cells)
  {
    if |events| == 0 {
      return Heatmap([], 0);
    }
    var grouped: seq<Entry<int>> := [];
    for i := 0 to |events|
      invariant grouped == Tally(DaysOf(events[..i]))
    {
      assert DaysOf(events[..i + 1]) == DaysOf(events[..i]) + [Day(events[i].at)];
      TallySnoc(DaysOf(events[..i]), Day(events[i].at));
      grouped := Add(grouped, Day(events[i].at), 1);
    }
    assert events[..|events|] == events;
    var cells := Sorting.StableSort(grouped, KeyAtMost);
    h := Heatmap(cells, MaxCount(cells));
  }

  /** The cells have strictly ascending days, each counts the events of its day, and the counts add up to the number of events. */
  lemma HeatmapCounts(events: seq<WatchEvent>)
    ensures forall i, j :: 0 <= i < j < |HeatmapCells(events)| ==> HeatmapCells(events)[i].key < HeatmapCells(events)[j].key
    ensures forall e :: e in HeatmapCells(events) ==> e.count > 0 && e.count == multiset(DaysOf(events))[e.key]
    ensures Total(HeatmapCells(events)) == |events|
  {
    var days := DaysOf(events);
    var tally := Tally(days);
    TallyFacts(days);
    SortByKeyAscending(tally);
    SortMembers(tally, KeyAtMost);
    SortTotal(tally, KeyAtMost);
    forall e | e in HeatmapCells(events) ensures e.count > 0 && e.count == multiset(days)[e.key] {
      var i :| 0 <= i < |tally| && tally[i] == e;
      CountAt(tally, i);
      assert HasKey(tally, e.key);
    }
  }

  /** Every event's day has a cell. */
  lemma HeatmapCoversEvents(events: seq<WatchEvent>)
    ensures forall k :: 0 <= k < |events| ==> HasKey(HeatmapCells(events), Day(events[k].at))
  {
    var days := DaysOf(events);
    TallyFacts(days);
    SortKeepsKeys(Tally(days), KeyAtMost);
    forall k | 0 <= k < |events| ensures HasKey(HeatmapCells(events), Day(events[k].at)) {
      assert days[k] in days;
    }
  }

  // ----- buildBingeProfile -----

  /** `minutesBetween`: the minutes from start to end, never negative. */
  function MinutesBetween(start: int, end: int): (m: real)
    ensures m >= 0.0
  {
    var d := (end - start) as real / 60000.0;
    if d > 0.0 then d else 0.0
  }

  /** `gap <= gapMinutes`: an event at `at` continues a session that ended at `end`. */
  predicate Continues(end: int, at: int) {
    MinutesBetween(end, at) <= 45.0
  }

  /** The 45-minute gap in milliseconds: a session continues exactly up to 2 700 000 ms after its last event. */
  lemma ContinuesWithin(end: int, at: int)
    ensures Continues(end, at) <==> at - end <= 2_700_000
  {
  }

  /** The comparator `(a, b) => a.at.localeCompare(b.at)`. */
  predicate AtMost(a: WatchEvent, b: WatchEvent) {
    a.at <= b.at
  }

  function SortedEvents(events: seq<WatchEvent>): seq<WatchEvent> {
    Sorting.StableSort(events, AtMost)
  }

  /** The end of the last group. */
  function LastEnd(g: seq<seq<WatchEvent>>): int
    requires g != [] && g[|g| - 1] != []
  {
    g[|g| - 1][|g[|g| - 1]| - 1].at
  }

  /** One more event: it joins the last group when it continues it and starts a new group otherwise. */
  function Extend(g: seq<seq<WatchEvent>>, e: WatchEvent): (r: seq<seq<WatchEvent>>)
    requires forall k :: 0 <= k < |g| ==> g[k] != []
    ensures r != [] && forall k :: 0 <= k < |r| ==> r[k] != []
  {
    if g == [] then [[e]]
    else if Continues(LastEnd(g), e.at) then g[..|g| - 1] + [g[|g| - 1] + [e]]
    else g + [[e]]
  }

  /** The sessions of a time-ordered run of events, as groups of events. */
  function Groups(s: seq<WatchEvent>): (g: seq<seq<WatchEvent>>)
    ensures g == [] <==> s == []
    ensures forall k :: 0 <= k < |g| ==> g[k] != []
  {
    if s == [] then [] else Extend(Groups(s[..|s| - 1]), s[|s| - 1])
  }

  lemma GroupsStep(s: seq<WatchEvent>, i: nat)
    requires i < |s|
    ensures Groups(s[..i + 1]) == Extend(Groups(s[..i]), s[i])
  {
    assert s[..i + 1][..i] == s[..i];
  }

  /** The events of the groups in order. */
  function Flatten(g: seq<seq<WatchEvent>>): seq<WatchEvent> {
    if g == [] then [] else Flatten(g[..|g| - 1]) + g[|g| - 1]
  }

  lemma FlattenSnoc(g: seq<seq<WatchEvent>>, x: seq<WatchEvent>)
    ensures Flatten(g + [x]) == Flatten(g) + x
  {
    assert (g + [x])[..|g|] == g;
  }

  lemma FlattenGrowLast(front: seq<seq<WatchEvent>>, last: seq<WatchEvent>, x: seq<WatchEvent>)
    ensures Flatten(front + [last + x]) == Flatten(front) + last + x
  {
    FlattenSnoc(front, last + x);
  }

  lemma ExtendFlatten(g: seq<seq<WatchEvent>>, e: WatchEvent)
    requires forall k :: 0 <= k < |g| ==> g[k] != []
    ensures Flatten(Extend(g, e)) == Flatten(g) + [e]
  {
    if g == [] {
    } else if Continues(LastEnd(g), e.at) {
      FlattenGrowLast(g[..|g| - 1], g[|g| - 1], [e]);
    } else {
      FlattenSnoc(g, [e]);
    }
  }

  /** The groups partition the events: read in order they give back the sequence. */
  lemma {:induction false} GroupsPartition(s: seq<WatchEvent>)
    ensures Flatten(Groups(s)) == s
  {
    if s != [] {
      assert s == s[..|s| - 1] + [s[|s| - 1]];
      GroupsPartition(s[..|s| - 1]);
      ExtendFlatten(Groups(s[..|s| - 1]), s[|s| - 1]);
    }
  }

  /** Within a group each event continues the one before it. */
  predicate ContinuousGroups(g: seq<seq<WatchEvent>>) {
    forall k, j :: 0 <= k < |g| && 0 < j < |g[k]| ==> Continues(g[k][j - 1].at, g[k][j].at)
  }

  /** Each group after the first begins more than 45 minutes after the one before ended. */
  predicate SeparatedGroups(g: seq<seq<WatchEvent>>)
    requires forall k :: 0 <= k < |g| ==> g[k] != []
  {
    forall k :: 0 < k < |g| ==> !Continues(g[k - 1][|g[k - 1]| - 1].at, g[k][0].at)
  }

  lemma ExtendContinuous(g: seq<seq<WatchEvent>>, e: WatchEvent)
    requires forall k :: 0 <= k < |g| ==> g[k] != []
    requires ContinuousGroups(g)
    ensures ContinuousGroups(Extend(g, e))
  {
    var r: seq<seq<WatchEvent>> := Extend(g, e);
    forall k, j | 0 <= k < |r| && 0 < j < |r[k]| ensures Continues(r[k][j - 1].at, r[k][j].at) {
      if k < |g| - 1 || (k == |g| - 1 && !Continues(LastEnd(g), e.at)) {
        assert r[k] == g[k];
      } else if k == |g| - 1 && j < |r[k]| - 1 {
        assert r[k] == g[k] + [e];
        assert r[k][j - 1] == g[k][j - 1] && r[k][j] == g[k][j];
      }
    }
  }

  lemma ExtendSeparated(g: seq<seq<WatchEvent>>, e: WatchEvent)
    requires forall k :: 0 <= k < |g| ==> g[k] != []
    requires SeparatedGroups(g)
    ensures SeparatedGroups(Extend(g, e))
  {
    var r: seq<seq<WatchEvent>> := Extend(g, e);
    forall k | 0 < k < |r| ensures !Continues(r[k - 1][|r[k - 1]| - 1].at, r[k][0].at) {
      assert r[k - 1] == g[k - 1];
      if k < |g| {
        assert r[k][0] == g[k][0];
      }
    }
  }

  /** A new session starts exactly when the gap exceeds 45 minutes. */
  lemma {:induction false} GroupsSplitAtGaps(s: seq<WatchEvent>)
    ensures ContinuousGroups(Groups(s))
    ensures SeparatedGroups(Groups(s))
  {
    if s != [] {
      GroupsSplitAtGaps(s[..|s| - 1]);
      ExtendContinuous(Groups(s[..|s| - 1]), s[|s| - 1]);
      ExtendSeparated(Groups(s[..|s| - 1]), s[|s| - 1]);
    }
  }

  /** `BingeSession`: `date` is the day of its first event. */
  datatype BingeSession = BingeSession(date: int, start: int, end: int, episodes: nat, animeIds: seq<nat>)

  /** The anime id of each event. */
  function IdsOf(g: seq<WatchEvent>): seq<nat> {
    seq(|g|, k requires 0 <= k < |g| => g[k].animeId)
  }

  /** `Array.from(new Set(ids))`: each id once, in order of first occurrence. */
  function Distinct(ids: seq<nat>): (r: seq<nat>)
    ensures forall x :: x in r <==> x in ids
    ensures forall i, j :: 0 <= i < j < |r| ==> r[i] != r[j]
  {
    if ids == [] then []
    else
      var d := Distinct(ids[..|ids| - 1]);
      assert forall x :: x in ids <==> x in ids[..|ids| - 1] || x == ids[|ids| - 1] by {
        assert ids == ids[..|ids| - 1] + [ids[|ids| - 1]];
      }
      if ids[|ids| - 1] in d then d else d + [ids[|ids| - 1]]
  }

  /** The session being built in the loop: the ids are still raw. */
  function OpenSession(g: seq<WatchEvent>): BingeSession
    requires g != []
  {
    BingeSession(Day(g[0].at), g[0].at, g[|g| - 1].at, |g|, IdsOf(g))
  }

  /** `pushCurrent`: the session with its ids made distinct. */
  function Closed(s: BingeSession): BingeSession {
    s.(animeIds := Distinct(s.animeIds))
  }

  function SessionsOf(g: seq<seq<WatchEvent>>): seq<BingeSession>
    requires forall k :: 0 <= k < |g| ==> g[k] != []
  {
    seq(|g|, k requires 0 <= k < |g| => Closed(OpenSession(g[k])))
  }

  /** The sessions of a list of events. */
  function Sessions(events: seq<WatchEvent>): seq<BingeSession> {
    SessionsOf(Groups(SortedEvents(events)))
  }

  lemma SessionsOfSnoc(g: seq<seq<WatchEvent>>)
    requires g != [] && forall k :: 0 <= k < |g| ==> g[k] != []
    ensures SessionsOf(g) == SessionsOf(g[..|g| - 1]) + [Closed(OpenSession(g[|g| - 1]))]
  {
  }

  /** An event that continues the open session extends it and leaves the closed ones alone. */
  lemma ExtendJoins(g: seq<seq<WatchEvent>>, e: WatchEvent)
    requires g != [] && forall k :: 0 <= k < |g| ==> g[k] != []
    requires Continues(LastEnd(g), e.at)
    ensures var r := Extend(g, e); var o := OpenSession(g[|g| - 1]);
      OpenSession(r[|r| - 1]) == o.(end := e.at, episodes := o.episodes + 1, animeIds := o.animeIds + [e.animeId])
      && SessionsOf(r[..|r| - 1]) == SessionsOf(g[..|g| - 1])
  {
    var last := g[|g| - 1];
    var r: seq<seq<WatchEvent>> := Extend(g, e);
    assert r[..|r| - 1] == g[..|g| - 1];
    assert IdsOf(last + [e]) == IdsOf(last) + [e.animeId];
  }

  /** An event after a long gap closes the open session and opens its own. */
  lemma ExtendSplits(g: seq<seq<WatchEvent>>, e: WatchEvent)
    requires g != [] && forall k :: 0 <= k < |g| ==> g[k] != []
    requires !Continues(LastEnd(g), e.at)
    ensures var r := Extend(g, e);
      OpenSession(r[|r| - 1]) == BingeSession(Day(e.at), e.at, e.at, 1, [e.animeId])
      && SessionsOf(r[..|r| - 1]) == SessionsOf(g[..|g| - 1]) + [Closed(OpenSession(g[|g| - 1]))]
  {
    assert (g + [[e]])[..|g|] == g;
    SessionsOfSnoc(g);
    assert IdsOf([e]) == [e.animeId];
  }

  /** The loop of `buildBingeProfile`: walks the time-ordered events and closes a session at each long gap. */
  method SplitSessions(sorted: seq<WatchEvent>) returns (sessions: seq<BingeSession>)
    ensures sessions == SessionsOf(Groups(sorted))
  {
    sessions := [];
    var current: Option<BingeSession> := None;
    for i := 0 to |sorted|
      invariant var g := Groups(sorted[..i]);
        (g == [] ==> current.None? && sessions == [])
        && (g != [] ==> current == Some(OpenSession(g[|g| - 1])) && sessions == SessionsOf(g[..|g| - 1]))
    {
      var ev := sorted[i];
      GroupsStep(sorted, i);
      ghost var g := Groups(sorted[..i]);
      if current.None? {
        current := Some(BingeSession(Day(ev.at), ev.at, ev.at, 1, [ev.animeId]));
        assert IdsOf([ev]) == [ev.animeId];
      } else {
        var cur := current.value;
        var gap := MinutesBetween(cur.end, ev.at);
        if gap <= 45.0 {
          ExtendJoins(g, ev);
          current := Some(cur.(end := ev.at, episodes := cur.episodes + 1, animeIds := cur.animeIds + [ev.animeId]));
        } else {
          ExtendSplits(g, ev);
          sessions := sessions + [Closed(cur)];
          current := Some(BingeSession(Day(ev.at), ev.at, ev.at, 1, [ev.animeId]));
        }
      }
    }
    assert sorted[..|sorted|] == sorted;
    if current.Some? {
      SessionsOfSnoc(Groups(sorted));
      sessions := sessions + [Closed(current.value)];
    }
  }

  /** A session's episodes are the events of its group. */
  function EpisodeTotal(sessions: seq<BingeSession>): nat {
    if sessions == [] then 0 else EpisodeTotal(sessions[..|sessions| - 1]) + sessions[|sessions| - 1].episodes
  }

  lemma {:induction false} SessionEpisodes(g: seq<seq<WatchEvent>>)
    requires forall k :: 0 <= k < |g| ==> g[k] != []
    ensures EpisodeTotal(SessionsOf(g)) == |Flatten(g)|
  {
    if g != [] {
      SessionEpisodes(g[..|g| - 1]);
      SessionsOfSnoc(g);
      var ss := SessionsOf(g);
      assert ss[..|ss| - 1] == SessionsOf(g[..|g| - 1]);
    }
  }

  /** Every event is in exactly one session: the sessions hold all the events between them. */
  lemma SessionsCoverEvents(events: seq<WatchEvent>)
    ensures EpisodeTotal(Sessions(events)) == |events|
    ensures events != [] <==> Sessions(events) != []
  {
    GroupsPartition(SortedEvents(events));
    SessionEpisodes(Groups(SortedEvents(events)));
  }

  /** The `reduce` keeping the first session with the most episodes. */
  function Longest(sessions: seq<BingeSession>): (r: Option<BingeSession>)
    ensures r.None? <==> sessions == []
  {
    if sessions == [] then None
    else
      var acc := Longest(sessions[..|sessions| - 1]);
      var s := sessions[|sessions| - 1];
      if acc.Some? && acc.value.episodes >= s.episodes then acc else Some(s)
  }

  /** The longest session has the most episodes, and no earlier session has as many. */
  lemma {:induction false} LongestIsFirstMost(sessions: seq<BingeSession>)
    requires sessions != []
    ensures forall j :: 0 <= j < |sessions| ==> sessions[j].episodes <= Longest(sessions).value.episodes
    ensures exists k ::
      0 <= k < |sessions| && sessions[k] == Longest(sessions).value
      && (forall j :: 0 <= j < k ==> sessions[j].episodes < sessions[k].episodes)
  {
    var init := sessions[..|sessions| - 1];
    var s := sessions[|sessions| - 1];
    if init == [] {
      assert sessions[0] == Longest(sessions).value;
    } else {
      LongestIsFirstMost(init);
      var acc := Longest(init).value;
      var k :| 0 <= k < |init| && init[k] == acc && forall j :: 0 <= j < k ==> init[j].episodes < init[k].episodes;
      if acc.episodes >= s.episodes {
        assert sessions[k] == acc;
        assert forall j :: 0 <= j < k ==> sessions[j] == init[j];
      } else {
        assert forall j :: 0 <= j < |init| ==> sessions[j] == init[j];
      }
    }
  }

  /** `episodesPerDay`: the episodes of the sessions summed by the day each session starts. */
  function PerDay(sessions: seq<BingeSession>): seq<Entry<int>> {
    if sessions == [] then []
    else
      var s := sessions[|sessions| - 1];
      Add(PerDay(sessions[..|sessions| - 1]), s.date, s.episodes)
  }

  /** One entry per day, each with the episodes of that day's sessions, summing to all the episodes. */
  lemma {:induction false} PerDayFacts(sessions: seq<BingeSession>)
    ensures DistinctKeys(PerDay(sessions))
    ensures Total(PerDay(sessions)) == EpisodeTotal(sessions)
    ensures forall d :: CountOf(PerDay(sessions), d) == DayEpisodes(sessions, d)
  {
    if sessions != [] {
      var init := sessions[..|sessions| - 1];
      var s := sessions[|sessions| - 1];
      PerDayFacts(init);
      AddDistinct(PerDay(init), s.date, s.episodes);
      AddTotal(PerDay(init), s.date, s.episodes);
      forall d ensures CountOf(PerDay(sessions), d) == DayEpisodes(sessions, d) {
        AddCount(PerDay(init), s.date, s.episodes, d);
      }
    }
  }

  /** The episodes of the sessions that start on day d. */
  function DayEpisodes(sessions: seq<BingeSession>, d: int): nat {
    if sessions == [] then 0
    else
      var s := sessions[|sessions| - 1];
      DayEpisodes(sessions[..|sessions| - 1], d) + (if s.date == d then s.episodes else 0)
  }

  /** The `for (const s of sessions)` loop filling `episodesPerDay`. */
  method SumPerDay(sessions: seq<BingeSession>) returns (perDay: seq<Entry<int>>)
    ensures perDay == PerDay(sessions)
  {
    perDay := [];
    for i := 0 to |sessions|
      invariant perDay == PerDay(sessions[..i])
    {
      assert sessions[..i + 1][..i] == sessions[..i];
      perDay := Add(perDay, sessions[i].date, sessions[i].episodes);
    }
    assert sessions[..|sessions|] == sessions;
  }

  /** `WatcherArchetype`. */
  datatype Archetype = NightOwl | WeekendMarathoner | DailySipper | Casual | UnknownArchetype

  const HourMillis := 3_600_000

  /** `getHours()` in a zone `offsetMinutes` ahead of UTC. */
  function LocalHour(at: int, offsetMinutes: int): (h: int)
    ensures 0 <= h < 24
  {
    ((at + offsetMinutes * 60_000) / HourMillis) % 24
  }

  /** `getDay()` in a zone `offsetMinutes` ahead of UTC: 0 is Sunday, and day 0 of the epoch was a Thursday. */
  function LocalWeekday(at: int, offsetMinutes: int): (d: int)
    ensures 0 <= d < 7
  {
    ((at + offsetMinutes * 60_000) / DayMillis + 4) % 7
  }

  /** A session starting from 21:00 to before 03:00 local time. */
  predicate EveningSession(s: BingeSession, offsetMinutes: int) {
    var h := LocalHour(s.start, offsetMinutes);
    h >= 21 || h < 3
  }

  /** A session starting on a Saturday or a Sunday. */
  predicate WeekendSession(s: BingeSession, offsetMinutes: int) {
    var d := LocalWeekday(s.start, offsetMinutes);
    d == 0 || d == 6
  }

  function CountEvening(sessions: seq<BingeSession>, offsetMinutes: int): (n: nat)
    ensures n <= |sessions|
  {
    if sessions == [] then 0
    else CountEvening(sessions[..|sessions| - 1], offsetMinutes) + (if EveningSession(sessions[|sessions| - 1], offsetMinutes) then 1 else 0)
  }

  function CountWeekend(sessions: seq<BingeSession>, offsetMinutes: int): (n: nat)
    ensures n <= |sessions|
  {
    if sessions == [] then 0
    else CountWeekend(sessions[..|sessions| - 1], offsetMinutes) + (if WeekendSession(sessions[|sessions| - 1], offsetMinutes) then 1 else 0)
  }

  /** `inferArchetypeSimple`. */
  function InferArchetype(sessions: seq<BingeSession>, perDay: seq<Entry<int>>, most: nat, offsetMinutes: int): Archetype {
    var total := |sessions|;
    if total == 0 then UnknownArchetype
    else
      var eveningShare := CountEvening(sessions, offsetMinutes) as real / total as real;
      var weekendShare := CountWeekend(sessions, offsetMinutes) as real / total as real;
      var totalEpisodes := Total(perDay);
      var average := if totalEpisodes > 0 then totalEpisodes as real / total as real else 0.0;
      if eveningShare >= 0.6 && most >= 3 then NightOwl
      else if weekendShare >= 0.6 && most >= 4 then WeekendMarathoner
      else if average <= 2.0 && total >= 5 then DailySipper
      else if average <= 2.0 then Casual
      else UnknownArchetype
  }

  /** A share of at least 0.6 is at least three in five. */
  lemma ShareAtLeast(a: nat, b: nat)
    requires b > 0
    ensures a as real / b as real >= 0.6 <==> 5 * a >= 3 * b
  {
    var y := b as real;
    var d := a as real / y - 0.6;
    assert d * y == a as real - 0.6 * y;
    if d >= 0.0 {
      assert d * y >= 0.0;
    } else {
      assert d * y < 0.0;
    }
  }

  /** An average of at most 2 is at most twice as many episodes as sessions. */
  lemma AverageAtMostTwo(a: nat, b: nat)
    requires b > 0
    ensures (if a > 0 then a as real / b as real else 0.0) <= 2.0 <==> a <= 2 * b
  {
    var y := b as real;
    var d := a as real / y - 2.0;
    assert d * y == a as real - 2.0 * y;
    if d <= 0.0 {
      assert d * y <= 0.0;
    } else {
      assert d * y > 0.0;
    }
  }

  /** The archetype thresholds in whole numbers: a night owl has at least three in five sessions in the evening, and so on down the list. */
  lemma ArchetypeThresholds(sessions: seq<BingeSession>, perDay: seq<Entry<int>>, most: nat, offsetMinutes: int)
    requires sessions != []
    ensures var a := InferArchetype(sessions, perDay, most, offsetMinutes);
      var night := 5 * CountEvening(sessions, offsetMinutes) >= 3 * |sessions| && most >= 3;
      var weekend := 5 * CountWeekend(sessions, offsetMinutes) >= 3 * |sessions| && most >= 4;
      var light := Total(perDay) <= 2 * |sessions|;
      (a == NightOwl <==> night)
      && (a == WeekendMarathoner <==> !night && weekend)
      && (a == DailySipper <==> !night && !weekend && light && |sessions| >= 5)
      && (a == Casual <==> !night && !weekend && light && |sessions| < 5)
      && (a == UnknownArchetype <==> !night && !weekend && !light)
  {
    ShareAtLeast(CountEvening(sessions, offsetMinutes), |sessions|);
    ShareAtLeast(CountWeekend(sessions, offsetMinutes), |sessions|);
    AverageAtMostTwo(Total(perDay), |sessions|);
  }

  /** `BingeProfile`. */
  datatype BingeProfile = BingeProfile(
    totalSessions: nat, longestSession: Option<BingeSession>, averageEpisodesPerSession: real,
    mostEpisodesInADay: nat, archetype: Archetype)

  /**
   * `buildBingeProfile`, with the local zone as an offset: the sessions of the
   * time-ordered events, the first longest one, the mean number of episodes per
   * session (all the events over the number of sessions), the busiest day and the archetype.
   */
  method BuildBingeProfile(events: seq<WatchEvent>, offsetMinutes: int) returns (p: BingeProfile)
    ensures events == [] ==> p == BingeProfile(0, None, 0.0, 0, UnknownArchetype)
    ensures events != [] ==>
      var ss := Sessions(events);
      var most := MaxCount(PerDay(ss));
      p.totalSessions == |ss| >= 1
      && p.longestSession == Longest(ss)
      && p.averageEpisodesPerSession == |events| as real / |ss| as real
      && p.mostEpisodesInADay == most
      && p.archetype == InferArchetype(ss, PerDay(ss), most, offsetMinutes)
  {
    if |events| == 0 {
      return BingeProfile(0, None, 0.0, 0, UnknownArchetype);
    }
    var sorted := SortedEvents(events);
    var sessions := SplitSessions(sorted);
    SessionsCoverEvents(events);
    var totalSessions := |sessions|;
    var longestSession := Longest(sessions);
    var totalEpisodesInSessions := EpisodeTotal(sessions);
    var average := if totalSessions > 0 then totalEpisodesInSessions as real / totalSessions as real else 0.0;
    var perDay := SumPerDay(sessions);
    var most := MaxCount(perDay);
    var archetype := InferArchetype(sessions, perDay, most, offsetMinutes);
    p := BingeProfile(totalSessions, longestSession, average, most, archetype);
  }

  /** The busiest day holds every day's episodes, and the per-day totals add up to all the events. */
  lemma BusiestDay(events: seq<WatchEvent>)
    ensures var ss := Sessions(events);
      (forall d :: DayEpisodes(ss, d) <= MaxCount(PerDay(ss)))
      && Total(PerDay(ss)) == |events|
  {
    var ss := Sessions(events);
    PerDayFacts(ss);
    SessionsCoverEvents(events);
    forall d ensures DayEpisodes(ss, d) <= MaxCount(PerDay(ss)) {
      if HasKey(PerDay(ss), d) {
        var i :| 0 <= i < |PerDay(ss)| && PerDay(ss)[i].key == d;
        CountAt(PerDay(ss), i);
        assert PerDay(ss)[i] in PerDay(ss);
      }
    }
  }

  // ----- buildMilestones -----

  /** The event filters the milestones count by. */
  datatype EventFilter = AtOrBefore(t: int) | Before(t: int) | LateNight(offsetMinutes: int)

  predicate Matches(f: EventFilter, ev: WatchEvent) {
    match f
    case AtOrBefore(t) => ev.at <= t
    case Before(t) => ev.at < t
    // `getHours()` from 0 to before 3
    case LateNight(offset) => LocalHour(ev.at, offset) < 3
  }

  /** `events.filter(...).length`. */
  function CountWhere(s: seq<WatchEvent>, f: EventFilter): (n: nat)
    ensures n <= |s|
  {
    if s == [] then 0 else CountWhere(s[..|s| - 1], f) + (if Matches(f, s[|s| - 1]) then 1 else 0)
  }

  lemma {:induction false} CountWhereAppend(a: seq<WatchEvent>, b: seq<WatchEvent>, f: EventFilter)
    ensures CountWhere(a + b, f) == CountWhere(a, f) + CountWhere(b, f)
  {
    if b != [] {
      assert (a + b)[..|a + b| - 1] == a + b[..|b| - 1];
      assert (a + b)[|a + b| - 1] == b[|b| - 1];
      CountWhereAppend(a, b[..|b| - 1], f);
    } else {
      assert a + b == a;
    }
  }

  /** Taking out the event at j takes out its count. */
  lemma RemoveAt(b: seq<WatchEvent>, j: nat, f: EventFilter)
    requires j < |b|
    ensures multiset(b[..j] + b[j + 1..]) == multiset(b) - multiset{b[j]}
    ensures CountWhere(b, f) == CountWhere(b[..j] + b[j + 1..], f) + (if Matches(f, b[j]) then 1 else 0)
  {
    assert b == b[..j] + [b[j]] + b[j + 1..];
    CountWhereAppend(b[..j] + [b[j]], b[j + 1..], f);
    CountWhereAppend(b[..j], [b[j]], f);
    CountWhereAppend(b[..j], b[j + 1..], f);
    assert [b[j]][..0] == [];
  }

  /** Taking the last of a and its copy at j in b off two permutations leaves permutations. */
  lemma RemoveMatchingLast(a: seq<WatchEvent>, b: seq<WatchEvent>, j: nat, f: EventFilter)
    requires multiset(a) == multiset(b) && a != [] && j < |b| && b[j] == a[|a| - 1]
    ensures multiset(a[..|a| - 1]) == multiset(b[..j] + b[j + 1..])
  {
    assert multiset(a) == multiset(a[..|a| - 1]) + multiset{a[|a| - 1]} by {
      assert a == a[..|a| - 1] + [a[|a| - 1]];
    }
    RemoveAt(b, j, f);
  }

  /** Counting does not depend on the order of the events. */
  lemma {:induction false} CountWherePermutation(a: seq<WatchEvent>, b: seq<WatchEvent>, f: EventFilter)
    requires multiset(a) == multiset(b)
    ensures CountWhere(a, f) == CountWhere(b, f)
    decreases |a|
  {
    if a != [] {
      assert a[|a| - 1] in multiset(b) by {
        assert a[|a| - 1] in a;
      }
      var j :| 0 <= j < |b| && b[j] == a[|a| - 1];
      RemoveAt(b, j, f);
      RemoveMatchingLast(a, b, j, f);
      CountWherePermutation(a[..|a| - 1], b[..j] + b[j + 1..], f);
    } else {
      assert |b| == |multiset(b)| == 0;
    }
  }

  lemma AtMostIsPreorder()
    ensures Sorting.TotalPreorder(AtMost)
  {
  }

  /** `findAchievementDate`: the time of the target-th event in time order, if there are that many. */
  method FindAchievementDate(events: seq<WatchEvent>, target: int) returns (r: Option<int>)
    ensures target <= 0 || |events| < target ==> r.None?
    ensures 0 < target <= |events| ==> r == Some(SortedEvents(events)[target - 1].at)
  {
    if target <= 0 {
      return None;
    }
    var count := 0;
    var sorted := SortedEvents(events);
    for i := 0 to |sorted|
      invariant count == i < target
    {
      count := count + 1;
      if count >= target {
        return Some(sorted[i].at);
      }
    }
    return None;
  }

  /** In time order the target-th event is reached by target events. */
  lemma SortedReached(s: seq<WatchEvent>, target: nat)
    requires Sorting.Sorted(s, AtMost) && 0 < target <= |s|
    ensures CountWhere(s, AtOrBefore(s[target - 1].at)) >= target
  {
    var t := s[target - 1].at;
    var head := s[..target];
    forall k | 0 <= k < |head| ensures Matches(AtOrBefore(t), head[k]) {
      if k < target - 1 {
        assert AtMost(s[k], s[target - 1]);
      }
    }
    AllMatch(head, AtOrBefore(t));
    assert s == head + s[target..];
    CountWhereAppend(head, s[target..], AtOrBefore(t));
  }

  /** In time order fewer than target events come strictly before the target-th. */
  lemma SortedNotYetReached(s: seq<WatchEvent>, target: nat)
    requires Sorting.Sorted(s, AtMost) && 0 < target <= |s|
    ensures CountWhere(s, Before(s[target - 1].at)) < target
  {
    var t := s[target - 1].at;
    var head, tail := s[..target - 1], s[target - 1..];
    forall k | 0 <= k < |tail| ensures !Matches(Before(t), tail[k]) {
      if k > 0 {
        assert AtMost(s[target - 1], s[target - 1 + k]);
      }
    }
    NoneMatch(tail, Before(t));
    assert s == head + tail;
    CountWhereAppend(head, tail, Before(t));
  }

  /** The achievement time is the moment the target is reached: at least target events by then, fewer before it. */
  lemma AchievementIsTargetEvent(events: seq<WatchEvent>, target: nat)
    requires 0 < target <= |events|
    ensures var t := SortedEvents(events)[target - 1].at;
      CountWhere(events, AtOrBefore(t)) >= target && CountWhere(events, Before(t)) < target
  {
    var sorted := SortedEvents(events);
    var t := sorted[target - 1].at;
    AtMostIsPreorder();
    Sorting.StableSortSorted(events, AtMost);
    CountWherePermutation(events, sorted, AtOrBefore(t));
    CountWherePermutation(events, sorted, Before(t));
    SortedReached(sorted, target);
    SortedNotYetReached(sorted, target);
  }

  lemma {:induction false} AllMatch(s: seq<WatchEvent>, f: EventFilter)
    requires forall k :: 0 <= k < |s| ==> Matches(f, s[k])
    ensures CountWhere(s, f) == |s|
  {
    if s != [] {
      AllMatch(s[..|s| - 1], f);
    }
  }

  lemma {:induction false} NoneMatch(s: seq<WatchEvent>, f: EventFilter)
    requires forall k :: 0 <= k < |s| ==> !Matches(f, s[k])
    ensures CountWhere(s, f) == 0
  {
    if s != [] {
      NoneMatch(s[..|s| - 1], f);
    }
  }

  /** `MilestoneProgress`. */
  datatype Milestone = Milestone(id: string, title: string, description: string, current: int, target: nat, achievedAt: Option<int>)

  /** `library.filter(a => a.status === 'completed').length`. */
  function CompletedCount(library: seq<Anime>): (n: nat)
    ensures n <= |library|
  {
    if library == [] then 0
    else CompletedCount(library[..|library| - 1]) + (if library[|library| - 1].status == Completed then 1 else 0)
  }

  /**
   * `buildMilestones`: the four milestones, each at min(actual, target); the
   * rewatch count is always 0; 100 events or more give episodes_100 the time of the 100th.
   */
  method BuildMilestones(library: seq<Anime>, events: seq<WatchEvent>, offsetMinutes: int) returns (ms: seq<Milestone>)
    ensures |ms| == 4
    ensures ms[0] == Milestone("episodes_100", "100 Episodes Watched", "Reach 100 watched episodes",
      Numbers.Min(|events|, 100), 100, if |events| >= 100 then Some(SortedEvents(events)[99].at) else None)
    ensures ms[1] == Milestone("anime_completed_10", "10 Anime Completed", "Complete 10 anime",
      Numbers.Min(CompletedCount(library), 10), 10, None)
    ensures ms[2] == Milestone("rewatches_3", "3 Anime Rewatched", "Rewatch 3 anime", 0, 3, None)
    ensures ms[3] == Milestone("late_night_50", "50 Late Night Episodes", "Watch 50 episodes between 00:00–03:00",
      Numbers.Min(CountWhere(events, LateNight(offsetMinutes)), 50), 50, None)
    ensures forall k :: 0 <= k < 4 ==> 0 <= ms[k].current <= ms[k].target
  {
    var totalEpisodes := |events|;
    var completedCount := CompletedCount(library);
    var rewatchCount := 0;
    var lateNightCount := CountWhere(events, LateNight(offsetMinutes));
    ms := [
      Milestone("episodes_100", "100 Episodes Watched", "Reach 100 watched episodes", Numbers.Min(totalEpisodes, 100), 100, None),
      Milestone("anime_completed_10", "10 Anime Completed", "Complete 10 anime", Numbers.Min(completedCount, 10), 10, None),
      Milestone("rewatches_3", "3 Anime Rewatched", "Rewatch 3 anime", Numbers.Min(rewatchCount, 3), 3, None),
      Milestone("late_night_50", "50 Late Night Episodes", "Watch 50 episodes between 00:00–03:00",
        Numbers.Min(lateNightCount, 50), 50, None)
    ];
    if totalEpisodes >= ms[0].target {
      var at := FindAchievementDate(events, ms[0].target);
      ms := ms[0 := ms[0].(achievedAt := at)];
    }
  }

  // ----- buildYearlySummary -----

  /** The proleptic Gregorian year of a UTC timestamp (the days-to-civil-date conversion). */
  function YearOf(at: int): int {
    var z := at / DayMillis + 719468;
    var era := z / 146097;
    var doe := z - era * 146097;
    var yoe := (doe - doe / 1460 + doe / 36524 - doe / 146096) / 365;
    var doy := doe - (365 * yoe + yoe / 4 - yoe / 100);
    var mp := (5 * doy + 2) / 153;
    var y := yoe + era * 400;
    // January and February count from March of the year before
    if mp >= 10 then y + 1 else y
  }

  /**
   * `ev.at.startsWith(`${year}-`)`: the ISO form begins with four year digits,
   * so only the years 1000 to 9999 can match.
   */
  predicate InYear(at: int, year: int) {
    1000 <= year <= 9999 && YearOf(at) == year
  }

  /** The events of the year, in their order. */
  function YearEvents(events: seq<WatchEvent>, year: int): (f: seq<WatchEvent>)
    ensures |f| <= |events|
    ensures forall ev :: ev in f <==> ev in events && InYear(ev.at, year)
  {
    if events == [] then []
    else
      var init := events[..|events| - 1];
      var ev := events[|events| - 1];
      assert events == init + [ev];
      YearEvents(init, year) + (if InYear(ev.at, year) then [ev] else [])
  }

  /** The `firstEventByAnime` loop: the time of each anime's first event. */
  method FirstEvents(filtered: seq<WatchEvent>) returns (first: map<nat, int>)
    ensures first.Keys == set ev | ev in filtered :: ev.animeId
    ensures forall id :: id in first ==> exists k ::
      0 <= k < |filtered| && filtered[k].animeId == id && first[id] == filtered[k].at
      && (forall j :: 0 <= j < k ==> filtered[j].animeId != id)
  {
    first := map[];
    for i := 0 to |filtered|
      invariant first.Keys == set ev | ev in filtered[..i] :: ev.animeId
      invariant forall id :: id in first ==> exists k ::
        0 <= k < i && filtered[k].animeId == id && first[id] == filtered[k].at
        && (forall j :: 0 <= j < k ==> filtered[j].animeId != id)
    {
      var ev := filtered[i];
      assert filtered[..i + 1] == filtered[..i] + [ev];
      if ev.animeId !in first {
        assert forall j :: 0 <= j < i ==> filtered[j].animeId != ev.animeId by {
          forall j | 0 <= j < i ensures filtered[j].animeId != ev.animeId {
            assert filtered[j] in filtered[..i];
          }
        }
        first := first[ev.animeId := ev.at];
      }
    }
    assert filtered[..|filtered|] == filtered;
  }

  /** `hasEventInYear`: an event of the year for the entry's numeric id (the comparison with the string id never holds). */
  predicate HasEventFor(filtered: seq<WatchEvent>, a: Anime) {
    exists k :: 0 <= k < |filtered| && LibraryStore.NumericId(a.id) == Some(filtered[k].animeId)
  }

  /** The `animeCompleted` filter for a library without `completedAt` dates. */
  predicate CompletedInYear(filtered: seq<WatchEvent>, a: Anime) {
    a.status == Completed && HasEventFor(filtered, a)
    && a.episodes.Some? && a.progress.Some? && a.progress.value >= a.episodes.value
  }

  function CountCompleted(library: seq<Anime>, filtered: seq<WatchEvent>): (n: nat)
    ensures n <= CompletedCount(library)
  {
    if library == [] then 0
    else
      CountCompleted(library[..|library| - 1], filtered)
      + (if CompletedInYear(filtered, library[|library| - 1]) then 1 else 0)
  }

  /**
   * `animeById` under its number keys: `number(a.id)` (`Number` in the source,
   * see IndexLibrary), a later entry replacing an earlier one.
   */
  function NumberIndex(library: seq<Anime>, number: string -> Option<nat>): map<nat, Anime> {
    if library == [] then map[]
    else
      var m := NumberIndex(library[..|library| - 1], number);
      var a := library[|library| - 1];
      match number(a.id)
      case Some(n) => m[n := a]
      case None => m
  }

  /** `animeById` under its string keys. */
  function StringIndex(library: seq<Anime>): map<string, Anime> {
    if library == [] then map[]
    else
      var a := library[|library| - 1];
      StringIndex(library[..|library| - 1])[a.id := a]
  }

  /** The `animeById` loop. */
  method IndexLibrary(library: seq<Anime>) returns (byNumber: map<nat, Anime>, byId: map<string, Anime>)
    ensures byNumber == NumberIndex(library, LibraryStore.NumericId) && byId == StringIndex(library)
  {
    byNumber, byId := map[], map[];
    for i := 0 to |library|
      invariant byNumber == NumberIndex(library[..i], LibraryStore.NumericId) && byId == StringIndex(library[..i])
    {
      var a := library[i];
      assert library[..i + 1][..i] == library[..i];
      byId := byId[a.id := a];
      var n := LibraryStore.NumericId(a.id);
      if n.Some? {
        byNumber := byNumber[n.value := a];
      }
    }
    assert library[..|library|] == library;
  }

  /** A number is a key exactly when some entry's id spells it. */
  lemma {:induction false} NumberIndexKeys(library: seq<Anime>, number: string -> Option<nat>, n: nat)
    ensures n in NumberIndex(library, number) <==> exists k :: 0 <= k < |library| && number(library[k].id) == Some(n)
  {
    if library != [] {
      var init := library[..|library| - 1];
      NumberIndexKeys(init, number, n);
      assert forall k :: 0 <= k < |init| ==> init[k] == library[k];
    }
  }

  /** The entry under a number is the last one whose id spells it. */
  lemma {:induction false} NumberIndexLast(library: seq<Anime>, number: string -> Option<nat>, n: nat)
    requires n in NumberIndex(library, number)
    ensures exists k ::
      0 <= k < |library| && library[k] == NumberIndex(library, number)[n] && number(library[k].id) == Some(n)
      && (forall j :: k < j < |library| ==> number(library[j].id) != Some(n))
  {
    var init := library[..|library| - 1];
    var a := library[|library| - 1];
    if number(a.id) != Some(n) {
      assert n in NumberIndex(init, number) && NumberIndex(library, number)[n] == NumberIndex(init, number)[n];
      NumberIndexLast(init, number, n);
      var k :| 0 <= k < |init| && init[k] == NumberIndex(init, number)[n] && number(init[k].id) == Some(n)
        && (forall j :: k < j < |init| ==> number(init[j].id) != Some(n));
      assert library[k] == init[k];
      forall j | k < j < |library|
        ensures number(library[j].id) != Some(n)
      {
        if j < |init| {
          assert library[j] == init[j];
        }
      }
    } else {
      assert NumberIndex(library, number)[n] == a;
    }
  }

  /** `animeById.get(id) || animeById.get(String(id))`. */
  function Lookup(byNumber: map<nat, Anime>, byId: map<string, Anime>, id: nat): (r: Option<Anime>)
    ensures r.Some? <==> id in byNumber || NatToString(id) in byId
  {
    if id in byNumber then Some(byNumber[id])
    else if NatToString(id) in byId then Some(byId[NatToString(id)])
    else None
  }

  /** The genres of a found anime; none when it is not found. */
  function GenresFound(r: Option<Anime>): seq<string> {
    match r
    case Some(a) => a.genres
    case None => []
  }

  /** The genres of the year's events, one run per event whose anime is found. */
  function FoundGenres(filtered: seq<WatchEvent>, byNumber: map<nat, Anime>, byId: map<string, Anime>): seq<string> {
    if filtered == [] then []
    else
      FoundGenres(filtered[..|filtered| - 1], byNumber, byId)
      + GenresFound(Lookup(byNumber, byId, filtered[|filtered| - 1].animeId))
  }

  lemma FoundGenresStep(filtered: seq<WatchEvent>, byNumber: map<nat, Anime>, byId: map<string, Anime>, i: nat)
    requires i < |filtered|
    ensures FoundGenres(filtered[..i + 1], byNumber, byId)
      == FoundGenres(filtered[..i], byNumber, byId) + GenresFound(Lookup(byNumber, byId, filtered[i].animeId))
  {
    assert filtered[..i + 1][..i] == filtered[..i];
  }

  /** The loop filling `genreCounts` and `eventsPerAnime`. */
  method CountYear(filtered: seq<WatchEvent>, byNumber: map<nat, Anime>, byId: map<string, Anime>)
    returns (genreCounts: seq<Entry<string>>, eventsPerAnime: seq<Entry<nat>>)
    ensures genreCounts == Tally(FoundGenres(filtered, byNumber, byId))
    ensures eventsPerAnime == Tally(IdsOf(filtered))
  {
    genreCounts, eventsPerAnime := [], [];
    for i := 0 to |filtered|
      invariant genreCounts == Tally(FoundGenres(filtered[..i], byNumber, byId))
      invariant eventsPerAnime == Tally(IdsOf(filtered[..i]))
    {
      var ev := filtered[i];
      var anime := Lookup(byNumber, byId, ev.animeId);
      ghost var before := FoundGenres(filtered[..i], byNumber, byId);
      FoundGenresStep(filtered, byNumber, byId, i);
      if anime.Some? {
        genreCounts := CountGenres(genreCounts, anime.value.genres, before);
      } else {
        assert before + GenresFound(anime) == before;
      }
      IdsOfStep(filtered, i);
      TallySnoc(IdsOf(filtered[..i]), ev.animeId);
      eventsPerAnime := Add(eventsPerAnime, ev.animeId, 1);
    }
    assert filtered[..|filtered|] == filtered;
  }

  lemma IdsOfStep(s: seq<WatchEvent>, i: nat)
    requires i < |s|
    ensures IdsOf(s[..i + 1]) == IdsOf(s[..i]) + [s[i].animeId]
  {
  }

  /** `TopAnimeSummary`. */
  datatype TopAnime = TopAnime(animeId: nat, title: string, episodes: nat)

  /** The `topAnime` map: each counted id with its title, or 'Unknown'. */
  function Titled(top: seq<Entry<nat>>, byNumber: map<nat, Anime>, byId: map<string, Anime>): (r: seq<TopAnime>)
    ensures |r| == |top|
    ensures forall k :: 0 <= k < |r| ==> r[k].animeId == top[k].key && r[k].episodes == top[k].count
  {
    seq(|top|, k requires 0 <= k < |top| =>
      TopAnime(top[k].key, match Lookup(byNumber, byId, top[k].key) case Some(a) => a.title case None => "Unknown", top[k].count))
  }

  /** `YearlySummary`; `topGenres` pairs each genre with its count. */
  datatype YearlySummary = YearlySummary(
    year: int, totalEpisodes: nat, totalHours: real, animeStarted: nat, animeCompleted: nat,
    topGenres: seq<Entry<string>>, topAnime: seq<TopAnime>)

  function YearGenres(filtered: seq<WatchEvent>, library: seq<Anime>): seq<string> {
    FoundGenres(filtered, NumberIndex(library, LibraryStore.NumericId), StringIndex(library))
  }

  /**
   * `buildYearlySummary`: nothing for a year without events; otherwise the
   * year's episodes and hours, the distinct anime watched, the completed ones,
   * and the three top genres and anime.
   */
  method BuildYearlySummary(library: seq<Anime>, events: seq<WatchEvent>, year: int) returns (r: Option<YearlySummary>)
    ensures r.None? <==> YearEvents(events, year) == []
    ensures r.Some? ==>
      var f := YearEvents(events, year);
      r.value.year == year && r.value.totalEpisodes == |f|
      && r.value.totalHours == (|f| * EpisodeMinutes) as real / 60.0
      && r.value.animeStarted == |set ev | ev in f :: ev.animeId|
      && r.value.animeCompleted == CountCompleted(library, f)
      && r.value.topGenres == TopOf(YearGenres(f, library), 3)
      && r.value.topAnime == Titled(TopOf(IdsOf(f), 3), NumberIndex(library, LibraryStore.NumericId), StringIndex(library))
  {
    var filtered := YearEvents(events, year);
    if |filtered| == 0 {
      return None;
    }
    var totalEpisodes := |filtered|;
    var totalHours := (totalEpisodes * EpisodeMinutes) as real / 60.0;
    var firstEventByAnime := FirstEvents(filtered);
    var animeStarted := |firstEventByAnime.Keys|;
    var animeCompleted := CountCompleted(library, filtered);
    var byNumber, byId := IndexLibrary(library);
    var genreCounts, eventsPerAnime := CountYear(filtered, byNumber, byId);
    var topGenres := Sorting.Take(Sorting.StableSort(genreCounts, CountAtLeast), 3);
    var topAnime := Titled(Sorting.Take(Sorting.StableSort(eventsPerAnime, CountAtLeast), 3), byNumber, byId);
    r := Some(YearlySummary(year, totalEpisodes, totalHours, animeStarted, animeCompleted, topGenres, topAnime));
  }

  /**
   * The anime counted per event are exactly the anime started in the year, and
   * their counts add up to the year's episodes (the top three are TopOfTally's).
   */
  lemma YearlyAnimeCounts(f: seq<WatchEvent>)
    ensures |Tally(IdsOf(f))| == |set ev | ev in f :: ev.animeId|
    ensures Total(Tally(IdsOf(f))) == |f|
  {
    TallyFacts(IdsOf(f));
    TallyKeySet(IdsOf(f));
    IdSet(f);
  }

  /** The anime of the events are the elements of their ids. */
  lemma IdSet(f: seq<WatchEvent>)
    ensures (set ev | ev in f :: ev.animeId) == KeySet(IdsOf(f))
  {
    var a, b := set ev | ev in f :: ev.animeId, KeySet(IdsOf(f));
    forall id | id in a ensures id in b {
      var ev :| ev in f && ev.animeId == id;
      var k :| 0 <= k < |f| && f[k] == ev;
      assert IdsOf(f)[k] == id;
    }
    forall id | id in b ensures id in a {
      var k :| 0 <= k < |IdsOf(f)| && IdsOf(f)[k] == id;
      assert f[k] in f;
    }
  }

  /** The top genres are the year's three commonest genres among the anime found, highest count first. */
  lemma YearlyTopGenres(f: seq<WatchEvent>, library: seq<Anime>)
    ensures |TopOf(YearGenres(f, library), 3)| <= 3
    ensures forall i, j :: 0 <= i < j < |TopOf(YearGenres(f, library), 3)| ==>
      TopOf(YearGenres(f, library), 3)[i].count >= TopOf(YearGenres(f, library), 3)[j].count
    ensures forall e :: e in TopOf(YearGenres(f, library), 3) ==> e.count == multiset(YearGenres(f, library))[e.key]
    ensures forall g :: g in YearGenres(f, library) && !HasKey(TopOf(YearGenres(f, library), 3), g) ==>
      |TopOf(YearGenres(f, library), 3)| == 3
  {
    TopOfTally(YearGenres(f, library), 3);
  }
}
