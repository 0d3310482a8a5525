// Resolution of an absolute episode number against a franchise timeline
// (apps/desktop/src/renderer/services/tracking.service.ts).
module FranchiseResolver {
  import opened Wrappers
  import opened Numbers
  import opened AnimeModel

  /** Episodes assumed for a season whose count is missing or 0 (an airing show). */
  const FallbackSeasonLength: nat := 25

  /** `episodes || 25`. */
  function SeasonLength(a: Anime): (n: nat)
    ensures n >= 1
  {
    if a.episodes.Some? && a.episodes.value != 0 then a.episodes.value else FallbackSeasonLength
  }

  /** `getEpisodeCountsFromTimeline`: one count per season, the known count or 25. */
  function EpisodeCountsFromTimeline(timeline: seq<Anime>): (r: seq<nat>)
    ensures |r| == |timeline|
    ensures forall i :: 0 <= i < |timeline| ==> r[i] >= 1
    ensures forall i :: 0 <= i < |timeline| ==>
      r[i] == (if timeline[i].episodes.Some? && timeline[i].episodes.value > 0 then timeline[i].episodes.value else 25)
  {
    seq(|timeline|, i requires 0 <= i < |timeline| => SeasonLength(timeline[i]))
  }

  /** Episodes of the first k seasons (the loop's `cumulativeOffset` before season k). */
  function Offset(timeline: seq<Anime>, k: nat): nat
    requires k <= |timeline|
  {
    Sum(EpisodeCountsFromTimeline(timeline)[..k])
  }

  lemma OffsetStep(timeline: seq<Anime>, k: nat)
    requires k < |timeline|
    ensures Offset(timeline, k + 1) == Offset(timeline, k) + SeasonLength(timeline[k])
  {
    PrefixSumStep(EpisodeCountsFromTimeline(timeline), k);
  }

  /** Every season has at least one episode, so the offsets strictly increase. */
  lemma {:induction false} OffsetStrictlyIncreasing(timeline: seq<Anime>, i: nat, j: nat)
    requires i < j <= |timeline|
    ensures Offset(timeline, i) < Offset(timeline, j)
    decreases j - i
  {
    OffsetStep(timeline, j - 1);
    if i < j - 1 {
      OffsetStrictlyIncreasing(timeline, i, j - 1);
    }
  }

  /** The episode count the fallback adds back for the last season: `episodes || 0`. */
  function KnownCount(a: Anime): nat {
    if a.episodes.Some? then a.episodes.value else 0
  }

  datatype Resolution = Resolution(animeId: string, episode: int, title: string)

  /** Whether the first k + 1 seasons reach the absolute episode. */
  predicate Reaches(timeline: seq<Anime>, absoluteEpisode: int, k: nat)
    requires k < |timeline|
  {
    absoluteEpisode <= Offset(timeline, k + 1)
  }

  /** The first season whose cumulative range reaches the absolute episode. */
  function FirstCovering(timeline: seq<Anime>, absoluteEpisode: int, i: nat): (k: nat)
    requires i < |timeline|
    requires absoluteEpisode <= Offset(timeline, |timeline|)
    ensures i <= k < |timeline|
    ensures absoluteEpisode <= Offset(timeline, k + 1)
    ensures forall j :: i <= j < k ==> !Reaches(timeline, absoluteEpisode, j)
    decreases |timeline| - i
  {
    if absoluteEpisode <= Offset(timeline, i + 1) || i + 1 == |timeline| then i
    else FirstCovering(timeline, absoluteEpisode, i + 1)
  }

  /**
   * What `resolveFranchiseEpisode` returns: null for an empty timeline; the first
   * season whose cumulative range reaches the episode, with the episode made
   * relative to it; past the end of the timeline, the last season.
   */
  function Resolve(timeline: seq<Anime>, absoluteEpisode: int): (r: Option<Resolution>)
    ensures r.None? <==> timeline == []
    ensures r.Some? && 0 < absoluteEpisode <= Offset(timeline, |timeline|) ==>
      exists k :: 0 <= k < |timeline| && timeline[k].id == r.value.animeId
        && 1 <= r.value.episode <= SeasonLength(timeline[k])
  {
    if timeline == [] then None
    else
      var n := |timeline|;
      if absoluteEpisode <= Offset(timeline, n) then
        var k := FirstCovering(timeline, absoluteEpisode, 0);
        OffsetStep(timeline, k);
        assert k > 0 ==> !Reaches(timeline, absoluteEpisode, k - 1);
        Some(Resolution(timeline[k].id, absoluteEpisode - Offset(timeline, k), timeline[k].title))
      else
        var last := timeline[n - 1];
        Some(Resolution(last.id, absoluteEpisode - Offset(timeline, n) + KnownCount(last), last.title))
  }

  /** The loop of `resolveFranchiseEpisode`, with its early return. */
  method ResolveFranchiseEpisode(timeline: seq<Anime>, absoluteEpisode: int) returns (r: Option<Resolution>)
    ensures r == Resolve(timeline, absoluteEpisode)
  {
    if |timeline| == 0 {
      return None;
    }
    var cumulativeOffset := 0;
    for i := 0 to |timeline|
      invariant cumulativeOffset == Offset(timeline, i)
      invariant forall j :: 0 <= j < i ==> !Reaches(timeline, absoluteEpisode, j)
    {
      var maxEpisodes := SeasonLength(timeline[i]);
      OffsetStep(timeline, i);
      if absoluteEpisode <= cumulativeOffset + maxEpisodes {
        FirstReachResolves(timeline, absoluteEpisode, i);
        return Some(Resolution(timeline[i].id, absoluteEpisode - cumulativeOffset, timeline[i].title));
      }
      cumulativeOffset := cumulativeOffset + maxEpisodes;
    }
    var lastAnime := timeline[|timeline| - 1];
    assert !Reaches(timeline, absoluteEpisode, |timeline| - 1);
    r := Some(Resolution(lastAnime.id, absoluteEpisode - cumulativeOffset + KnownCount(lastAnime), lastAnime.title));
  }

  /** The first season that reaches the episode is the one resolved. */
  lemma FirstReachResolves(timeline: seq<Anime>, absoluteEpisode: int, i: nat)
    requires i < |timeline| && Reaches(timeline, absoluteEpisode, i)
    requires forall j :: 0 <= j < i ==> !Reaches(timeline, absoluteEpisode, j)
    ensures Resolve(timeline, absoluteEpisode) ==
      Some(Resolution(timeline[i].id, absoluteEpisode - Offset(timeline, i), timeline[i].title))
  {
    if i + 1 < |timeline| {
      OffsetStrictlyIncreasing(timeline, i + 1, |timeline|);
    }
    var k := FirstCovering(timeline, absoluteEpisode, 0);
    assert Reaches(timeline, absoluteEpisode, k);
  }

  /** An empty timeline gives null, any other timeline a season of it. */
  lemma ResolveNullExactlyWhenEmpty(timeline: seq<Anime>, absoluteEpisode: int)
    ensures Resolve(timeline, absoluteEpisode).None? <==> timeline == []
    ensures Resolve(timeline, absoluteEpisode).Some? ==>
      exists k :: 0 <= k < |timeline| && timeline[k].id == Resolve(timeline, absoluteEpisode).value.animeId
        && timeline[k].title == Resolve(timeline, absoluteEpisode).value.title
  {
    if timeline != [] {
      var n := |timeline|;
      if absoluteEpisode <= Offset(timeline, n) {
        var k := FirstCovering(timeline, absoluteEpisode, 0);
        assert timeline[k].id == Resolve(timeline, absoluteEpisode).value.animeId;
      } else {
        assert timeline[n - 1].id == Resolve(timeline, absoluteEpisode).value.animeId;
      }
    }
  }

  /**
   * Within the timeline's total, the absolute episode lands in the season k with
   * Offset(k) < abs <= Offset(k + 1), as episode abs - Offset(k), which lies in
   * 1..(that season's length).
   */
  lemma ResolveWithinTimeline(timeline: seq<Anime>, absoluteEpisode: int, k: nat)
    requires k < |timeline|
    requires Offset(timeline, k) < absoluteEpisode <= Offset(timeline, k + 1)
    ensures Resolve(timeline, absoluteEpisode) ==
      Some(Resolution(timeline[k].id, absoluteEpisode - Offset(timeline, k), timeline[k].title))
    ensures 1 <= absoluteEpisode - Offset(timeline, k) <= SeasonLength(timeline[k])
  {
    OffsetStep(timeline, k);
    if k + 1 < |timeline| {
      OffsetStrictlyIncreasing(timeline, k + 1, |timeline|);
    }
    var f := FirstCovering(timeline, absoluteEpisode, 0);
    assert Reaches(timeline, absoluteEpisode, k) && Reaches(timeline, absoluteEpisode, f);
    if f + 1 < k {
      OffsetStrictlyIncreasing(timeline, f + 1, k);
    }
  }

  /** Every absolute episode in 1..total has such a season. */
  lemma {:induction false} CoveringSeasonExists(timeline: seq<Anime>, absoluteEpisode: int) returns (k: nat)
    requires 1 <= absoluteEpisode <= Offset(timeline, |timeline|)
    ensures k < |timeline| && Offset(timeline, k) < absoluteEpisode <= Offset(timeline, k + 1)
  {
    k := 0;
    while absoluteEpisode > Offset(timeline, k + 1)
      invariant k < |timeline| && Offset(timeline, k) < absoluteEpisode
      decreases |timeline| - k
    {
      if k + 1 == |timeline| {
        assert false;
      }
      k := k + 1;
    }
  }

  /**
   * Past the end of the timeline the last season is used. When its count is
   * known the episode is abs minus the earlier seasons, which is more than
   * that count.
   */
  lemma ResolvePastTimeline(timeline: seq<Anime>, absoluteEpisode: int)
    requires |timeline| > 0 && absoluteEpisode > Offset(timeline, |timeline|)
    requires timeline[|timeline| - 1].episodes.Some? && timeline[|timeline| - 1].episodes.value > 0
    ensures var n := |timeline|;
      Resolve(timeline, absoluteEpisode) ==
        Some(Resolution(timeline[n - 1].id, absoluteEpisode - Offset(timeline, n - 1), timeline[n - 1].title))
    ensures Resolve(timeline, absoluteEpisode).value.episode > timeline[|timeline| - 1].episodes.value
  {
    OffsetStep(timeline, |timeline| - 1);
  }

  /** A season with a missing or zero count spans 25 absolute episodes. */
  lemma UnknownSeasonSpans25(timeline: seq<Anime>, k: nat)
    requires k < |timeline| && (timeline[k].episodes.None? || timeline[k].episodes.value == 0)
    ensures Offset(timeline, k + 1) == Offset(timeline, k) + 25
  {
    OffsetStep(timeline, k);
  }

  /** The documented example: seasons of 12 and 11 episodes, absolute episode 14, is episode 2 of the second season. */
  lemma ResolveDocExample(s1: Anime, s2: Anime)
    requires s1.episodes == Some(12) && s2.episodes == Some(11)
    ensures Resolve([s1, s2], 14) == Some(Resolution(s2.id, 2, s2.title))
  {
    var t := [s1, s2];
    var c := EpisodeCountsFromTimeline(t);
    assert c == [12, 11];
    assert c[..1] == [12] && c[..2] == [12, 11];
    assert [12][..0] == [] && [12, 11][..1] == [12];
    assert Sum([12]) == 12;
    assert Sum([12, 11]) == 23;
    ResolveWithinTimeline(t, 14, 1);
  }
}
