// Conversion of a global (absolute) episode number to a season-local one,
// shared by the extension and the desktop app (packages/shared/src/extension.ts).
module SeasonEpisode {
  import opened Wrappers
  import opened Numbers

  /**
   * `counts.map(b => b || 0)`: the array is typed `number[]`, but an entry
   * may be `undefined` (None), which the sum treats as 0.
   */
  function KnownOrZero(counts: seq<Option<nat>>): (r: seq<nat>)
    ensures |r| == |counts|
    ensures forall i :: 0 <= i < |counts| ==> r[i] == counts[i].OrElse(0)
  {
    seq(|counts|, i requires 0 <= i < |counts| => counts[i].OrElse(0))
  }

  /** Episodes in the seasons before `seasonNumber`: the sum of `counts.slice(0, max(0, seasonNumber - 1))`. */
  function PreviousSeasonsTotal(counts: seq<Option<nat>>, seasonNumber: int): nat {
    var k := Max(0, seasonNumber - 1);
    Sum(KnownOrZero(counts)[..if k <= |counts| then k else |counts|])
  }

  /** Whether `counts[seasonNumber - 1] ?? x` uses a count from the array. */
  predicate HasCount(counts: seq<Option<nat>>, seasonNumber: int) {
    1 <= seasonNumber <= |counts| && counts[seasonNumber - 1].Some?
  }

  /**
   * `convertGlobalToSeasonEpisode`: the global episode minus the episodes of the
   * earlier seasons, raised to at least 1 and then lowered to the season's own
   * count when the array has one for it.
   */
  function ConvertGlobalToSeasonEpisode(globalEpisode: int, seasonNumber: int, counts: seq<Option<nat>>): (r: int)
    ensures counts == [] ==> r == Max(1, globalEpisode)
    ensures counts != [] && HasCount(counts, seasonNumber) ==> r <= counts[seasonNumber - 1].value
    ensures counts != [] && !HasCount(counts, seasonNumber) ==>
      r == Max(1, globalEpisode - PreviousSeasonsTotal(counts, seasonNumber))
    ensures counts != [] && HasCount(counts, seasonNumber) && counts[seasonNumber - 1].value == 0 ==> r == 0
    ensures (!HasCount(counts, seasonNumber) || counts[seasonNumber - 1].value >= 1) ==> r >= 1
    ensures counts != [] &&
      1 <= globalEpisode - PreviousSeasonsTotal(counts, seasonNumber) &&
      (!HasCount(counts, seasonNumber) ||
        globalEpisode - PreviousSeasonsTotal(counts, seasonNumber) <= counts[seasonNumber - 1].value)
      ==> r == globalEpisode - PreviousSeasonsTotal(counts, seasonNumber)
  {
    if counts == [] then Max(1, globalEpisode)
    else
      var raised := Max(1, globalEpisode - PreviousSeasonsTotal(counts, seasonNumber));
      var maxInSeason := if 1 <= seasonNumber <= |counts| then counts[seasonNumber - 1].OrElse(raised) else raised;
      if raised > maxInSeason then maxInSeason else raised
  }

  /** For fixed season and counts, the result never decreases as the global episode grows. */
  lemma ConvertMonotone(g1: int, g2: int, seasonNumber: int, counts: seq<Option<nat>>)
    requires g1 <= g2
    ensures ConvertGlobalToSeasonEpisode(g1, seasonNumber, counts) <= ConvertGlobalToSeasonEpisode(g2, seasonNumber, counts)
  {
  }

  /** The documented example: global episode 14 of a show whose first season has 12 episodes is episode 2 of season 2. */
  lemma ConvertDocExample(secondSeason: nat)
    requires secondSeason >= 2
    ensures ConvertGlobalToSeasonEpisode(14, 2, [Some(12), Some(secondSeason)]) == 2
    ensures ConvertGlobalToSeasonEpisode(14, 2, [Some(12)]) == 2
  {
    assert KnownOrZero([Some(12), Some(secondSeason)])[..1] == [12];
    assert KnownOrZero([Some(12)])[..1] == [12];
    assert [12][..0] == [];
    assert Sum([12]) == 12;
  }
}
