// The values the browser extension passes around (apps/extension/src/types.ts)
// and the pieces its de-duplication keys are built from. Playback positions
// are exact rationals: the video element's floating-point seconds are not
// modelled.
module ExtensionTypes {
  import opened Wrappers
  import opened Text

  /** The streaming sites the content scripts recognise. */
  datatype Platform = Crunchyroll | Netflix | Zoro | NineAnime | AnimePahe | Generic

  function PlatformName(p: Platform): (r: string)
    ensures forall k :: 0 <= k < |r| ==> r[k] != ':'
  {
    match p
    case Crunchyroll => "crunchyroll"
    case Netflix => "netflix"
    case Zoro => "zoro"
    case NineAnime => "nineanime"
    case AnimePahe => "animepahe"
    case Generic => "generic"
  }

  /** Distinct platforms have distinct names. */
  lemma PlatformNameInjective(p: Platform, q: Platform)
    ensures PlatformName(p) == PlatformName(q) <==> p == q
  {
    assert "netflix"[0] != "generic"[0];
    assert "nineanime"[0] != "animepahe"[0];
  }

  /** `EpisodeInfo`: what a site adapter detects on the page. */
  datatype EpisodeInfo = EpisodeInfo(
    platform: Platform, title: string,
    overallEpisode: Option<nat>, seasonNumber: Option<nat>, seasonEpisode: Option<nat>, url: string)

  /** A completion message: the detection, the playback figures and the time it was built. */
  datatype Completion = Completion(
    info: EpisodeInfo, watchedSeconds: real, durationSeconds: real, progress: real, completedAt: string)

  /** The completion message a tracker builds: the detection's fields and the playback figures. */
  function CompletionOf(d: EpisodeInfo, watched: real, duration: real, progress: real, now: string): (c: Completion)
    ensures c.info.platform == d.platform && c.info.title == d.title && c.info.url == d.url
    ensures c.info.overallEpisode == d.overallEpisode && c.info.seasonNumber == d.seasonNumber
      && c.info.seasonEpisode == d.seasonEpisode
    ensures c.watchedSeconds == watched && c.durationSeconds == duration && c.progress == progress
  {
    Completion(d, watched, duration, progress, now)
  }

  /** `overallEpisode ?? seasonEpisode`. */
  function EpisodeOf(d: EpisodeInfo): (r: Option<nat>)
    ensures d.overallEpisode.Some? ==> r == d.overallEpisode
    ensures d.overallEpisode.None? ==> r == d.seasonEpisode
  {
    if d.overallEpisode.Some? then d.overallEpisode else d.seasonEpisode
  }

  /** A number in a key (`n ?? none` in a template string): its decimal digits, or the placeholder. */
  function NumberOr(n: Option<nat>, none: string): (r: string)
    ensures n.Some? ==> r == NatToString(n.value) && AllDigits(r)
    ensures n.None? ==> r == none
  {
    if n.Some? then NatToString(n.value) else none
  }

  /** With a placeholder that does not start with a digit, the key component determines the number. */
  lemma NumberOrInjective(a: Option<nat>, b: Option<nat>, none: string)
    requires |none| > 0 && !IsDigit(none[0])
    ensures NumberOr(a, none) == NumberOr(b, none) <==> a == b
  {
    assert forall n: nat :: NatToString(n) != none by {
      forall n: nat ensures NatToString(n) != none {
        assert IsDigit(NatToString(n)[0]);
      }
    }
    if a.Some? && b.Some? && NumberOr(a, none) == NumberOr(b, none) {
      NatToStringInjective(a.value, b.value);
    }
  }
}
