// The Discord presence text and settings of the desktop app's main process
// (apps/desktop/src/main/main.ts), and the episode it forwards from an
// extension completion. The Discord client and the IPC channels are not
// modelled: an activity is the value that would be sent.
module DiscordPresence {
  import opened Wrappers
  import opened Text
  import ExtensionBackground
  import ExtensionTypes

  datatype PresenceMode = Minimal | Stats | Weeb

  /** `DiscordPresenceConfig`. */
  datatype PresenceConfig = PresenceConfig(enabled: bool, mode: PresenceMode, useMood: bool, showButtons: bool)

  /** The configuration the main process starts with. */
  const DefaultConfig := PresenceConfig(true, Minimal, true, true)

  /** `Partial<DiscordPresenceConfig>`: only the supplied fields are Some. */
  datatype ConfigPatch = ConfigPatch(
    enabled: Option<bool>, mode: Option<PresenceMode>, useMood: Option<bool>, showButtons: Option<bool>)

  /** `{ ...presenceConfig, ...config }`. */
  function Merge(c: PresenceConfig, p: ConfigPatch): (r: PresenceConfig)
    ensures r.enabled == p.enabled.OrElse(c.enabled) && r.mode == p.mode.OrElse(c.mode)
    ensures r.useMood == p.useMood.OrElse(c.useMood) && r.showButtons == p.showButtons.OrElse(c.showButtons)
  {
    PresenceConfig(p.enabled.OrElse(c.enabled), p.mode.OrElse(c.mode),
      p.useMood.OrElse(c.useMood), p.showButtons.OrElse(c.showButtons))
  }

  /** An empty patch changes nothing, and applying a patch twice is applying it once. */
  lemma MergeLaws(c: PresenceConfig, p: ConfigPatch)
    ensures Merge(c, ConfigPatch(None, None, None, None)) == c
    ensures Merge(Merge(c, p), p) == Merge(c, p)
  {
  }

  /** A fully supplied patch replaces the whole configuration. */
  lemma FullPatchReplaces(c: PresenceConfig, d: PresenceConfig)
    ensures Merge(c, ConfigPatch(Some(d.enabled), Some(d.mode), Some(d.useMood), Some(d.showButtons))) == d
  {
  }

  /** The module-level `presenceConfig`. */
  class PresenceSettings {
    var config: PresenceConfig

    constructor()
      ensures config == DefaultConfig
    {
      config := DefaultConfig;
    }

    /** The `presence:update-config` handler. */
    method UpdateConfig(patch: ConfigPatch)
      modifies this
      ensures config == Merge(old(config), patch)
    {
      config := Merge(config, patch);
    }
  }

  /** `DiscordPresenceContext`. */
  datatype PresenceContext = PresenceContext(
    title: string, episode: int, totalEpisodes: Option<int>,
    episodesThisSession: Option<int>, episodesToday: Option<int>,
    moodLabel: Option<string>, moodEmoji: Option<string>, themeId: Option<string>)

  /** A button; `caption` is its `label`. */
  datatype Button = Button(caption: string, url: string)

  /** The activity object; an empty `buttons` stands for the absent field. `instance` is always false. */
  datatype Activity = Activity(details: string, state: string, largeImageKey: string, buttons: seq<Button>)

  /** A truthy optional number: present and not zero. */
  predicate Truthy(n: Option<int>) {
    n.Some? && n.value != 0
  }

  /** A present, positive count. */
  predicate Positive(n: Option<int>) {
    n.Some? && n.value > 0
  }

  /** The large image: the theme's art for Pro users whose theme id names one, the logo otherwise. */
  function LargeImageKey(ctx: PresenceContext, isPro: bool): (k: string)
    ensures !isPro || ctx.themeId.None? ==> k == "anivault-logo"
    ensures isPro && ctx.themeId.Some? && Contains(ctx.themeId.value, "neon") ==> k == "anivault-neon"
    ensures isPro && ctx.themeId.Some? && !Contains(ctx.themeId.value, "neon") && Contains(ctx.themeId.value, "midnight")
      ==> k == "anivault-midnight"
    ensures k in {"anivault-logo", "anivault-neon", "anivault-midnight"}
  {
    if isPro && ctx.themeId.Some? && ctx.themeId.value != "" then
      if Contains(ctx.themeId.value, "neon") then "anivault-neon"
      else if Contains(ctx.themeId.value, "midnight") then "anivault-midnight"
      else "anivault-logo"
    else "anivault-logo"
  }

  /** The total after a separator, only when the total is truthy. */
  function TotalSuffix(total: Option<int>, sep: string): (s: string)
    ensures !Truthy(total) <==> s == ""
  {
    if Truthy(total) then sep + IntToString(total.value) else ""
  }

  /** The episode part of the stats and weeb states. */
  function EpisodePart(ctx: PresenceContext): string {
    "Ep " + IntToString(ctx.episode) + TotalSuffix(ctx.totalEpisodes, "/")
  }

  /** The stats-mode parts: the episode, then the session count and today's count when positive. */
  function StatsParts(ctx: PresenceContext): (parts: seq<string>)
    ensures |parts| == 1 + (if Positive(ctx.episodesThisSession) then 1 else 0) + (if Positive(ctx.episodesToday) then 1 else 0)
    ensures parts[0] == EpisodePart(ctx)
    ensures Positive(ctx.episodesThisSession) ==> parts[1] == IntToString(ctx.episodesThisSession.value) + " eps this session"
    ensures Positive(ctx.episodesToday) ==> parts[|parts| - 1] == IntToString(ctx.episodesToday.value) + " today"
  {
    [EpisodePart(ctx)]
    + (if Positive(ctx.episodesThisSession) then [IntToString(ctx.episodesThisSession.value) + " eps this session"] else [])
    + (if Positive(ctx.episodesToday) then [IntToString(ctx.episodesToday.value) + " today"] else [])
  }

  /** The weeb-mode parts: the episode, then the session count when positive. */
  function WeebParts(ctx: PresenceContext): (parts: seq<string>)
    ensures |parts| == 1 + (if Positive(ctx.episodesThisSession) then 1 else 0)
    ensures parts[0] == EpisodePart(ctx)
  {
    [EpisodePart(ctx)]
    + (if Positive(ctx.episodesThisSession) then [IntToString(ctx.episodesThisSession.value) + " eps this session"] else [])
  }

  /** The weeb-mode details: the mood, when moods are on and a label is given, else 'Anime session'. */
  function MoodText(ctx: PresenceContext, config: PresenceConfig): (t: string)
    ensures !(config.useMood && ctx.moodLabel.Some? && ctx.moodLabel.value != "") ==> t == "Anime session"
    ensures t == [] || (!IsSpace(t[0]) && !IsSpace(t[|t| - 1]))
  {
    if config.useMood && ctx.moodLabel.Some? && ctx.moodLabel.value != "" then
      Trim(ctx.moodEmoji.OrElse("") + " " + ctx.moodLabel.value)
    else "Anime session"
  }

  /** The two Pro buttons. */
  const ProButtons: seq<Button> := [Button("View on AniList", "https://anilist.co/"), Button("Get AniVault", "https://your-anivault-website-url.com")]

  /** `buildDiscordActivity`, with the module's configuration as a parameter. */
  function BuildDiscordActivity(ctx: PresenceContext, isPro: bool, config: PresenceConfig): (r: Option<Activity>)
    ensures r.None? <==> ctx.title == ""
    ensures r.Some? ==> r.value.largeImageKey == LargeImageKey(ctx, isPro)
    ensures r.Some? ==> (r.value.buttons == ProButtons <==> isPro && config.showButtons)
    ensures r.Some? ==> (r.value.buttons == [] <==> !(isPro && config.showButtons))
  {
    if ctx.title == "" then None
    else
      var image := LargeImageKey(ctx, isPro);
      if !isPro then
        Some(Activity("Watching " + ctx.title, "Episode " + IntToString(ctx.episode) + TotalSuffix(ctx.totalEpisodes, " / "), image, []))
      else
        var texts :=
          match config.mode
          case Minimal => ("Watching " + ctx.title, "Ep " + IntToString(ctx.episode) + TotalSuffix(ctx.totalEpisodes, " / "))
          case Stats => ("Bingeing " + ctx.title, Join(StatsParts(ctx), " • "))
          case Weeb => (MoodText(ctx, config), ctx.title + " — " + Join(WeebParts(ctx), " • "));
        Some(Activity(texts.0, texts.1, image, if config.showButtons then ProButtons else []))
  }

  /** A free user sees "Watching T" and "Episode E", with " / N" only for a known total, the logo, and no buttons. */
  lemma FreePresence(ctx: PresenceContext, config: PresenceConfig)
    requires ctx.title != ""
    ensures BuildDiscordActivity(ctx, false, config)
      == Some(Activity("Watching " + ctx.title, "Episode " + IntToString(ctx.episode) + TotalSuffix(ctx.totalEpisodes, " / "), "anivault-logo", []))
  {
  }

  /** For a free user the configuration does not matter. */
  lemma FreePresenceIgnoresConfig(ctx: PresenceContext, c: PresenceConfig, d: PresenceConfig)
    ensures BuildDiscordActivity(ctx, false, c) == BuildDiscordActivity(ctx, false, d)
  {
  }

  // ----- extension completions -----

  /** The `tracking:detected` payload sent to the renderer. */
  datatype TrackingDetected = TrackingDetected(
    title: string, episode: nat, overallEpisode: Option<nat>, seasonNumber: Option<nat>, seasonEpisode: Option<nat>,
    platform: ExtensionTypes.Platform)

  /** `handleExtensionEpisodeComplete`: the episode is overallEpisode ?? seasonEpisode; with neither, nothing is forwarded. */
  function ForwardCompletion(e: ExtensionBackground.EpisodeEvent): (r: Option<TrackingDetected>)
    ensures r.None? <==> e.overallEpisode.None? && e.seasonEpisode.None?
    ensures r.Some? ==> Some(r.value.episode) == ExtensionBackground.EpisodeNumber(e)
    ensures r.Some? ==> (r.value.title == e.title && r.value.overallEpisode == e.overallEpisode
      && r.value.seasonNumber == e.seasonNumber && r.value.seasonEpisode == e.seasonEpisode && r.value.platform == e.platform)
  {
    var episode := if e.overallEpisode.Some? then e.overallEpisode else e.seasonEpisode;
    match episode
    case None => None
    case Some(n) => Some(TrackingDetected(e.title, n, e.overallEpisode, e.seasonNumber, e.seasonEpisode, e.platform))
  }
}
