# AniVault tracking core in Dafny

AniVault keeps an anime library in step with what its user watches. A desktop
watcher reads media-player window titles and a browser extension reports
episodes from streaming sites. Each detection is parsed into a title and an
episode, matched against the library with strict season isolation, resolved
from a global (absolute) episode number to a season and a season-relative
episode through the franchise's prequel/sequel timeline, and reconciled into
the library's progress and status, which logs one watch event per newly
watched episode. Around that pipeline sit smaller rule sets: library
statistics, the file organizer's rename plan, mood recommendations, the
Discord presence text, the license-key mask, and the extension's
once-per-episode completion trackers and storage lists.

The model is one Dafny module per source file of that core:

- `FilenameParser` (filename_parser.dfy) is `parseAnimeFilename`. Its patterns are hand-written matchers tried in the source's order.
- `MediaWatcher` (watcher.dfy) is the polling state of the desktop watcher, as a class. Each tick gets its window titles as a parameter.
- `TitleMatcher` (title_matcher.dfy) is `findAnimeByTitle` with `getSeasonNumber`.
- `LibraryStore` (store.dfy) is the library store as a class with `library`, `watchEvents` and `titleMappings` fields. Its methods are the store actions: add, remove, update, progress reconciliation, watch-event logging, title mappings and the login merge.
- `AniListService` (anilist.dfy) holds the franchise timeline walk, over a relation map from media id to edges and counts. It also holds the status map, media mapping, the recommendation pool dedup, and the response cache as a class.
- `FranchiseResolver` (tracking.dfy) is `resolveFranchiseEpisode` with its cumulative-offset loop. `SeasonEpisode` (season_episode.dfy) is `convertGlobalToSeasonEpisode`.
- `TrackingOrchestrator` (orchestrator.dfy) is the decision logic of `handleTrackingUpdate` and `handleAnimeMatch`. A handler returns the ordered list of store calls it makes; search results and AniList relations are inputs.
- `Stats` (stats.dfy) covers the library statistics, heatmap, binge sessions, milestones and yearly summary.
- `Organizer` (organizer.dfy) covers `sanitizeName`, season inference, `findMatchingAnime` and the two passes of `buildOrganizePlan`. `LicenseMask` (license_mask.dfy) is `maskLicenseKey`.
- `Recommendation` (recommendation.dfy) is mood scoring, filtering, ordering and truncation over a given pool. `DiscordPresence` (presence.dfy) is the activity text, the configuration merge and extension-completion forwarding.
- The extension has three modules:
  - `ExtensionBackground` (background.dfy): the background worker's storage lists as a class.
  - `VideoTracking` (video_tracker.dfy): `VideoTracker`.
  - `ContentTracking` (content_tracker.dfy): the content script's `EpisodeTracker` and `runDetection` state.
  - All three share the message types of `ExtensionTypes` (extension_types.dfy).
- Shared helpers:
  - `Wrappers`: Option.
  - `Text`: ASCII lower-casing, the JavaScript whitespace set and `trim`, containment, decimal conversion.
  - `Numbers`, `Sequences`, `Sorting`: a stable insertion sort by comparator.
  - `Counting`: tallies of a `Map` filled in a loop.
  - `AnimeModel`: the `Anime` record and `findIndex`/`find` by id.

Strings are `seq<char>` and ids are decimal strings. Timestamps are integer
milliseconds since the epoch, which is the order of their ISO strings. Video
progress uses exact `real` arithmetic in place of JavaScript numbers.

One scoring rule of the recommendations can never fire. The test reads the
pool entry's own status, which the media mapping always sets to
'plan-to-watch' (anilist.service.ts:732), never AniList's 'FINISHED', so
the +3 bonus for finished shows never applies. The model keeps the test as
written (FinishedBonusNeverApplies).

## Model

| member | source | states |
|---|---|---|
| FilenameParser.LastIndexOf | apps/desktop/src/main/watcher.ts:13 | the result is the last position holding the character; None means it does not occur |
| FilenameParser.StripExtension | apps/desktop/src/main/watcher.ts:13 | everything from the last '.' on is dropped; a name without a '.' is unchanged |
| FilenameParser.DigitsMatch | apps/desktop/src/main/watcher.ts:17-23 | a match whose episode group is a digit run holds a digit, and its episode is that run's value |
| FilenameParser.MatchSeasonAndEpisode | apps/desktop/src/main/watcher.ts:17 | a match of SxxEyy starts with S or s at the position and holds a digit |
| FilenameParser.MatchEpisodeWord | apps/desktop/src/main/watcher.ts:18 | a match of Ep/Episode starts with e or E and holds a digit |
| FilenameParser.MatchEMarker | apps/desktop/src/main/watcher.ts:19 | a match of E followed by a number starts with e or E and holds a digit |
| FilenameParser.MatchDashNumber | apps/desktop/src/main/watcher.ts:20 | a match of " - N" starts with white space and holds a digit |
| FilenameParser.MatchBracketNumber | apps/desktop/src/main/watcher.ts:21 | a match of [N] starts with '[' and holds a digit |
| FilenameParser.MatchParenNumber | apps/desktop/src/main/watcher.ts:22 | a match of (N) starts with '(' and holds a digit |
| FilenameParser.MatchSpaceNumber | apps/desktop/src/main/watcher.ts:23 | a match of " N" starts with white space and holds a digit |
| FilenameParser.MatchAt | apps/desktop/src/main/watcher.ts:16-24 | a match found at a position starts there, ends inside the name and begins with the pattern's lead character |
| FilenameParser.FirstSomeIndex | apps/desktop/src/main/watcher.ts:31 | the result is the first present entry at or after i; None means there is none |
| FilenameParser.Find | apps/desktop/src/main/watcher.ts:31 | a match found by the scan lies inside the name and is the pattern's match at its start |
| FilenameParser.MatchHasDigit | apps/desktop/src/main/watcher.ts:16-24 | every pattern needs a digit inside its match |
| FilenameParser.FindIsLeftmost | apps/desktop/src/main/watcher.ts:31 | the scan returns the leftmost match, and nothing only when no position matches |
| FilenameParser.PatternFinds | apps/desktop/src/main/watcher.ts:16-31 | one leftmost match per pattern, in the fixed pattern order |
| FilenameParser.ScanFrom | apps/desktop/src/main/watcher.ts:30-48 | the state the loop leaves always cuts a part of the name |
| FilenameParser.ScanFromStep | apps/desktop/src/main/watcher.ts:30-48 | a pattern with no match passes the loop on; a nonzero match stops it with that episode and cut; a zero match records itself and goes on |
| FilenameParser.FirstClose | apps/desktop/src/main/watcher.ts:52 | the lazy group stops at the first closing character, and fails at a line break |
| FilenameParser.StripLeadingGroup | apps/desktop/src/main/watcher.ts:52 | removing one leading [..] group and the white space after it leaves a suffix; a name not starting with '[' is unchanged |
| FilenameParser.StripTrailingGroup | apps/desktop/src/main/watcher.ts:53-54 | removing a trailing [..] or (..) group leaves a prefix of the title |
| FilenameParser.StripTrailingDash | apps/desktop/src/main/watcher.ts:55 | removing a trailing dash leaves a prefix of the title |
| FilenameParser.CollapseSpaces | apps/desktop/src/main/watcher.ts:56 | every white-space run becomes exactly one plain space, and the title never grows |
| FilenameParser.RemoveGroups | apps/desktop/src/main/watcher.ts:61 | removing every complete group never lengthens the name |
| FilenameParser.ParseFilename | apps/desktop/src/main/watcher.ts:11-68 | a returned episode is a positive integer and a returned title is non-empty |
| FilenameParser.ParseAnimeFilename | apps/desktop/src/main/watcher.ts:11-68 | the method with its pattern loop, cleanup and fallback computes ParseFilename |
| FilenameParser.FirstSomeSkip | apps/desktop/src/main/watcher.ts:31 | absent entries are skipped by the search for the first match |
| FilenameParser.NoMatchStep | apps/desktop/src/main/watcher.ts:31 | a position where the pattern does not match passes the scan on to the next one |
| FilenameParser.SkipNonLeads | apps/desktop/src/main/watcher.ts:31 | positions that cannot start a match are skipped by the scan |
| FilenameParser.NoLeadNoMatch | apps/desktop/src/main/watcher.ts:31 | a pattern whose lead character does not occur finds nothing |
| FilenameParser.NoFindsScan | apps/desktop/src/main/watcher.ts:30-48 | when no pattern matches, the loop leaves episode and title as they were |
| FilenameParser.NoDigitsNoEpisode | apps/desktop/src/main/watcher.ts:44-46 | a filename without digits gives no episode |
| FilenameParser.FirstNonzeroPatternWins | apps/desktop/src/main/watcher.ts:30-48 | the first pattern in order that matches with a nonzero episode decides the episode and the cut, whatever later patterns would say |
| FilenameParser.FirstCloseIs | apps/desktop/src/main/watcher.ts:52 | the lazy group ends at the first closing character when no line break comes before it |
| FilenameParser.NoOpenNoTrailingGroup | apps/desktop/src/main/watcher.ts:53-54 | without an opening bracket there is no trailing group to strip |
| FilenameParser.NoDashNoTrailingDash | apps/desktop/src/main/watcher.ts:55 | without a dash there is no trailing dash to strip |
| FilenameParser.CollapseWithoutSpace | apps/desktop/src/main/watcher.ts:56 | a title with no white space is unchanged by the collapse |
| FilenameParser.CleanPlainWord | apps/desktop/src/main/watcher.ts:51-57 | a plain word without white space, brackets or dashes survives the whole cleanup unchanged |
| FilenameParser.TrimUnspaced | apps/desktop/src/main/watcher.ts:57 | trimming leaves a string without white space at its ends unchanged |
| FilenameParser.ExamplePatterns | apps/desktop/src/main/watcher.ts:17-20 | in "[Group] Title - 05" none of the first three patterns matches, and " - N" matches " - 05" with episode 5 |
| FilenameParser.ExampleCleanup | apps/desktop/src/main/watcher.ts:51-57 | cutting " - 05" and cleaning up "[Group] Title" leaves "Title" |
| FilenameParser.DashNumberDecides | apps/desktop/src/main/watcher.ts:30-48 | when " - N" is the only one of the first four patterns to match, with a nonzero episode, its match decides the loop |
| FilenameParser.ExampleParse | apps/desktop/src/main/watcher.ts:20 | "[Group] Title - 05" parses as title "Title" and episode 5 |
| MediaWatcher.DetectionOf | apps/desktop/src/main/watcher.ts:190-206 | a window title yields a detection exactly when it parses to both a title and an episode, and the detection carries those two |
| MediaWatcher.DetectionAt | apps/desktop/src/main/watcher.ts:181-184 | the k-th detection of a tick is the parse of the k-th window title |
| MediaWatcher.DetectionsAreProper | apps/desktop/src/main/watcher.ts:190-206 | every detection has a non-empty title and a positive episode |
| MediaWatcher.FirstReportable | apps/desktop/src/main/watcher.ts:181-218 | the index found is the first window whose detection exists and differs from the last report; None means there is no such window |
| MediaWatcher.NextReport | apps/desktop/src/main/watcher.ts:181-238 | a tick reports the first window's detection that differs from the last report, and nothing exactly when every window yields no detection or the last one again |
| MediaWatcher.DetectWindow | apps/desktop/src/main/watcher.ts:184-206 | parsing one window title gives that window's detection |
| MediaWatcher.ReportKeepsValid | apps/desktop/src/main/watcher.ts:209-220 | reporting a detection other than the last keeps consecutive reports different |
| MediaWatcher.Watcher.constructor | apps/desktop/src/main/watcher.ts:85-86 | the watcher starts stopped, with no last detection and nothing reported |
| MediaWatcher.Watcher.StartPolling | apps/desktop/src/main/watcher.ts:159-166 | the timer runs afterwards, and a second start changes nothing else |
| MediaWatcher.Watcher.StopWatcher | apps/desktop/src/main/watcher.ts:256-262 | the timer is stopped and the last detection is kept |
| MediaWatcher.Watcher.Poll | apps/desktop/src/main/watcher.ts:166-253 | a stopped watcher does nothing; a running one reports NextReport of the windows' detections, remembers it and appends it to the reports, so no detection is reported twice in a row |
| MediaWatcher.Watcher.Record | apps/desktop/src/main/watcher.ts:220-226 | a new detection becomes the last one and is appended to the reports; without one nothing changes |
| MediaWatcher.ScanWindows | apps/desktop/src/main/watcher.ts:181-238 | the loop over the windows returns NextReport of their detections |
| MediaWatcher.TwoWindowsAlternate | apps/desktop/src/main/watcher.ts:209-238 | two different media windows are reported alternately from tick to tick |
| MediaWatcher.SameWindowSuppressed | apps/desktop/src/main/watcher.ts:209-218 | a window showing the last reported detection is not reported again |
| TitleMatcher.MatchAt | apps/desktop/src/renderer/store/useStore.ts:651-657 | a season pattern matches only where a digit follows |
| TitleMatcher.Find | apps/desktop/src/renderer/store/useStore.ts:651-657 | `match` without the g flag: the match at the leftmost position where the pattern matches, none exactly when no position matches; a match needs a digit in the text |
| TitleMatcher.FindLeftmostAt | apps/desktop/src/renderer/store/useStore.ts:651-657 | a match at position k with none before it is the one returned |
| TitleMatcher.TrailingWord | apps/desktop/src/renderer/store/useStore.ts:661 | the trailing word has no spaces and is preceded by a space unless it is the whole text |
| TitleMatcher.RomanSuffix | apps/desktop/src/renderer/store/useStore.ts:661-667 | a trailing roman numeral gives a season from 2 to 10 |
| TitleMatcher.SeasonOrFirst | apps/desktop/src/renderer/store/useStore.ts:673 | a title without a season number counts as season 1 |
| TitleMatcher.GetSeasonNumber | apps/desktop/src/renderer/store/useStore.ts:647-671 | a season number comes from a digit in the lower-cased title or is a roman numeral from 2 to 10 |
| TitleMatcher.EarliestPatternDecides | apps/desktop/src/renderer/store/useStore.ts:651-658 | the leftmost match of a digit pattern is the season number when no pattern ahead of it in the order season N, Nth season, part N, sN matches anywhere, whatever the later patterns find |
| TitleMatcher.SeasonWordBeatsShortForm | apps/desktop/src/renderer/store/useStore.ts:651-658 | "Show Season 2 S3" is season 2: the "season N" match wins over the later "sM" word |
| TitleMatcher.FindNeedsDigit | apps/desktop/src/renderer/store/useStore.ts:651-658 | no digit pattern matches text without digits |
| TitleMatcher.NoDigitsNoSeasonNumber | apps/desktop/src/renderer/store/useStore.ts:647-671 | a title with no digits and no trailing roman numeral has no season number |
| TitleMatcher.RomanNumeralSeason | apps/desktop/src/renderer/store/useStore.ts:660-668 | for a title without digits the season number is the roman suffix's, between 2 and 10 |
| TitleMatcher.FirstExactIndex | apps/desktop/src/renderer/store/useStore.ts:685-690 | the index found is the first entry whose main, English or Japanese title equals the query in lower case; none exactly when no entry does |
| TitleMatcher.Candidates | apps/desktop/src/renderer/store/useStore.ts:696-718 | the candidates are exactly the library entries whose titles overlap the query and whose season equals the query's |
| TitleMatcher.ClosestCandidate | apps/desktop/src/renderer/store/useStore.ts:724-731 | the chosen candidate is one of them, has the smallest title-length gap to the filename title, and is the first such in list order |
| TitleMatcher.FindAnimeByTitle | apps/desktop/src/renderer/store/useStore.ts:642-732 | a mapped id found in the library wins, then the first exact title match, then the closest same-season overlapping candidate; only library entries are returned, and nothing exactly when there is no candidate |
| TitleMatcher.SeasonTwoExample | apps/desktop/src/renderer/store/useStore.ts:651-654 | "Show Season 2" is season 2 |
| TitleMatcher.PlainTitleExample | apps/desktop/src/renderer/store/useStore.ts:670 | "show" has no season number |
| TitleMatcher.NormalizeExample | apps/desktop/src/renderer/store/useStore.ts:644 | the query is lower-cased and trimmed |
| TitleMatcher.SeasonTwoNotCandidate | apps/desktop/src/renderer/store/useStore.ts:709-715 | a season-2 entry is neither an exact match nor a candidate for a season-1 query |
| TitleMatcher.SeasonIsolation | apps/desktop/src/renderer/store/useStore.ts:695-722 | looking up "Show" never returns the library's "Show Season 2" |
| LibraryStore.ToAniListStatus | apps/desktop/src/renderer/store/useStore.ts:396-399 | the five library statuses go to the five AniList names one to one: plan-to-watch to PLANNING, watching to CURRENT, completed to COMPLETED, on-hold to PAUSED and dropped to DROPPED |
| LibraryStore.NumericId | apps/desktop/src/renderer/store/useStore.ts:459-460 | an id is numeric exactly when it is a (space-trimmed) run of decimal digits, and then its number is the value of those digits |
| LibraryStore.NextProgress | apps/desktop/src/renderer/store/useStore.ts:509-519 | the new progress is the requested one when that lies between the current progress and a known total; it never passes a known total, never goes below the current progress unless the total is below it, and stays put when nothing is requested |
| LibraryStore.NextStatus | apps/desktop/src/renderer/store/useStore.ts:523-529 | a requested status wins; otherwise plan-to-watch and dropped become watching, and the other statuses become completed exactly when a known total is reached; an unrequested change is only ever to watching or to completed at the total |
| LibraryStore.ReconcileEntry | apps/desktop/src/renderer/store/useStore.ts:500-529 | the progress and status computed step by step are those of NextProgress and NextStatus |
| LibraryStore.NewEpisodeEventsExact | apps/desktop/src/renderer/store/useStore.ts:542-554 | an updateProgress call logs exactly one event per episode after the old progress up to the new one, in increasing episode and timestamp order, with the numeric id and the source; none when progress does not grow or the id is not numeric |
| LibraryStore.ReconciledWithinTotal | apps/desktop/src/renderer/store/useStore.ts:516-519 | a reconciled entry keeps its id and never records progress beyond a known total |
| LibraryStore.PlanToWatchBecomesWatching | apps/desktop/src/renderer/store/useStore.ts:521-529 | an entry planned to watch that is advanced to or past its last episode becomes watching, not completed |
| LibraryStore.IndexOfIdIs | apps/desktop/src/renderer/store/useStore.ts:419 | an index holding the id with no earlier entry holding it is the one findIndex returns |
| LibraryStore.IndexOfIdUnaffected | apps/desktop/src/renderer/store/useStore.ts:419 | findIndex for an id is unchanged by edits and appends that leave the entries up to its first occurrence alone |
| LibraryStore.IdsAppend | apps/desktop/src/renderer/store/useStore.ts:384 | appending an entry adds exactly its id to the library's ids |
| LibraryStore.ReplaceSameId | apps/desktop/src/renderer/store/useStore.ts:380-381 | overwriting an entry with one of the same id keeps the set of ids and keeps them distinct |
| LibraryStore.AppendNewId | apps/desktop/src/renderer/store/useStore.ts:382-384 | appending an entry whose id is new keeps the ids distinct |
| LibraryStore.UpsertProperties | apps/desktop/src/renderer/store/useStore.ts:368-385 | addToLibrary makes the entry present, adds only its id, overwrites an existing entry in place (same length), appends a new one at the end, leaves every other entry alone and never creates a second entry for an id |
| LibraryStore.MergeOneFacts | apps/desktop/src/renderer/store/useStore.ts:133-148 | one cloud entry merged into the library adds its id, keeps every entry with another id in place and keeps ids distinct |
| LibraryStore.MergeLibraryIds | apps/desktop/src/renderer/store/useStore.ts:129-149 | the merged library's ids are the local ids together with the cloud ids, local entries the cloud does not share stay where they were, and distinct ids stay distinct |
| LibraryStore.MergeKeepsLocalAndAddsCloud | apps/desktop/src/renderer/store/useStore.ts:126-151 | the login merge never loses a local entry the cloud lacks, contains every cloud id, holds no other id and keeps ids distinct |
| LibraryStore.MergeTakesCloudValues | apps/desktop/src/renderer/store/useStore.ts:139-143 | for an id the cloud holds, the library entry carrying it ends with the values of the last cloud entry with that id, local extras surviving only where the cloud has none |
| LibraryStore.TailUnique | apps/desktop/src/renderer/store/useStore.ts:412 | dropping the first entry of a library with distinct ids leaves distinct ids |
| LibraryStore.RemoveIdMembers | apps/desktop/src/renderer/store/useStore.ts:412 | after removal the entries are exactly those of the library with a different id |
| LibraryStore.RemoveIdAbsent | apps/desktop/src/renderer/store/useStore.ts:412 | removing an id that is not there changes nothing |
| LibraryStore.RemoveIdKeepsUnique | apps/desktop/src/renderer/store/useStore.ts:412 | removal keeps ids distinct |
| LibraryStore.RemoveIdProperties | apps/desktop/src/renderer/store/useStore.ts:410-414 | removeFromLibrary removes every entry with the id and only those, drops the id from the ids, changes nothing for an absent id, is idempotent and keeps ids distinct |
| LibraryStore.Store.constructor | apps/desktop/src/renderer/store/useStore.ts:82-93 | the store starts with an empty library, no watch events and no title mappings |
| LibraryStore.Store.AddToLibrary | apps/desktop/src/renderer/store/useStore.ts:365-387 | the library becomes the upsert of the entry with the chosen status (see UpsertProperties) |
| LibraryStore.Store.RemoveFromLibrary | apps/desktop/src/renderer/store/useStore.ts:410-414 | the library becomes the library without the id (see RemoveIdProperties) |
| LibraryStore.Store.UpdateStatus | apps/desktop/src/renderer/store/useStore.ts:417-435 | an unknown id changes nothing; otherwise only the first entry with the id changes, and only in its status |
| LibraryStore.Store.UpdateEntry | apps/desktop/src/renderer/store/useStore.ts:588-607 | an unknown id changes nothing; otherwise only the first entry with the id changes, taking the supplied status and progress |
| LibraryStore.Store.LogWatchEvents | apps/desktop/src/renderer/store/useStore.ts:458-481 | the events of the episode range, in either order, one second apart, are appended and nothing else changes; a non-numeric id logs nothing |
| LibraryStore.Store.UpdateProgress | apps/desktop/src/renderer/store/useStore.ts:485-554 | an unknown id changes nothing; otherwise the first entry with the id takes the reconciled progress and status and the newly watched episodes are logged (see NewEpisodeEventsExact) |
| LibraryStore.Store.AddMapping | apps/desktop/src/renderer/store/useStore.ts:631-639 | the lower-cased filename title now maps to the id, every other mapping is kept |
| LibraryStore.Store.MergeCloudLibrary | apps/desktop/src/renderer/store/useStore.ts:129-149 | the library becomes the merge of the cloud entries into it, in order (see MergeKeepsLocalAndAddsCloud) |
| AniListService.FromAniListStatus | apps/desktop/src/renderer/services/anilist.service.ts:699-708 | CURRENT and REPEATING read as watching, COMPLETED as completed, DROPPED as dropped, and everything else as plan-to-watch; on-hold never comes back |
| AniListService.StatusRoundTrip | apps/desktop/src/renderer/services/anilist.service.ts:699-708 | a status sent to AniList and read back is unchanged, except that on-hold returns as plan-to-watch |
| AniListService.MapMedia | apps/desktop/src/renderer/services/anilist.service.ts:722-746 | the entry's id is the media id written in decimal; the entry starts as plan-to-watch at progress 0; an episode count is kept exactly when AniList gives a positive one |
| AniListService.MapAll | apps/desktop/src/renderer/services/anilist.service.ts:167 | mapping a list keeps its length and maps the entries one by one, in place |
| AniListService.MapMediaInjective | apps/desktop/src/renderer/services/anilist.service.ts:724 | media with different ids map to entries with different ids |
| AniListService.FirstEdge | apps/desktop/src/renderer/services/anilist.service.ts:818 | the result is the first edge of the requested relation type; None means no edge has that type |
| AniListService.Related | apps/desktop/src/renderer/services/anilist.service.ts:818-820 | a related id comes from an edge of that relation type; a media with no such edge has no related id |
| AniListService.RootFrom | apps/desktop/src/renderer/services/anilist.service.ts:802-829 | when the walk back through prequels finds a root, that root is a returned media object and has no prequel |
| AniListService.FindRoot | apps/desktop/src/renderer/services/anilist.service.ts:802-835 | the loop finds the root that RootFrom defines; after a prequel cycle it requests the seed again; it fails exactly when a request fails |
| AniListService.SequelsFrom | apps/desktop/src/renderer/services/anilist.service.ts:837-867 | every media of a finished walk comes from the requests, and a walk from an unvisited media starts with that media |
| AniListService.TimelineWalk | apps/desktop/src/renderer/services/anilist.service.ts:802-867 | a failed prequel walk fails; a finished walk is non-empty, starts at the root, or at the seed after a prequel cycle, and holds only requested media |
| AniListService.FranchiseTimelineOf | apps/desktop/src/renderer/services/anilist.service.ts:753-885 | the timeline is empty exactly when the seed request fails, and each entry is the mapping of a requested media |
| AniListService.FranchiseTimeline | apps/desktop/src/renderer/services/anilist.service.ts:753-885 | the method builds exactly the timeline that FranchiseTimelineOf defines, including the fallback to the seed alone |
| AniListService.WalkSequels | apps/desktop/src/renderer/services/anilist.service.ts:837-867 | the loop over the sequels pushes the mapped media of the walk that SequelsFrom defines, and reports a failed sequel request |
| AniListService.Fallback | apps/desktop/src/renderer/services/anilist.service.ts:871-882 | after an error the timeline is the seed alone, or empty when the seed itself cannot be fetched |
| AniListService.SequelsDistinct | apps/desktop/src/renderer/services/anilist.service.ts:842-847 | thanks to the visited set, the sequel walk never visits one id twice or an id it had already visited |
| AniListService.SequelsChain | apps/desktop/src/renderer/services/anilist.service.ts:842-865 | the walk starts at its first media, and each later media is the fetched sequel of the one before it |
| AniListService.SequelsBounded | apps/desktop/src/renderer/services/anilist.service.ts:842-867 | the walk is no longer than the number of distinct ids still unvisited, so it stops even on cyclic relations |
| AniListService.TimelineDistinct | apps/desktop/src/renderer/services/anilist.service.ts:837-869 | no two timeline entries share an id, and a successful timeline is no longer than the number of media ids |
| AniListService.TimelineStartsAtRoot | apps/desktop/src/renderer/services/anilist.service.ts:802-852 | a successful timeline is non-empty and starts at the root, which has no prequel; after a prequel cycle it starts at the seed |
| AniListService.FailedWalkGivesSeed | apps/desktop/src/renderer/services/anilist.service.ts:871-882 | if any request in the walk fails, the result is the seed alone, or empty when the seed cannot be fetched |
| AniListService.SelfPrequelIsRoot | apps/desktop/src/renderer/services/anilist.service.ts:807-811 | a media that is its own prequel is reported as a prequel cycle, not walked forever |
| AniListService.PoolPart | apps/desktop/src/renderer/services/anilist.service.ts:146-157 | a rate-limited or failed request adds an empty list to the pool; any other error rejects the whole pool |
| AniListService.DedupById | apps/desktop/src/renderer/services/anilist.service.ts:159-165 | every kept media comes from the input and has an id not seen before; the result is no longer than the input |
| AniListService.DedupProperties | apps/desktop/src/renderer/services/anilist.service.ts:159-165 | the de-duplicated pool has no repeated id, keeps the input order as a subsequence, and keeps the first media of every unseen id |
| AniListService.RecommendationPool | apps/desktop/src/renderer/services/anilist.service.ts:102-178 | the pool rejects exactly when one of the three requests fails with an error other than a rate limit or a network failure |
| AniListService.PoolMerged | apps/desktop/src/renderer/services/anilist.service.ts:159 | the merged list is the three lists in trending, popular, top-scored order, so its length is their sum |
| AniListService.MapAllKeepsDistinct | apps/desktop/src/renderer/services/anilist.service.ts:167 | mapping media with distinct ids gives entries with distinct ids |
| AniListService.DedupMappedFacts | apps/desktop/src/renderer/services/anilist.service.ts:159-167 | the mapped, de-duplicated list has distinct entry ids, keeps a subsequence of the merged media, and keeps the first media of every id |
| AniListService.RecommendationPoolProperties | apps/desktop/src/renderer/services/anilist.service.ts:102-178 | the whole pool: it rejects exactly on another error; otherwise it has no entry id twice, is the mapping of a subsequence of the trending, popular, top-scored media, and holds the first media of every id |
| AniListService.CacheKey | apps/desktop/src/renderer/services/anilist.service.ts:191-193 | the key is the query, then a colon, then the serialised variables |
| AniListService.CacheServesForTtl | apps/desktop/src/renderer/services/anilist.service.ts:198-219 | a stored response is served for exactly the next five minutes, the boundary included, and then no longer |
| AniListService.CacheKeysIndependent | apps/desktop/src/renderer/services/anilist.service.ts:214-219 | storing under one key does not change what any other key finds |
| AniListService.ResponseCache.constructor | apps/desktop/src/renderer/services/anilist.service.ts:94-96 | an empty token counts as no token, and the cache starts empty |
| AniListService.ResponseCache.SetAccessToken | apps/desktop/src/renderer/services/anilist.service.ts:182-186 | setting a token stores it and empties the cache |
| AniListService.ResponseCache.GetCached | apps/desktop/src/renderer/services/anilist.service.ts:198-209 | the lookup returns what CachedAt finds, deletes an expired entry, and leaves the rest of the cache alone |
| AniListService.ResponseCache.SetCached | apps/desktop/src/renderer/services/anilist.service.ts:214-219 | the response is stored under its key with the current time; nothing else changes |
| AnimeModel.IndexOfId | apps/desktop/src/renderer/store/useStore.ts:419 | the result is the first index whose entry has the given id; None means no entry has it |
| AnimeModel.FindById | apps/desktop/src/renderer/store/useStore.ts:678 | an entry is found exactly when the library holds the id, and the found entry has that id |
| SeasonEpisode.KnownOrZero | packages/shared/src/extension.ts:33 | the sum reads a missing count as 0 and keeps known counts as they are, one per season |
| SeasonEpisode.ConvertGlobalToSeasonEpisode | packages/shared/src/extension.ts:22-42 | with no counts the result is max(1, global); otherwise it is the global episode minus the earlier seasons, raised to 1 and capped by the season's own count when there is one; a count of 0 gives 0, and without a cap the result is at least 1 |
| SeasonEpisode.ConvertMonotone | packages/shared/src/extension.ts:31-41 | for a fixed season and counts, the result never decreases as the global episode grows |
| SeasonEpisode.ConvertDocExample | packages/shared/src/extension.ts:18 | global episode 14 with a 12-episode first season is episode 2 of season 2 |
| FranchiseResolver.SeasonLength | apps/desktop/src/renderer/services/tracking.service.ts:34 | a missing or zero count is read as 25, so every season has at least one episode |
| FranchiseResolver.EpisodeCountsFromTimeline | apps/desktop/src/renderer/services/tracking.service.ts:82-84 | one count per season, equal to its known positive count or 25 |
| FranchiseResolver.OffsetStep | apps/desktop/src/renderer/services/tracking.service.ts:57 | each season adds its length to the running offset |
| FranchiseResolver.OffsetStrictlyIncreasing | apps/desktop/src/renderer/services/tracking.service.ts:29-58 | the cumulative offsets strictly increase from season to season |
| FranchiseResolver.FirstCovering | apps/desktop/src/renderer/services/tracking.service.ts:32-54 | the result is the first season whose cumulative range reaches the episode |
| FranchiseResolver.ResolveFranchiseEpisode | apps/desktop/src/renderer/services/tracking.service.ts:15-76 | the loop with its early return computes Resolve: null for an empty timeline, else the first season reaching the episode, else the last season |
| FranchiseResolver.Resolve | apps/desktop/src/renderer/services/tracking.service.ts:15-76 | null exactly for an empty timeline; for an episode from 1 to the timeline's total, a season of the timeline with the relative episode between 1 and that season's length |
| FranchiseResolver.FirstReachResolves | apps/desktop/src/renderer/services/tracking.service.ts:39-53 | the first season whose range reaches the episode is the one returned, with the episode made relative to it |
| FranchiseResolver.ResolveNullExactlyWhenEmpty | apps/desktop/src/renderer/services/tracking.service.ts:24-27 | the result is null exactly for an empty timeline; otherwise its id and title are those of a timeline season |
| FranchiseResolver.ResolveWithinTimeline | apps/desktop/src/renderer/services/tracking.service.ts:29-58 | an episode with prefix(k) < abs <= prefix(k+1) resolves to season k as episode abs - prefix(k), which lies between 1 and that season's length |
| FranchiseResolver.CoveringSeasonExists | apps/desktop/src/renderer/services/tracking.service.ts:29-58 | every absolute episode from 1 to the total has such a season |
| FranchiseResolver.ResolvePastTimeline | apps/desktop/src/renderer/services/tracking.service.ts:60-75 | past the end, the last season is used; with a known count, the episode is abs minus the earlier seasons, which exceeds that count |
| FranchiseResolver.UnknownSeasonSpans25 | apps/desktop/src/renderer/services/tracking.service.ts:34 | a season with a missing or zero count spans 25 absolute episodes |
| FranchiseResolver.ResolveDocExample | apps/desktop/src/renderer/services/tracking.service.ts:10-13 | seasons of 12 and 11 episodes with absolute episode 14 resolve to episode 2 of the second season |
| TrackingOrchestrator.DelimitedShortIsToken | apps/desktop/src/renderer/components/Layout.tsx:168-170 | a title containing ' sN ' or ' sN:' already names the word sN, so those two extra tests add nothing |
| TrackingOrchestrator.LaterSeasonChecksAgree | apps/desktop/src/renderer/components/Layout.tsx:166-172 | for season 2 and later the library check, the search filter and the safeguard accept exactly the same titles |
| TrackingOrchestrator.SafeguardNeedsNumber | apps/desktop/src/renderer/components/Layout.tsx:285-290 | a title passes the check of season N (N at least 2) only if it contains N's digits |
| TrackingOrchestrator.DigitFreeContainsNoNumber | apps/desktop/src/renderer/components/Layout.tsx:287-289 | a title without digits contains no string starting with a digit |
| TrackingOrchestrator.DigitFreeTitleIsFirstSeason | apps/desktop/src/renderer/components/Layout.tsx:156-172 | a title without digits passes all three season-1 checks and fails every check of a later season |
| TrackingOrchestrator.SearchQuery | apps/desktop/src/renderer/components/Layout.tsx:190-194 | the query is the title, followed by ' Season N' exactly when the season is above 1 |
| TrackingOrchestrator.KeepAccepted | apps/desktop/src/renderer/components/Layout.tsx:202-216 | the kept results are exactly the accepted ones, in their original order |
| TrackingOrchestrator.FilterResults | apps/desktop/src/renderer/components/Layout.tsx:200-218 | without a season the results are kept as they are; with one only the accepted results remain |
| TrackingOrchestrator.CloseTitleByContainment | apps/desktop/src/renderer/components/Layout.tsx:228-231 | a close title is one whose romaji title contains or is contained in the detected one, or whose English title equals it |
| TrackingOrchestrator.ResolutionHeuristicsNested | apps/desktop/src/renderer/components/Layout.tsx:343-346 | whenever the automatic path resolves across the franchise the modal path would too, and not the other way round (episode 30 of season 1 without a total) |
| TrackingOrchestrator.PerSeasonNumberingKept | apps/desktop/src/renderer/components/Layout.tsx:404-408 | season 3 episode 7 of 12 is left as it is by both heuristics |
| TrackingOrchestrator.ClampToTotal | apps/desktop/src/renderer/components/Layout.tsx:411-415 | the episode never rises, never exceeds a known non-zero total, and changes only to that total |
| TrackingOrchestrator.ClampIdempotent | apps/desktop/src/renderer/components/Layout.tsx:411-415 | clamping twice is clamping once |
| TrackingOrchestrator.CountsAsWritten | apps/desktop/src/renderer/components/Layout.tsx:308 | every season gets a count, 0 for an unknown one |
| TrackingOrchestrator.KnownCounts | apps/desktop/src/renderer/components/Layout.tsx:308 | an unknown or zero count is left undefined; a defined count is the entry's |
| TrackingOrchestrator.UnknownCountGivesEpisodeZero | apps/desktop/src/renderer/components/Layout.tsx:307-309 | with the counts as written, a global episode in a season of unknown length becomes episode 0 |
| TrackingOrchestrator.KnownCountsGivePositiveEpisode | apps/desktop/src/renderer/components/Layout.tsx:307-309 | with unknown counts left undefined the season episode is at least 1, and with all counts known both count lists agree |
| TrackingOrchestrator.AiringSeasonFixGivesZero | apps/desktop/src/renderer/components/Layout.tsx:303-318 | season 1 of 12 and an airing season 2: the handler's retarget of global episode 14 is season 2 at episode 0, and 0 after clamping |
| TrackingOrchestrator.AiringSecondSeasonExample | apps/desktop/src/renderer/components/Layout.tsx:307-309 | season 1 of 12 and an airing season 2: global episode 14 gives episode 0 as written and episode 2 as intended |
| TrackingOrchestrator.TimelineForUnique | apps/desktop/src/renderer/components/Layout.tsx:306 | a franchise timeline fetch has one answer |
| TrackingOrchestrator.FetchTimeline | apps/desktop/src/renderer/components/Layout.tsx:306 | the fetch returns the entry's franchise timeline, nothing for a non-numeric id |
| TrackingOrchestrator.Retarget | apps/desktop/src/renderer/components/Layout.tsx:303-408 | the target is the matched entry or one of its timeline; without resolution and season fix it is the match and the detected episode; the season fix picks the detected season's entry and converts the global episode with the counts as written, unknown ones as 0; resolution picks the resolver's season and episode |
| TrackingOrchestrator.ModalRetarget | apps/desktop/src/renderer/components/Layout.tsx:505-551 | without resolution or on a one-season timeline the pick and episode stay; otherwise the resolver's episode and season entry are taken |
| TrackingOrchestrator.VerifiedMatch | apps/desktop/src/renderer/components/Layout.tsx:144-183 | a library match survives exactly when there is no season or the title passes the season check |
| TrackingOrchestrator.MatchDetection | apps/desktop/src/renderer/components/Layout.tsx:143-263 | a verified library match is used without a search; otherwise the query is searched and the first filtered result is added and mapped exactly when it is auto-accepted, and nothing is matched otherwise |
| TrackingOrchestrator.AddsMissingAppend | apps/desktop/src/renderer/components/Layout.tsx:323-327 | adding a timeline entry missing from the library keeps every call an addition of a missing timeline entry |
| TrackingOrchestrator.PlaceEpisode | apps/desktop/src/renderer/components/Layout.tsx:303-415 | the entry and episode are Retarget's, counts as written, clamped to the entry's total; every call adds a missing timeline entry, and the target is the match or a known entry |
| TrackingOrchestrator.WatchingUpdate | apps/desktop/src/renderer/components/Layout.tsx:427 | the update sets the progress and always the status watching |
| TrackingOrchestrator.HandleTrackingUpdate | apps/desktop/src/renderer/components/Layout.tsx:130-435 | the match comes from the library or the search; the modal opens, with no progress update, when nothing is matched or the safeguard rejects the match; otherwise the last call updates Retarget's entry, known to the library, with the clamped episode (from the counts as written) and status watching |
| TrackingOrchestrator.HandleAnimeMatch | apps/desktop/src/renderer/components/Layout.tsx:489-565 | the title is mapped first, a missing entry is added, and the last call updates ModalRetarget's entry, known to the library, with the clamped episode and status watching; no earlier call updates progress |
| TrackingOrchestrator.ModalResolve | apps/desktop/src/renderer/components/Layout.tsx:505-551 | the modal's resolution step yields ModalRetarget, adding the switched-to season when it is missing, and updates no progress |
| Stats.ActiveCount | apps/desktop/src/renderer/services/stats.service.ts:118-121 | at most one per entry |
| Stats.BucketStart | apps/desktop/src/renderer/services/stats.service.ts:136-139 | the bucket is one of 1, 11, ..., 91 and holds the rating clamped to 1..100 |
| Stats.RatedCount | apps/desktop/src/renderer/services/stats.service.ts:134-135 | at most one per entry |
| Stats.RatingBuckets | apps/desktop/src/renderer/services/stats.service.ts:132-140 | one bucket start per rated entry |
| Stats.LibraryStep | apps/desktop/src/renderer/services/stats.service.ts:111-140 | one more entry adds its effective episodes, its activity, its genres and its bucket to the totals |
| Stats.CountGenres | apps/desktop/src/renderer/services/stats.service.ts:125-130 | the genre loop adds the entry's genres to the tally |
| Stats.CountRating | apps/desktop/src/renderer/services/stats.service.ts:134-140 | the score step adds the entry's bucket to the tally exactly when it is rated |
| Stats.CalculateLibraryStats | apps/desktop/src/renderer/services/stats.service.ts:104-164 | the totals are the effective episodes (progress, else episodes, else 12), 24 minutes each, their hours, the completed or watching count, the genre breakdown and the score distribution |
| Stats.GenreBreakdownIsTopFive | apps/desktop/src/renderer/services/stats.service.ts:143-147 | at most five distinct genres, highest count first, each with its occurrences; a genre left out comes no more often than any of the five listed |
| Stats.ScoreDistributionAscending | apps/desktop/src/renderer/services/stats.service.ts:149-152 | the buckets come in strictly ascending order |
| Stats.ScoreDistributionCounts | apps/desktop/src/renderer/services/stats.service.ts:132-152 | each bucket counts its rated entries, and the counts add up to the number of rated entries |
| Stats.TotalsAppend | apps/desktop/src/renderer/services/stats.service.ts:111-121 | the episode total and the active count add up over a split library |
| Stats.BuildHeatmapData | apps/desktop/src/renderer/services/stats.service.ts:168-180 | the cells are the day tally in date order and the maximum is their largest count |
| Stats.HeatmapCounts | apps/desktop/src/renderer/services/stats.service.ts:168-180 | the days strictly ascend, each cell counts the events of its day, and the counts add up to the number of events |
| Stats.HeatmapCoversEvents | apps/desktop/src/renderer/services/stats.service.ts:170-174 | every event's day has a cell |
| Stats.MinutesBetween | apps/desktop/src/renderer/services/stats.service.ts:431-435 | the gap in minutes is never negative |
| Stats.ContinuesWithin | apps/desktop/src/renderer/services/stats.service.ts:218-219 | an event continues a session exactly up to 2 700 000 ms after its last event |
| Stats.Extend | apps/desktop/src/renderer/services/stats.service.ts:206-233 | every group stays non-empty when an event is added |
| Stats.Groups | apps/desktop/src/renderer/services/stats.service.ts:206-234 | no groups exactly when there are no events, and every group is non-empty |
| Stats.GroupsStep | apps/desktop/src/renderer/services/stats.service.ts:206-233 | each loop step extends the groups by its event |
| Stats.ExtendFlatten | apps/desktop/src/renderer/services/stats.service.ts:206-233 | adding an event to the groups appends it to their concatenation |
| Stats.GroupsPartition | apps/desktop/src/renderer/services/stats.service.ts:206-234 | the groups, one after another, are exactly the time-ordered events |
| Stats.ExtendContinuous | apps/desktop/src/renderer/services/stats.service.ts:218-222 | extending keeps every event within 45 minutes of the one before it in its group |
| Stats.ExtendSeparated | apps/desktop/src/renderer/services/stats.service.ts:223-231 | extending keeps more than 45 minutes between consecutive groups |
| Stats.GroupsSplitAtGaps | apps/desktop/src/renderer/services/stats.service.ts:218-231 | a new session starts exactly where the gap exceeds 45 minutes |
| Stats.Distinct | apps/desktop/src/renderer/services/stats.service.ts:201 | the ids made distinct are the same ids, each once |
| Stats.SessionsOfSnoc | apps/desktop/src/renderer/services/stats.service.ts:199-204 | a last group adds its closed session at the end |
| Stats.ExtendJoins | apps/desktop/src/renderer/services/stats.service.ts:218-222 | an event within the gap moves the open session's end, adds an episode and its id, and leaves the closed sessions alone |
| Stats.ExtendSplits | apps/desktop/src/renderer/services/stats.service.ts:223-231 | an event after a long gap closes the open session and opens its own with one episode |
| Stats.SplitSessions | apps/desktop/src/renderer/services/stats.service.ts:206-234 | the session loop returns the sessions of the gap-split groups |
| Stats.SessionEpisodes | apps/desktop/src/renderer/services/stats.service.ts:236-239 | the sessions' episodes add up to the events of their groups |
| Stats.SessionsCoverEvents | apps/desktop/src/renderer/services/stats.service.ts:236-239 | the sessions hold every event once, and there is a session exactly when there is an event |
| Stats.Longest | apps/desktop/src/renderer/services/stats.service.ts:237-238 | there is no longest session exactly when there are no sessions |
| Stats.LongestIsFirstMost | apps/desktop/src/renderer/services/stats.service.ts:237-238 | the longest session has the most episodes, and no earlier session has as many |
| Stats.PerDayFacts | apps/desktop/src/renderer/services/stats.service.ts:242-245 | one entry per day, each the episodes of the sessions starting that day, adding up to all the episodes |
| Stats.SumPerDay | apps/desktop/src/renderer/services/stats.service.ts:242-245 | the loop fills the per-day map |
| Stats.LocalHour | apps/desktop/src/renderer/services/stats.service.ts:471-474 | the local hour lies in 0..23 |
| Stats.LocalWeekday | apps/desktop/src/renderer/services/stats.service.ts:476-479 | the local weekday lies in 0..6 |
| Stats.CountEvening | apps/desktop/src/renderer/services/stats.service.ts:471-474 | at most one per session |
| Stats.CountWeekend | apps/desktop/src/renderer/services/stats.service.ts:476-479 | at most one per session |
| Stats.ShareAtLeast | apps/desktop/src/renderer/services/stats.service.ts:481-487 | a share of at least 0.6 is at least three in five |
| Stats.AverageAtMostTwo | apps/desktop/src/renderer/services/stats.service.ts:484-490 | an average of at most two is at most twice as many episodes as sessions |
| Stats.ArchetypeThresholds | apps/desktop/src/renderer/services/stats.service.ts:463-493 | night owl exactly with three in five evening sessions and a busiest day of 3; else weekend marathoner with three in five weekend sessions and 4; else daily sipper or casual with at most two episodes a session, by at least five sessions; else unknown |
| Stats.BuildBingeProfile | apps/desktop/src/renderer/services/stats.service.ts:182-257 | no events give the empty profile; otherwise the session count is at least one, the longest session is the first longest, the mean is all events over the sessions, the busiest day is the largest per-day total and the archetype is inferred from them |
| Stats.BusiestDay | apps/desktop/src/renderer/services/stats.service.ts:242-246 | no day has more episodes than the busiest, and the per-day totals add up to all the events |
| Stats.CountWhere | apps/desktop/src/renderer/services/stats.service.ts:266-269 | at most one per event |
| Stats.CountWhereAppend | apps/desktop/src/renderer/services/stats.service.ts:266-269 | counts add up over a split event list |
| Stats.RemoveAt | apps/desktop/src/renderer/services/stats.service.ts:266-269 | taking out one event takes out its count |
| Stats.CountWherePermutation | apps/desktop/src/renderer/services/stats.service.ts:266-269 | counting does not depend on the order of the events |
| Stats.AtMostIsPreorder | apps/desktop/src/renderer/services/stats.service.ts:498 | ordering events by time is a total preorder |
| Stats.FindAchievementDate | apps/desktop/src/renderer/services/stats.service.ts:495-504 | no date for a non-positive target or too few events; otherwise the time of the target-th event in time order |
| Stats.SortedReached | apps/desktop/src/renderer/services/stats.service.ts:498-501 | in time order target events are reached by the target-th event's time |
| Stats.SortedNotYetReached | apps/desktop/src/renderer/services/stats.service.ts:498-501 | in time order fewer than target events come strictly before the target-th |
| Stats.AchievementIsTargetEvent | apps/desktop/src/renderer/services/stats.service.ts:495-504 | the achievement time is when the target is reached: at least target events by then and fewer before it |
| Stats.AllMatch | apps/desktop/src/renderer/services/stats.service.ts:266-269 | when every event matches the count is the number of events |
| Stats.NoneMatch | apps/desktop/src/renderer/services/stats.service.ts:266-269 | when no event matches the count is 0 |
| Stats.CompletedCount | apps/desktop/src/renderer/services/stats.service.ts:261 | at most one per entry |
| Stats.BuildMilestones | apps/desktop/src/renderer/services/stats.service.ts:259-313 | the four milestones in order, each at the smaller of its count and its target; rewatches are 0; from 100 events episodes_100 carries the time of the 100th |
| Stats.YearEvents | apps/desktop/src/renderer/services/stats.service.ts:320 | the year's events are exactly the events whose timestamp falls in the year, in order |
| Stats.FirstEvents | apps/desktop/src/renderer/services/stats.service.ts:327-332 | each anime of the year gets the time of its first event, and only those anime get one |
| Stats.CountCompleted | apps/desktop/src/renderer/services/stats.service.ts:336-351 | no more than the completed entries |
| Stats.IndexLibrary | apps/desktop/src/renderer/services/stats.service.ts:354-358 | the loop builds both indexes, a later entry replacing an earlier one |
| Stats.NumberIndexKeys | apps/desktop/src/renderer/services/stats.service.ts:357 | a number is indexed exactly when some entry's id spells it |
| Stats.NumberIndexLast | apps/desktop/src/renderer/services/stats.service.ts:357 | the entry under a number is the last one whose id spells it |
| Stats.Lookup | apps/desktop/src/renderer/services/stats.service.ts:364 | an anime is found exactly when its number or its spelled-out number is indexed |
| Stats.FoundGenresStep | apps/desktop/src/renderer/services/stats.service.ts:363-374 | each event adds the genres of its anime, when found |
| Stats.CountYear | apps/desktop/src/renderer/services/stats.service.ts:360-374 | the loop tallies the found anime's genres and the events per anime |
| Stats.IdsOfStep | apps/desktop/src/renderer/services/stats.service.ts:373 | each event adds its anime id |
| Stats.Titled | apps/desktop/src/renderer/services/stats.service.ts:381-391 | one summary per counted anime, with its id and count |
| Stats.BuildYearlySummary | apps/desktop/src/renderer/services/stats.service.ts:315-402 | no summary exactly for a year without events; otherwise the year's episodes and hours, the anime started, the anime completed and the top three genres and anime |
| Stats.YearlyAnimeCounts | apps/desktop/src/renderer/services/stats.service.ts:326-333 | the anime counted are exactly the anime started, and their counts add up to the year's episodes |
| Stats.IdSet | apps/desktop/src/renderer/services/stats.service.ts:327-333 | the anime of the events are exactly their ids |
| Stats.YearlyTopGenres | apps/desktop/src/renderer/services/stats.service.ts:376-379 | at most three genres, highest count first, each with its count, and three whenever a genre is left out |
| LicenseMask.MaskAsWritten | apps/desktop/src/renderer/components/LicenseSettings.tsx:10 | every letter or digit followed by four more becomes 'X', everything else stays: the length, the character classes and the last four characters are kept |
| LicenseMask.MaskAsWrittenIdempotent | apps/desktop/src/renderer/components/LicenseSettings.tsx:10 | masking a masked key changes nothing |
| LicenseMask.ShortRunsUnmasked | apps/desktop/src/renderer/components/LicenseSettings.tsx:10 | a key without five letters or digits in a row is shown unchanged |
| LicenseMask.GroupedKeyUnmasked | apps/desktop/src/renderer/components/LicenseSettings.tsx:9-10 | the key ABCD-EFGH-IJKL-MNOP is shown in full as written, while keeping only the last four visible gives XXXX-XXXX-XXXX-MNOP |
| LicenseMask.MaskKeepingLastFour | apps/desktop/src/renderer/components/LicenseSettings.tsx:9-10 | every letter and digit before the last four characters becomes 'X'; separators and the last four stay |
| LicenseMask.MaskKeepingLastFourIdempotent | apps/desktop/src/renderer/components/LicenseSettings.tsx:9-10 | the intended masking is idempotent |
| LicenseMask.PlainKeysAgree | apps/desktop/src/renderer/components/LicenseSettings.tsx:10 | on a key of letters and digits only the written and the intended masking agree |
| LicenseMask.MaskLicenseKey | apps/desktop/src/renderer/components/LicenseSettings.tsx:7-11 | a missing or empty key shows as the empty string; otherwise the key masked as written: the same length, separators and last four kept, and a character other than 'X' shown as 'X' exactly when four letters or digits follow it |
| LicenseMask.GroupedKeyDisplayedInFull | apps/desktop/src/renderer/components/LicenseSettings.tsx:7-11 | the stored key ABCD-EFGH-IJKL-MNOP is displayed unmasked |
| Organizer.RemoveForbidden | apps/desktop/src/main/organizer.ts:22 | the result holds none of the characters forbidden in file names, only characters of the input, and equals a name that has none |
| Organizer.TrimKeepsNoForbidden | apps/desktop/src/main/organizer.ts:22 | trimming does not bring forbidden characters back |
| Organizer.TrimIdempotent | apps/desktop/src/main/organizer.ts:22 | trimming twice is trimming once |
| Organizer.SanitizeName | apps/desktop/src/main/organizer.ts:21-23 | a sanitized name has no forbidden character and no white space at either end |
| Organizer.SanitizeNameIdempotent | apps/desktop/src/main/organizer.ts:21-23 | sanitizing a sanitized name changes nothing |
| Organizer.FirstSeasonToken | apps/desktop/src/main/organizer.ts:29 | the leftmost position where a separator or the start is followed by 's' and one or two digits; None means there is none |
| Organizer.SeasonWordValue | apps/desktop/src/main/organizer.ts:36-39 | a 'season N' number is below 100 |
| Organizer.SeasonTokenValue | apps/desktop/src/main/organizer.ts:29-32 | an 'sN' number is below 100 |
| Organizer.FirstSeasonWord | apps/desktop/src/main/organizer.ts:36 | the leftmost 'season' followed by optional white space and a digit; None means there is none |
| Organizer.InferSeasonFromFilename | apps/desktop/src/main/organizer.ts:25-44 | the leftmost 'sNN' token decides, then the leftmost 'season NN', and season 1 otherwise; the season is below 100 |
| Organizer.TwoDigitsBelowHundred | apps/desktop/src/main/organizer.ts:29 | one or two digits are worth less than 100 |
| Organizer.NoSeasonMarkerIsFirstSeason | apps/desktop/src/main/organizer.ts:42-43 | a file name without any 's' is in season 1 |
| Organizer.SeasonTokenExample | apps/desktop/src/main/organizer.ts:29-32 | 'Show S02E05' is in season 2 |
| Organizer.FirstOverlapping | apps/desktop/src/main/organizer.ts:70-73 | the index found is the first library entry whose lower-cased title contains the parsed one or is contained in it |
| Organizer.FindMatchingAnime | apps/desktop/src/main/organizer.ts:66-76 | no title gives no match; otherwise the match is the first overlapping library entry, and there is none exactly when no entry overlaps |
| Organizer.BaseName | apps/desktop/src/main/organizer.ts:87 | the base name is a suffix of the path without any '/' |
| Organizer.ExtName | apps/desktop/src/main/organizer.ts:88 | the extension is a suffix starting with its only '.', or empty |
| Organizer.NameWithoutExt | apps/desktop/src/main/organizer.ts:89 | the name followed by the extension is the base name; an empty extension gives an empty name, as the slice with -0 does |
| Organizer.TargetPath | apps/desktop/src/main/organizer.ts:111-115 | the target lies in root/Title/Season S/ and keeps the file's extension |
| Organizer.DraftItem | apps/desktop/src/main/organizer.ts:86-129 | an item without a match or episode stays in place unmatched; a matched one has a season, an id and a positive episode, and is ready exactly when its target differs from the source ignoring case |
| Organizer.MatchedItemTarget | apps/desktop/src/main/organizer.ts:109-128 | a matched file goes to the sanitized library title's folder for the inferred season, carrying the entry's id |
| Organizer.TargetCount | apps/desktop/src/main/organizer.ts:131-136 | the count for a key never exceeds the number of items |
| Organizer.CountedOnce | apps/desktop/src/main/organizer.ts:131-136 | an item counted under a key makes its count at least one |
| Organizer.CountedTwice | apps/desktop/src/main/organizer.ts:131-136 | two items counted under a key make its count at least two |
| Organizer.WithConflicts | apps/desktop/src/main/organizer.ts:137-142 | each item is kept or, only if it was ready, turned into a conflict |
| Organizer.ReadyTargetsDistinct | apps/desktop/src/main/organizer.ts:131-142 | after the conflict pass no two ready items share a target ignoring case |
| Organizer.Drafts | apps/desktop/src/main/organizer.ts:86-129 | one item per file |
| Organizer.OrganizePlan | apps/desktop/src/main/organizer.ts:78-145 | one item per collected file, in file order |
| Organizer.PlanProperties | apps/desktop/src/main/organizer.ts:78-145 | items without a season stay in place unmatched, ready items move, and no two ready items share a target ignoring case |
| Organizer.PlanFile | apps/desktop/src/main/organizer.ts:86-129 | the loop body builds the file's draft item |
| Organizer.DraftPlan | apps/desktop/src/main/organizer.ts:86-129 | the first loop builds the draft of every file |
| Organizer.CountTargets | apps/desktop/src/main/organizer.ts:131-136 | the map holds, with 0 for a missing key, the number of items counted under each key |
| Organizer.MarkConflicts | apps/desktop/src/main/organizer.ts:137-142 | the second loop returns WithConflicts of the drafts |
| Organizer.BuildOrganizePlan | apps/desktop/src/main/organizer.ts:78-145 | the method with its three loops returns OrganizePlan |
| Organizer.Operations | apps/desktop/src/main/organizer.ts:148 | the operations are exactly the plan's ready items that move |
| Organizer.OperationsAreReadyItems | apps/desktop/src/main/organizer.ts:147-148 | in a built plan the operations are exactly the ready items |
| Recommendation.FindMood | apps/desktop/src/renderer/services/recommendation.service.ts:120-122 | the mood found is the first in the list with that id; None exactly when no mood has it |
| Recommendation.MoodById | apps/desktop/src/renderer/services/recommendation.service.ts:120-122 | the mood found is one of the eight with that id; None exactly when none has it |
| Recommendation.KnownMoodIds | apps/desktop/src/renderer/services/recommendation.service.ts:4-12 | exactly the eight mood ids are found |
| Recommendation.StatusesOf | apps/desktop/src/renderer/services/recommendation.service.ts:145-150 | the status map never records the empty id |
| Recommendation.StatusesOfDomain | apps/desktop/src/renderer/services/recommendation.service.ts:145-150 | an id is recorded exactly when it is non-empty and some library entry carries it |
| Recommendation.StatusesOfLast | apps/desktop/src/renderer/services/recommendation.service.ts:145-150 | the status recorded for an id is that of the last library entry with the id |
| Recommendation.LibraryStatusById | apps/desktop/src/renderer/services/recommendation.service.ts:145-150 | the loop builds StatusesOf of the library |
| Recommendation.MatchCount | apps/desktop/src/renderer/services/recommendation.service.ts:172-177 | the count of wanted tags is at most the number of tags, and 0 exactly when no tag is wanted |
| Recommendation.MoodScore | apps/desktop/src/renderer/services/recommendation.service.ts:169-199 | the entry is blocked exactly when it has an excluded tag or genre; otherwise the score is non-negative and bounded by the tag and genre weights plus the bonuses, and 0 only when no tag or genre is wanted |
| Recommendation.FinishedBonusNeverApplies | apps/desktop/src/renderer/services/recommendation.service.ts:197-199 | the finished bonus compares the pool entry's own status with 'FINISHED'; that status is always 'plan-to-watch', set by the media mapping, so the bonus never applies |
| Recommendation.MatchCountAppend | apps/desktop/src/renderer/services/recommendation.service.ts:172 | one more tag adds one to the count exactly when it is wanted |
| Recommendation.ExtraTagScores | apps/desktop/src/renderer/services/recommendation.service.ts:172-173 | one more wanted, not excluded tag raises the mood score by exactly 15 |
| Recommendation.ScoreEntry | apps/desktop/src/renderer/services/recommendation.service.ts:155-208 | an entry is dropped exactly when the library filter or an excluded tag removes it; otherwise it carries its mood score and its tie-breakers, -1 for a missing one |
| Recommendation.ScoredPool | apps/desktop/src/renderer/services/recommendation.service.ts:154-209 | the scored entries are exactly the pool entries that survive the filters |
| Recommendation.RanksBefore | apps/desktop/src/renderer/services/recommendation.service.ts:212-224 | an entry may come first when its mood score is higher, or equal with a tie value at least as high |
| Recommendation.RanksBeforeIsPreorder | apps/desktop/src/renderer/services/recommendation.service.ts:212-224 | the comparator is a total preorder |
| Recommendation.Ranked | apps/desktop/src/renderer/services/recommendation.service.ts:212-224 | the sort is a permutation of the scored entries |
| Recommendation.RankedIsOrdered | apps/desktop/src/renderer/services/recommendation.service.ts:212-224 | the ranked list descends by mood score, then by the mood's tie-breaker |
| Recommendation.SliceEnd | apps/desktop/src/renderer/services/recommendation.service.ts:228 | slice(0, limit) ends at the limit, at most the length; a negative limit counts from the end |
| Recommendation.AnimeOf | apps/desktop/src/renderer/services/recommendation.service.ts:229 | the k-th anime is the k-th entry's |
| Recommendation.MoodRecommendations | apps/desktop/src/renderer/services/recommendation.service.ts:132-235 | an unknown mood id is an error; otherwise the result carries the mood |
| Recommendation.GetMoodRecommendations | apps/desktop/src/renderer/services/recommendation.service.ts:132-235 | the method with its status loop returns MoodRecommendations |
| Recommendation.RecommendationsAreFilteredPool | apps/desktop/src/renderer/services/recommendation.service.ts:142-229 | every recommendation comes from the pool and passed both filters, and there are at most limit of them (12 by default) |
| Recommendation.DefaultsSkipFinishedWith | apps/desktop/src/renderer/services/recommendation.service.ts:142-167 | with the default options nothing the library marks completed or dropped is recommended |
| Recommendation.RecommendationsRanked | apps/desktop/src/renderer/services/recommendation.service.ts:211-228 | the recommendations come by mood score, then the tie-breaker, both descending |
| DiscordPresence.Merge | apps/desktop/src/main/main.ts:743-745 | every field supplied by the patch wins, every other field keeps the current value |
| DiscordPresence.MergeLaws | apps/desktop/src/main/main.ts:743-745 | an empty patch changes nothing and applying the same patch twice is applying it once |
| DiscordPresence.FullPatchReplaces | apps/desktop/src/main/main.ts:743-745 | a patch supplying every field replaces the configuration by it |
| DiscordPresence.PresenceSettings.constructor | apps/desktop/src/main/main.ts:61-66 | the configuration starts enabled, minimal, with moods and buttons on |
| DiscordPresence.PresenceSettings.UpdateConfig | apps/desktop/src/main/main.ts:743-745 | the new configuration is the old one merged with the patch |
| DiscordPresence.LargeImageKey | apps/desktop/src/main/main.ts:85-89 | free users and users without a theme get the logo; a Pro theme containing 'neon' gets the neon art, else one containing 'midnight' the midnight art; no other key is possible |
| DiscordPresence.TotalSuffix | apps/desktop/src/main/main.ts:92 | the total is shown exactly when it is truthy |
| DiscordPresence.StatsParts | apps/desktop/src/main/main.ts:110-117 | the episode part first, then the session count and today's count each exactly when positive |
| DiscordPresence.WeebParts | apps/desktop/src/main/main.ts:126-130 | the episode part first, then the session count exactly when positive |
| DiscordPresence.MoodText | apps/desktop/src/main/main.ts:121-124 | without moods or a mood label the text is 'Anime session'; a mood text never starts or ends with white space |
| DiscordPresence.BuildDiscordActivity | apps/desktop/src/main/main.ts:71-158 | there is no activity exactly when the title is empty; the image is LargeImageKey's; the two buttons appear exactly for Pro users with buttons on, and otherwise none |
| DiscordPresence.FreePresence | apps/desktop/src/main/main.ts:95-102 | a free user's activity is 'Watching T' and 'Episode E' with ' / N' only for a known total, the logo and no buttons |
| DiscordPresence.FreePresenceIgnoresConfig | apps/desktop/src/main/main.ts:95-104 | a free user's activity does not depend on the presence configuration |
| DiscordPresence.ForwardCompletion | apps/desktop/src/main/main.ts:313-345 | nothing is forwarded exactly when both episode numbers are missing; otherwise the episode is the overall one before the season one and the other fields are passed on |
| ExtensionBackground.EpisodeNumber | apps/extension/src/background/background.ts:90 | the episode part of every key is the overall episode when there is one, else the season episode |
| ExtensionBackground.SyncKeyIdentifies | apps/extension/src/background/background.ts:129-142 | two events share a pending-sync key exactly when their title, episode and season are all equal |
| ExtensionBackground.ActivityKeyIdentifies | apps/extension/src/background/background.ts:214-223 | two events share a recent-activity key exactly when their platform, title and episode are all equal |
| ExtensionBackground.WithoutActivity | apps/extension/src/background/background.ts:92-95 | the filter keeps exactly the old entries whose activity key differs, and never grows the list |
| ExtensionBackground.WithoutActivityDistinct | apps/extension/src/background/background.ts:92-95 | filtering a list whose activity keys are distinct keeps them distinct |
| ExtensionBackground.RecentActivityAfter | apps/extension/src/background/background.ts:85-101 | the event comes first, then the leading old entries with other keys in their order, at most 10 in all; an old entry with another key is dropped only when the list is full |
| ExtensionBackground.RecentActivityStaysDistinct | apps/extension/src/background/background.ts:85-101 | the update keeps at most one entry per activity key |
| ExtensionBackground.LastWatchedOf | apps/extension/src/background/background.ts:353-360 | the stored entry copies the platform, title, url and completion time; its episode is overall ?? season episode, its season the season number |
| ExtensionBackground.LastWatchedAfter | apps/extension/src/background/background.ts:107-120 | the new entry comes first, followed by the newest old entries, up to 20 in all |
| ExtensionBackground.PendingAfterAdd | apps/extension/src/background/background.ts:125-143 | an event is appended only when no queued event has its key; afterwards the key is queued, and distinct keys stay distinct |
| ExtensionBackground.PendingAddIdempotent | apps/extension/src/background/background.ts:125-143 | adding the same event twice queues it once |
| ExtensionBackground.WithoutSyncKey | apps/extension/src/background/background.ts:155-159 | the filter keeps exactly the queued events with another key, in their order |
| ExtensionBackground.WithoutAbsentSyncKey | apps/extension/src/background/background.ts:155-159 | removing a key that no queued event has leaves the queue unchanged |
| ExtensionBackground.PendingAfterRemove | apps/extension/src/background/background.ts:148-162 | afterwards no event with the key is left; every event with another key stays, in order; a key not in the queue changes nothing |
| ExtensionBackground.Delivered | apps/extension/src/background/background.ts:177-182 | the delivered events are exactly the queued events whose send was answered with success |
| ExtensionBackground.SyncKeys | apps/extension/src/background/background.ts:189-193 | the set holds the key of every delivered event and nothing else |
| ExtensionBackground.WithoutSyncKeys | apps/extension/src/background/background.ts:186-194 | the filter keeps exactly the queued events whose key matches no delivered event, in their order |
| ExtensionBackground.PendingAfterSync | apps/extension/src/background/background.ts:167-197 | nothing changes when no send succeeds; otherwise an event stays exactly when its key matches no delivered event |
| ExtensionBackground.SyncKeepsFailedSends | apps/extension/src/background/background.ts:167-197 | when queued keys are distinct, an event stays queued exactly when its own send failed |
| ExtensionBackground.SubsequenceKeepsDistinct | apps/extension/src/background/background.ts:155-159 | a filtered queue keeps the distinct keys of the original |
| ExtensionBackground.ExtensionStorage.constructor | apps/extension/src/background/background.ts:22-40 | a fresh install starts with empty lists, which satisfy the storage invariant |
| ExtensionBackground.ExtensionStorage.HandleEpisodeCompleted | apps/extension/src/background/background.ts:85-98 | the recent-activity list becomes RecentActivityAfter, the other lists are untouched, and the caps and key uniqueness still hold |
| ExtensionBackground.ExtensionStorage.StoreLastWatched | apps/extension/src/background/background.ts:107-120 | the last-watched list becomes LastWatchedAfter, the other lists are untouched |
| ExtensionBackground.ExtensionStorage.AddToPendingSync | apps/extension/src/background/background.ts:125-143 | the queue becomes PendingAfterAdd, the other lists are untouched |
| ExtensionBackground.ExtensionStorage.RemoveFromPendingSync | apps/extension/src/background/background.ts:148-162 | the queue becomes PendingAfterRemove and keeps distinct keys |
| ExtensionBackground.ExtensionStorage.ProcessPendingSync | apps/extension/src/background/background.ts:167-197 | the send loop collects the delivered events in queue order, and the queue becomes PendingAfterSync |
| ExtensionBackground.BeforeFirst | apps/extension/src/background/background.ts:204-205 | the part before the first separator is a prefix of the string, holds no separator, and is followed by one whenever it is shorter |
| ExtensionBackground.FirstEpisodeTail | apps/extension/src/background/background.ts:206 | the position found is the leftmost place where the case-insensitive word "episode" starts a single-line tail |
| ExtensionBackground.FirstEpTail | apps/extension/src/background/background.ts:207 | the position found is the leftmost place where "ep", optional white space and a digit start a single-line tail |
| ExtensionBackground.CutEpisodeTail | apps/extension/src/background/background.ts:206 | removing the match leaves a prefix of the input |
| ExtensionBackground.CutEpTail | apps/extension/src/background/background.ts:207 | removing the match leaves a prefix of the input |
| ExtensionBackground.NormalizeTitle | apps/extension/src/background/background.ts:202-209 | the normalised title has no white space at either end |
| ExtensionBackground.NormalizedTitleHasNoSeparators | apps/extension/src/background/background.ts:202-209 | the normalised title contains no vertical bar and no dash |
| ExtensionBackground.CutEpisodeTailLeavesNone | apps/extension/src/background/background.ts:206 | after the cut, no "episode" tail and no line break are left |
| ExtensionBackground.CutEpTailLeavesNone | apps/extension/src/background/background.ts:207 | after the second cut, neither kind of tail is left |
| ExtensionBackground.TrimLeavesNone | apps/extension/src/background/background.ts:208 | trimming does not create a tail |
| ExtensionBackground.NormalizedTitleHasNoTail | apps/extension/src/background/background.ts:202-209 | on a single-line title, no "episode…" or "ep N…" tail is left after normalising |
| ExtensionTypes.PlatformName | apps/extension/src/types.ts:3 | a platform's name contains no colon, so it can lead a colon-separated key |
| ExtensionTypes.PlatformNameInjective | apps/extension/src/types.ts:3 | different platforms have different names |
| ExtensionTypes.CompletionOf | apps/extension/src/content/video-tracker.ts:133-147 | a completion copies the detection's platform, title, url, episode and season fields and carries the playback figures it was given |
| ExtensionTypes.EpisodeOf | apps/extension/src/content/video-tracker.ts:23-27 | the episode of a detection is its overall episode when there is one, else its season episode |
| ExtensionTypes.NumberOr | apps/extension/src/content/video-tracker.ts:23-27 | a number in a key is written as its decimal digits; a missing one becomes the placeholder |
| ExtensionTypes.NumberOrInjective | apps/extension/src/content/video-tracker.ts:23-27 | with a placeholder that does not start with a digit, the key component determines the number |
| VideoTracking.TrackerKeyIdentifies | apps/extension/src/content/video-tracker.ts:23-27 | two detections get the same episode key exactly when title, episode (overall before season episode) and season all agree |
| VideoTracking.VideoTracker.constructor | apps/extension/src/content/video-tracker.ts:6-21 | a new tracker holds the detection and its key, with nothing sent, no video and no tracking |
| VideoTracking.VideoTracker.AttachListeners | apps/extension/src/content/video-tracker.ts:74-79 | tracking begins only when a video is held; the playback state is untouched |
| VideoTracking.VideoTracker.Start | apps/extension/src/content/video-tracker.ts:32-52 | a tracker already tracking stays as it is; otherwise it holds the looked-up video and tracks exactly when one was found |
| VideoTracking.VideoTracker.RetryStart | apps/extension/src/content/video-tracker.ts:42-47 | the delayed lookup replaces the video and starts tracking when it finds one |
| VideoTracking.VideoTracker.Stop | apps/extension/src/content/video-tracker.ts:57-72 | stopping a tracker that tracks a video drops both; in every other state nothing changes |
| VideoTracking.VideoTracker.SendCompletion | apps/extension/src/content/video-tracker.ts:120-153 | the first call sends one completion built from the detection and marks it sent; later calls send nothing, so at most one completion per episode key |
| VideoTracking.VideoTracker.TimeUpdate | apps/extension/src/content/video-tracker.ts:82-101 | while listening and with a nonzero duration the progress is recorded, and from 80% on the completion is sent once; otherwise nothing changes |
| VideoTracking.VideoTracker.Ended | apps/extension/src/content/video-tracker.ts:104-114 | while listening the completion is sent unless already sent, with progress 1 for a non-positive duration |
| VideoTracking.VideoTracker.UpdateDetection | apps/extension/src/content/video-tracker.ts:158-172 | a detection with a new key resets the playback state, adopts the detection and starts again; the same key changes nothing; no message is sent |
| VideoTracking.RepeatedCompletionSendsOnce | apps/extension/src/content/video-tracker.ts:97-100 | two time updates past 80% and an ended event on one episode send exactly one completion, the first |
| ContentTracking.ContentKeyIdentifies | apps/extension/src/content/content.ts:106-107 | two detections share a tracker key exactly when their title and episode are equal; the season plays no part |
| ContentTracking.ProgressOf | apps/extension/src/content/content.ts:37-39 | the progress is 0 when the duration is not positive, and lies between 0 and 1 while the position is within the video |
| ContentTracking.EpisodeTracker.constructor | apps/extension/src/content/content.ts:15-26 | a new tracker holds its detection, has sent nothing and has no handlers attached |
| ContentTracking.EpisodeTracker.Start | apps/extension/src/content/content.ts:28-72 | after start the handlers are attached; a second start changes nothing else |
| ContentTracking.EpisodeTracker.Stop | apps/extension/src/content/content.ts:74-84 | after stop both handlers are detached; nothing else changes |
| ContentTracking.EpisodeTracker.SendEpisodeCompleted | apps/extension/src/content/content.ts:86-103 | exactly one completion carrying the detection and the playback figures is sent |
| ContentTracking.EpisodeTracker.TimeUpdate | apps/extension/src/content/content.ts:36-52 | from 80% progress the completion is sent once and hasSentComplete is set; below 80%, or when detached, nothing changes; at most one completion per detection |
| ContentTracking.EpisodeTracker.Ended | apps/extension/src/content/content.ts:54-67 | the ended event sends the completion unless one was already sent; at most one completion per detection |
| ContentTracking.EpisodeTracker.UpdateDetection | apps/extension/src/content/content.ts:105-116 | a detection with another key replaces the old one, clears hasSentComplete and restarts the tracker; the same key changes nothing |
| ContentTracking.DetectionStore.constructor | apps/extension/src/content/content.ts:139 | the shared store starts without a detection |
| ContentTracking.ChosenDetection | apps/extension/src/content/content.ts:179-192 | an iframe tracks the stored detection; the top frame tracks its own detection when that detection is valid |
| ContentTracking.TopFrameTracksOwnDetection | apps/extension/src/content/content.ts:134-192 | in the top frame, a detection is stored before the store is read, so the frame tracks its own detection even when it is invalid |
| ContentTracking.ContentScript.constructor | apps/extension/src/content/content.ts:8-10 | a frame's script starts with no tracker, no last key and no messages |
| ContentTracking.ContentScript.RecordDetection | apps/extension/src/content/content.ts:133-162 | the top frame stores and announces its detection and remembers its key; a key change stops and drops the old tracker |
| ContentTracking.ContentScript.TrackVideo | apps/extension/src/content/content.ts:194-206 | a chosen detection with an overall episode creates a fresh tracker or updates the current one; otherwise the tracker is kept as it is |
| ContentTracking.ContentScript.RunDetection | apps/extension/src/content/content.ts:122-218 | the whole run: the stored detection, the key and the messages as RecordDetection leaves them; a tracker afterwards tracks the title and episode of the chosen detection, and is fresh whenever the old one was dropped |
| ContentTracking.ContentScript.Clear | apps/extension/src/content/content.ts:223-233 | clearing stops and drops the tracker, forgets the last key and sends one clear message |
| ContentTracking.NextSeasonSameNumberNotSent | apps/extension/src/content/content.ts:105-116 | the same title and episode number in another season keeps the sent state, so its completion is not sent again |
| Counting.CountOf | apps/desktop/src/renderer/services/stats.service.ts:128 | a key that was never set counts as 0 |
| Counting.Add | apps/desktop/src/renderer/services/stats.service.ts:128 | setting an existing key keeps the number of entries; a new key is appended last |
| Counting.AddKeys | apps/desktop/src/renderer/services/stats.service.ts:128 | after an add the keys are the old keys plus the added one |
| Counting.AddCount | apps/desktop/src/renderer/services/stats.service.ts:128 | an add raises the count of its own key by n and leaves every other count alone |
| Counting.AddTotal | apps/desktop/src/renderer/services/stats.service.ts:128 | an add raises the sum of the counts by n |
| Counting.TallyFacts | apps/desktop/src/renderer/services/stats.service.ts:170-174 | a tally has one entry per distinct key, in first-occurrence order; each count is the number of occurrences, and the counts sum to the number of keys |
| Counting.TallyKeySet | apps/desktop/src/renderer/services/stats.service.ts:170-174 | a tally has exactly one entry for each distinct key |
| Counting.SortKeepsKeys | apps/desktop/src/renderer/services/stats.service.ts:175-177 | sorting a counter keeps its set of keys |
| Counting.SortDistinct | apps/desktop/src/renderer/services/stats.service.ts:143-146 | sorting a counter keeps its keys distinct |
| Counting.SortTotal | apps/desktop/src/renderer/services/stats.service.ts:148-152 | sorting a counter keeps the sum of its counts |
| Counting.MaxCount | apps/desktop/src/renderer/services/stats.service.ts:178 | the maximum bounds every count, is 0 for an empty counter, and is reached by an entry of a non-empty one |
| Counting.TopEntriesComplete | apps/desktop/src/renderer/services/stats.service.ts:143-146 | an entry cut from the top n means n entries were kept, each with a count at least as high |
| Counting.TopOfTally | apps/desktop/src/renderer/services/stats.service.ts:143-146 | the top n of a tally holds at most n distinct keys with their occurrence counts, highest count first; a key left out had a count no higher than every kept one |
| Counting.SortByKeyAscending | apps/desktop/src/renderer/services/stats.service.ts:148-152 | a counter with distinct numeric keys, sorted by key, has strictly ascending keys |
| Sorting.StableSort | apps/desktop/src/renderer/services/stats.service.ts:145 | sorting gives a permutation of its input |
| Sorting.StableSortSorted | apps/desktop/src/renderer/services/stats.service.ts:145 | under a total preorder, the result is sorted |
| Sorting.StableSortKeepsTieOrder | apps/desktop/src/renderer/services/stats.service.ts:145 | stability: for every value, the elements that tie with it come out in the same relative order as they went in |
| Sorting.InsertTies | apps/desktop/src/renderer/services/stats.service.ts:145 | inserting an element puts it in front of every element it ties with, and leaves the order of the other ties unchanged |
| Sorting.StableSortHead | apps/desktop/src/renderer/store/useStore.ts:724-731 | sorting by ascending key and taking the head gives the first element with the smallest key, so ties keep their original order |
| Sorting.Take | apps/desktop/src/renderer/services/stats.service.ts:146 | slice(0, n) keeps the first min(n, length) elements |

## Where the code and the documented behaviour differ

The model follows the code in each of these cases, and in the two listed under "## Findings": the tracking handler passes unknown season counts as 0 (TrackingOrchestrator.Retarget, PlaceEpisode and HandleTrackingUpdate use CountsAsWritten), and the license key is masked by the replacement as written (LicenseMask.MaskLicenseKey uses MaskAsWritten). The corrected versions are proved beside them.

- LibraryStore.NextStatus: the documented behaviour is that a detection that reaches the last episode completes the entry. In the code, plan-to-watch and dropped become watching first, even at the last episode (PlanToWatchBecomesWatching).
- TrackingOrchestrator.WatchingUpdate: the tracking handlers always pass the status watching, so a detection never completes an entry by itself.
- AniListService.FranchiseTimeline: the documented behaviour is that a lookup failure mid-walk keeps the partial timeline. In the code, any failure gives the seed alone, or nothing when the seed lookup also fails (FailedWalkGivesSeed). A prequel cycle makes the seed itself the root (SelfPrequelIsRoot).
- SeasonEpisode.ConvertGlobalToSeasonEpisode: a season count of 0 forces episode 0, because the count replaces only a missing value.
- LibraryStore.NextProgress: progress can move back when the current value already lies above the known total, since the ceiling is applied after the no-going-back rule.
- ExtensionBackground.NormalizeTitle: the documented purpose is to strip the episode tail from a title. The patterns `/episode.*$/i` and `/ep\s*\d+.*$/i` have no m flag, and `.` does not cross a line break. So on a title with a line break after the tail's start, such as "Show episode\n2", neither pattern matches and the tail stays. NormalizedTitleHasNoTail therefore promises no tail only for single-line titles.
- TitleMatcher.FindAnimeByTitle: the season it compares comes from the title text alone. The detection's season number is checked afterwards, by the orchestrator's season verification.
- TrackingOrchestrator.ResolutionHeuristicsNested: the modal path resolves whenever the global episode exceeds 24 or the total, without asking for a season number of 2 or more.

## Left out

- Network and host APIs: GraphQL requests, the request throttle, the pending-request map, retry with backoff, OAuth, license activation, the auto-updater, the extension's HTTP server, `fetch`, and `chrome.storage`/`chrome.runtime`. Storage lists, search results and AniList relations are parameters and fields instead.
- Relation lookups: the franchise walk reads a map from media id to the relations, and a missing key stands for a failed request.
- File system: collecting video files, `mkdir`/`rename`/`writeFile` in the organizer. `path.join` is plain concatenation with '/', with no normalisation: a title that sanitizes to the empty string gives `root//Season 1/…` in the model where Node's `path.join` gives `root/Season 1/…`. Organizer.Operations models only the selection of the items to apply.
- The `tasklist` process scan and the polling timer of the watcher. A tick's window titles are an input, and the timer is a flag.
- DOM scraping and the site adapters. The page's `<video>` element is a flag saying whether one was found. `start`'s one-second retry is the separate method RetryStart.
- ContentTracking: the `lastDetected` storage write, the legacy ANIME_DETECTED message and the tab handlers of the content script.
- DiscordPresence: the Discord RPC client and the IPC channels. An activity is the value that would be sent, and `instance` (always false) is not a field.
- Floating point: video progress is an exact rational, and `totalHours` and `averageEpisodesPerSession` are computed as exact reals, so the double rounding of stats.service.ts:159, 240 and 324 is not captured. A rating is taken as an integer score times ten, standing for the source's `Math.round`.
- Local time: `getHours` and `getDay` (evening and weekend sessions, late-night events) read the hour and weekday in a zone a fixed number of minutes ahead of UTC, given as a parameter. `inferArchetype` is never called and is not modelled; the archetype is `inferArchetypeSimple`'s.
- Stats: library entries carry no `completedAt`, so the yearly summary's completion test uses only its approximation: progress at the episode count and an event in the year.
- TitleMatcher.FindAnimeByTitle, TitleMatcher.ClosestCandidate, FilenameParser.ParseFilename, TrackingOrchestrator.CloseTitle, Organizer.FindMatchingAnime, Organizer.ReadyTargetsDistinct, LibraryStore.Store.AddMapping and ContentTracking.InvalidDetection: case folding is ASCII only, because Text.Lower folds just A to Z where JavaScript's `toLowerCase` folds all of Unicode, so "ÉCOLE" and "école" match in the source but not in the model; and string lengths count code points, not UTF-16 code units, so a title outside the Basic Multilingual Plane has a shorter length here than in JavaScript: ClosestCandidate's length gap can differ, and a title of one astral character has length 1 here, so ParseFilename takes its short-title fallback where JavaScript, seeing length 2, does not.
- Number parsing: `Number()` and `parseInt` are modelled on decimal digit strings only, and a non-numeric id is the value None in place of NaN. The model reads digit runs exactly (Text.DigitsValue, LibraryStore.NumericId), where JavaScript's `Number` and `parseInt` give a double and lose precision above 2^53.
- Stats: ISO timestamps that start with a given year are modelled for the years 1000 to 9999. Only those years are written as four digits followed by a dash.
- Recommendation: the AniList pool is an input. `Number.NEGATIVE_INFINITY` for an excluded tag is the value None.
- Concurrency: overlapping asynchronous detections, debounce timers and the pending-request promise dedup. Each detection runs to completion.
- UI: React rendering, toasts and the disambiguation modal. The modal is a returned outcome, and the user's later choice is the input of HandleAnimeMatch.

## Findings

| source | as written | input that shows it | evidently intended | confidence | as-written member | corrected member |
|---|---|---|---|---|---|---|
| apps/desktop/src/renderer/components/Layout.tsx:308 | unknown season episode counts are passed to the season converter as 0, and a count of 0 caps the season episode at 0 | seasons [12 episodes, airing]; detection season 2, global episode 14 | season episode 2, the count of an airing season being unknown | not executed | TrackingOrchestrator.UnknownCountGivesEpisodeZero | TrackingOrchestrator.KnownCountsGivePositiveEpisode |
| apps/desktop/src/renderer/components/LicenseSettings.tsx:10 | a character is masked only when four letters or digits follow it directly, so dash-grouped keys are shown in full | ABCD-EFGH-IJKL-MNOP | XXXX-XXXX-XXXX-MNOP, everything but the last four masked | not executed | LicenseMask.GroupedKeyUnmasked | LicenseMask.MaskKeepingLastFour |
