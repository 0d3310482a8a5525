// The library entry shared by the desktop app and its services
// (packages/shared/src/index.ts), restricted to the fields the modelled
// logic reads or writes.
module AnimeModel {
  import opened Wrappers

  /** The five local watch statuses. */
  datatype Status = PlanToWatch | Watching | Completed | OnHold | Dropped

  /** The status as the app spells it. */
  function StatusName(s: Status): string {
    match s
    case PlanToWatch => "plan-to-watch"
    case Watching => "watching"
    case Completed => "completed"
    case OnHold => "on-hold"
    case Dropped => "dropped"
  }

  /**
   * A library entry. `progress` is declared as a number, but the store and the
   * statistics both handle a missing value, so it is optional here.
   * `ratingTimesTen` stands for `Math.round(rating * 10)`.
   * `averageScore`, `popularity`, `trending` and `tags` are the AniList extras
   * that are attached only when AniList supplied a truthy value.
   */
  datatype Anime = Anime(
    id: string,
    title: string,
    titleEnglish: Option<string>,
    titleJapanese: Option<string>,
    episodes: Option<nat>,
    status: Status,
    progress: Option<int>,
    ratingTimesTen: Option<int>,
    genres: seq<string>,
    averageScore: Option<int>,
    popularity: Option<int>,
    trending: Option<int>,
    tags: Option<seq<string>>
  )

  /** Index of the first entry with the given id (`findIndex`), if any. */
  function IndexOfId(library: seq<Anime>, id: string): (r: Option<nat>)
    ensures r.Some? ==> r.value < |library| && library[r.value].id == id
    ensures r.Some? ==> forall j :: 0 <= j < r.value ==> library[j].id != id
    ensures r.None? ==> forall j :: 0 <= j < |library| ==> library[j].id != id
  {
    if |library| == 0 then None
    else if library[0].id == id then Some(0)
    else
      match IndexOfId(library[1..], id)
      case None => None
      case Some(k) => Some(k + 1)
  }

  /** `library.some(a => a.id === id)`. */
  predicate HasId(library: seq<Anime>, id: string) {
    exists j :: 0 <= j < |library| && library[j].id == id
  }

  /** `library.find(a => a.id === id)`. */
  function FindById(library: seq<Anime>, id: string): (r: Option<Anime>)
    ensures r.Some? <==> HasId(library, id)
    ensures r.Some? ==> r.value in library && r.value.id == id
  {
    match IndexOfId(library, id)
    case None => None
    case Some(k) => Some(library[k])
  }

  /** Where a watch event came from (`WatchSource` in the statistics service). */
  datatype WatchSource = DesktopSource | ExtensionSource | ManualSource

  /**
   * One watched episode. `at` is the ISO timestamp as milliseconds since the
   * epoch; the ISO strings of the years 0000-9999 sort like these numbers.
   */
  datatype WatchEvent = WatchEvent(animeId: nat, episode: int, at: int, source: WatchSource)

  /** No two entries share an id. */
  predicate UniqueIds(library: seq<Anime>) {
    forall i, j :: 0 <= i < j < |library| ==> library[i].id != library[j].id
  }

  /** The set of ids in a library. */
  function Ids(library: seq<Anime>): set<string> {
    set a | a in library :: a.id
  }
}
