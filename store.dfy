// The library store of the desktop app (apps/desktop/src/renderer/store/useStore.ts):
// the library, the watch-event log and the filename-title mappings, and the
// actions that change them. Synchronisation with AniList is left out; only
// the status it would send is modelled (ToAniListStatus).
module LibraryStore {
  import opened Wrappers
  import opened Text
  import opened AnimeModel

  /** The AniList status sent for a local status. */
  function ToAniListStatus(s: Status): (r: string)
    ensures r in {"PLANNING", "CURRENT", "COMPLETED", "PAUSED", "DROPPED"}
    ensures s == PlanToWatch <==> r == "PLANNING"
    ensures s == Watching <==> r == "CURRENT"
    ensures s == Completed <==> r == "COMPLETED"
    ensures s == OnHold <==> r == "PAUSED"
    ensures s == Dropped <==> r == "DROPPED"
  {
    match s
    case PlanToWatch => "PLANNING"
    case Watching => "CURRENT"
    case Completed => "COMPLETED"
    case OnHold => "PAUSED"
    case Dropped => "DROPPED"
  }

  /**
   * `Number(id)` when it is finite, for decimal ids: surrounding white space
   * is ignored and the empty string is 0. Other numeric spellings (hex,
   * exponents, signs, fractions) are not recognised.
   */
  function NumericId(id: string): (r: Option<nat>)
    ensures r.Some? ==> AllDigits(Trim(id))
    ensures AllDigits(Trim(id)) ==> r == Some(DigitsValue(Trim(id)))
  {
    var t := Trim(id);
    if AllDigits(t) then Some(DigitsValue(t)) else None
  }

  /** The watch events `logWatchEvents` builds for the episodes from..to (in either order). */
  function RangeEvents(animeId: nat, fromEpisode: int, toEpisode: int, source: WatchSource, now: int): seq<WatchEvent> {
    var start := if fromEpisode <= toEpisode then fromEpisode else toEpisode;
    var end := if fromEpisode <= toEpisode then toEpisode else fromEpisode;
    seq(end - start + 1, i requires 0 <= i < end - start + 1 => WatchEvent(animeId, start + i, now + i * 1000, source))
  }

  /** The events appended by `logWatchEvents`: none for a non-numeric id. */
  function LoggedEvents(animeId: string, fromEpisode: int, toEpisode: int, source: WatchSource, now: int): seq<WatchEvent> {
    match NumericId(animeId)
    case None => []
    case Some(n) => RangeEvents(n, fromEpisode, toEpisode, source, now)
  }

  /** The requested changes of `updateProgress`/`updateEntry`. */
  datatype Updates = Updates(status: Option<Status>, progress: Option<int>)

  /** `typeof progress === 'number' ? progress : 0`. */
  function CurrentProgress(a: Anime): int {
    a.progress.OrElse(0)
  }

  /** The seasons's known episode count, or null. */
  function TotalEpisodes(a: Anime): Option<nat> {
    a.episodes
  }

  /** The reconciled progress: the request, raised to the current value, then lowered to a known total. */
  function NextProgress(a: Anime, requested: Option<int>): (r: int)
    ensures TotalEpisodes(a).Some? ==> r <= TotalEpisodes(a).value
    ensures (TotalEpisodes(a).None? || CurrentProgress(a) <= TotalEpisodes(a).value) ==> r >= CurrentProgress(a)
    ensures r < CurrentProgress(a) ==> TotalEpisodes(a).Some? && r == TotalEpisodes(a).value
    ensures requested.None? && (TotalEpisodes(a).None? || CurrentProgress(a) <= TotalEpisodes(a).value) ==> r == CurrentProgress(a)
    ensures (requested.Some? && CurrentProgress(a) <= requested.value
             && (TotalEpisodes(a).None? || requested.value <= TotalEpisodes(a).value)) ==> r == requested.value
  {
    var next := requested.OrElse(CurrentProgress(a));
    var notBack := if next < CurrentProgress(a) then CurrentProgress(a) else next;
    if TotalEpisodes(a).Some? && notBack > TotalEpisodes(a).value then TotalEpisodes(a).value else notBack
  }

  /** The status after `updateProgress`. */
  function NextStatus(a: Anime, requested: Option<Status>, nextProgress: int): (r: Status)
    ensures requested.Some? ==> r == requested.value
    ensures requested.None? && (a.status == PlanToWatch || a.status == Dropped) ==> r == Watching
    ensures requested.None? && a.status in {Watching, Completed, OnHold} ==>
      (r == Completed <==> a.status == Completed || (TotalEpisodes(a).Some? && nextProgress >= TotalEpisodes(a).value))
    ensures requested.None? && r != a.status ==>
      r == Watching || (r == Completed && TotalEpisodes(a).Some? && nextProgress >= TotalEpisodes(a).value)
  {
    if requested.Some? then requested.value
    else if a.status == PlanToWatch || a.status == Dropped then Watching
    else if TotalEpisodes(a).Some? && nextProgress >= TotalEpisodes(a).value then Completed
    else a.status
  }

  /** The progress and status computation of `updateProgress`. */
  method ReconcileEntry(anime: Anime, updates: Updates) returns (nextProgress: int, nextStatus: Status)
    ensures nextProgress == NextProgress(anime, updates.progress)
    ensures nextStatus == NextStatus(anime, updates.status, nextProgress)
  {
    var currentProgress := if anime.progress.Some? then anime.progress.value else 0;
    var totalEpisodes := anime.episodes;
    nextProgress := if updates.progress.Some? then updates.progress.value else currentProgress;
    if nextProgress < currentProgress {
      nextProgress := currentProgress;
    }
    if totalEpisodes.Some? && nextProgress > totalEpisodes.value {
      nextProgress := totalEpisodes.value;
    }
    if updates.status.Some? {
      nextStatus := updates.status.value;
    } else if anime.status == PlanToWatch || anime.status == Dropped {
      nextStatus := Watching;
    } else if totalEpisodes.Some? && nextProgress >= totalEpisodes.value {
      nextStatus := Completed;
    } else {
      nextStatus := anime.status;
    }
  }

  /** The entry `updateProgress` writes back. */
  function Reconciled(a: Anime, updates: Updates): Anime {
    var next := NextProgress(a, updates.progress);
    a.(status := NextStatus(a, updates.status, next), progress := Some(next))
  }

  /** The events `updateProgress` appends: one per newly watched episode. */
  function NewEpisodeEvents(a: Anime, updates: Updates, source: WatchSource, now: int): seq<WatchEvent> {
    var next := NextProgress(a, updates.progress);
    if next > CurrentProgress(a) then LoggedEvents(a.id, CurrentProgress(a) + 1, next, source, now) else []
  }

  /** `{...a, status, progress}` with a status only when given and a progress only when not undefined. */
  function Edited(a: Anime, updates: Updates): Anime {
    a.(status := updates.status.OrElse(a.status), progress := if updates.progress.Some? then updates.progress else a.progress)
  }

  /** `addToLibrary`: an entry with this id is overwritten in place, otherwise the entry is appended. */
  function Upsert(library: seq<Anime>, entry: Anime): seq<Anime> {
    match IndexOfId(library, entry.id)
    case Some(k) => library[k := entry]
    case None => library + [entry]
  }

  /** `library.filter(a => a.id !== id)`. */
  function RemoveId(library: seq<Anime>, id: string): seq<Anime> {
    if library == [] then []
    else if library[0].id == id then RemoveId(library[1..], id)
    else [library[0]] + RemoveId(library[1..], id)
  }

  /**
   * `{...local, ...cloud}` for an entry built from AniList: every field the
   * cloud object always carries is taken from it; the extras AniList attaches
   * only when present keep the local values otherwise.
   */
  function MergeEntry(local: Anime, cloud: Anime): Anime {
    cloud.(
      averageScore := if cloud.averageScore.Some? then cloud.averageScore else local.averageScore,
      popularity := if cloud.popularity.Some? then cloud.popularity else local.popularity,
      trending := if cloud.trending.Some? then cloud.trending else local.trending,
      tags := if cloud.tags.Some? then cloud.tags else local.tags)
  }

  /** One step of the login merge. */
  function MergeOne(library: seq<Anime>, cloud: Anime): seq<Anime> {
    match IndexOfId(library, cloud.id)
    case Some(k) => library[k := MergeEntry(library[k], cloud)]
    case None => library + [cloud]
  }

  /** The login merge: every cloud entry, in order, merged into the local library. */
  function MergeLibrary(local: seq<Anime>, cloud: seq<Anime>): seq<Anime>
    decreases |cloud|
  {
    if cloud == [] then local
    else MergeOne(MergeLibrary(local, cloud[..|cloud| - 1]), cloud[|cloud| - 1])
  }

  /**
   * The events of one `updateProgress` call: exactly one per episode in
   * (old progress, new progress], in increasing episode and timestamp order;
   * none when progress does not grow or the id is not numeric.
   */
  lemma NewEpisodeEventsExact(a: Anime, updates: Updates, source: WatchSource, now: int)
    ensures var ev := NewEpisodeEvents(a, updates, source, now);
      var cur := CurrentProgress(a);
      var next := NextProgress(a, updates.progress);
      && (next <= cur || NumericId(a.id).None? ==> ev == [])
      && (next > cur && NumericId(a.id).Some? ==>
           |ev| == next - cur
           && forall i :: 0 <= i < |ev| ==>
                ev[i].episode == cur + 1 + i && ev[i].animeId == NumericId(a.id).value && ev[i].source == source)
      && (forall i, j :: 0 <= i < j < |ev| ==> ev[i].episode < ev[j].episode && ev[i].at < ev[j].at)
  {
  }

  /** After a reconciliation the stored progress never exceeds a known total. */
  lemma ReconciledWithinTotal(a: Anime, updates: Updates)
    requires a.episodes.Some?
    ensures Reconciled(a, updates).progress.value <= a.episodes.value
    ensures Reconciled(a, updates).id == a.id
  {
  }

  /** An entry planned to watch becomes watching, never completed, even at its last episode. */
  lemma PlanToWatchBecomesWatching(a: Anime, requestedProgress: int)
    requires a.status == PlanToWatch && a.episodes.Some? && requestedProgress >= a.episodes.value
    ensures Reconciled(a, Updates(None, Some(requestedProgress))).status == Watching
  {
  }

  /** The first index with an id is determined by the entries up to it. */
  lemma IndexOfIdIs(library: seq<Anime>, id: string, i: nat)
    requires i < |library| && library[i].id == id
    requires forall j :: 0 <= j < i ==> library[j].id != id
    ensures IndexOfId(library, id) == Some(i)
  {
    match IndexOfId(library, id)
    case None =>
    case Some(j) =>
      assert library[j].id == id;
  }

  lemma IndexOfIdUnaffected(library: seq<Anime>, r: seq<Anime>, id: string)
    requires |library| <= |r|
    requires forall j :: 0 <= j < |library| ==> (library[j].id == id <==> r[j].id == id)
    requires forall j :: |library| <= j < |r| ==> r[j].id != id
    ensures IndexOfId(r, id) == IndexOfId(library, id)
  {
    var a := IndexOfId(library, id);
    if a.Some? {
      IndexOfIdIs(r, id, a.value);
    }
  }

  lemma IdsAppend(library: seq<Anime>, a: Anime)
    ensures Ids(library + [a]) == Ids(library) + {a.id}
  {
    var r := library + [a];
    forall x | x in Ids(r) ensures x in Ids(library) + {a.id} {
      var b :| b in r && b.id == x;
      var i :| 0 <= i < |r| && r[i] == b;
      if i < |library| { assert library[i] in library; }
    }
    forall x | x in Ids(library) + {a.id} ensures x in Ids(r) {
      if x == a.id {
        assert r[|library|] == a;
      } else {
        var b :| b in library && b.id == x;
        var i :| 0 <= i < |library| && library[i] == b;
        assert r[i] == b;
      }
    }
  }

  /** Overwriting an entry by one with the same id keeps the ids and their uniqueness. */
  lemma ReplaceSameId(library: seq<Anime>, k: nat, a: Anime)
    requires k < |library| && a.id == library[k].id
    ensures Ids(library[k := a]) == Ids(library)
    ensures UniqueIds(library) ==> UniqueIds(library[k := a])
  {
    var r := library[k := a];
    forall x | x in Ids(r) ensures x in Ids(library) {
      var b :| b in r && b.id == x;
      var i :| 0 <= i < |r| && r[i] == b;
      assert library[i] in library && library[i].id == x;
    }
    forall x | x in Ids(library) ensures x in Ids(r) {
      var b :| b in library && b.id == x;
      var i :| 0 <= i < |library| && library[i] == b;
      assert r[i] in r && r[i].id == x;
    }
  }

  lemma AppendNewId(library: seq<Anime>, a: Anime)
    requires !HasId(library, a.id) && UniqueIds(library)
    ensures UniqueIds(library + [a])
  {
  }

  /**
   * `addToLibrary` adds the entry without ever creating a second entry for an
   * id: an existing one is overwritten in place, the others are untouched.
   */
  lemma UpsertProperties(library: seq<Anime>, entry: Anime)
    ensures var r := Upsert(library, entry);
      && entry in r
      && Ids(r) == Ids(library) + {entry.id}
      && (HasId(library, entry.id) ==> |r| == |library|)
      && (!HasId(library, entry.id) ==> r == library + [entry])
      && (forall j :: 0 <= j < |library| && library[j].id != entry.id ==> r[j] == library[j])
      && (UniqueIds(library) ==> UniqueIds(r))
  {
    match IndexOfId(library, entry.id)
    case Some(k) =>
      assert library[k := entry][k] == entry;
      ReplaceSameId(library, k, entry);
      assert entry.id in Ids(library) by { assert library[k] in library; }
    case None =>
      IdsAppend(library, entry);
  }

  /** A merged entry carries the cloud's values, and the extras the cloud has. */
  predicate AgreesWithCloud(a: Anime, cloud: Anime) {
    a == cloud.(averageScore := a.averageScore, popularity := a.popularity, trending := a.trending, tags := a.tags)
    && (cloud.averageScore.Some? ==> a.averageScore == cloud.averageScore)
    && (cloud.popularity.Some? ==> a.popularity == cloud.popularity)
    && (cloud.trending.Some? ==> a.trending == cloud.trending)
    && (cloud.tags.Some? ==> a.tags == cloud.tags)
  }

  /** One merge step adds the cloud id, keeps every other entry in place, and keeps ids distinct. */
  lemma MergeOneFacts(library: seq<Anime>, c: Anime)
    ensures var r := MergeOne(library, c);
      && Ids(r) == Ids(library) + {c.id}
      && |r| >= |library|
      && (forall j :: 0 <= j < |library| && library[j].id != c.id ==> r[j] == library[j])
      && (UniqueIds(library) ==> UniqueIds(r))
  {
    match IndexOfId(library, c.id)
    case Some(k) =>
      ReplaceSameId(library, k, MergeEntry(library[k], c));
      assert c.id in Ids(library) by { assert library[k] in library; }
    case None =>
      IdsAppend(library, c);
  }

  lemma {:induction false} MergeLibraryIds(local: seq<Anime>, cloud: seq<Anime>)
    ensures var r := MergeLibrary(local, cloud);
      && Ids(r) == Ids(local) + Ids(cloud)
      && |r| >= |local|
      && (forall j :: 0 <= j < |local| && local[j].id !in Ids(cloud) ==> r[j] == local[j])
      && (UniqueIds(local) ==> UniqueIds(r))
    decreases |cloud|
  {
    if cloud != [] {
      var n := |cloud|;
      var init := cloud[..n - 1];
      var c := cloud[n - 1];
      assert cloud == init + [c];
      IdsAppend(init, c);
      MergeLibraryIds(local, init);
      MergeOneFacts(MergeLibrary(local, init), c);
    }
  }

  /**
   * The login merge keeps every local-only entry where it was, adds every
   * cloud id, and keeps ids distinct.
   */
  lemma MergeKeepsLocalAndAddsCloud(local: seq<Anime>, cloud: seq<Anime>)
    ensures var r := MergeLibrary(local, cloud);
      && |r| >= |local|
      && (forall j :: 0 <= j < |local| && local[j].id !in Ids(cloud) ==> r[j] == local[j])
      && (forall c :: c in cloud ==> HasId(r, c.id))
      && (forall x :: x in Ids(r) ==> x in Ids(local) || x in Ids(cloud))
      && (UniqueIds(local) ==> UniqueIds(r))
  {
    var r := MergeLibrary(local, cloud);
    MergeLibraryIds(local, cloud);
    forall c | c in cloud ensures HasId(r, c.id) {
      assert c.id in Ids(cloud);
      assert c.id in Ids(r);
      var a :| a in r && a.id == c.id;
      var i :| 0 <= i < |r| && r[i] == a;
    }
  }

  /**
   * For an entry the cloud shares, the first library entry with that id ends
   * up with the values of the last cloud entry with that id.
   */
  lemma {:induction false} MergeTakesCloudValues(local: seq<Anime>, cloud: seq<Anime>, k: nat)
    requires k < |cloud|
    requires forall j :: k < j < |cloud| ==> cloud[j].id != cloud[k].id
    ensures var r := MergeLibrary(local, cloud);
      IndexOfId(r, cloud[k].id).Some? && AgreesWithCloud(r[IndexOfId(r, cloud[k].id).value], cloud[k])
    decreases |cloud|
  {
    var n := |cloud|;
    var init := cloud[..n - 1];
    var c := cloud[n - 1];
    var prev := MergeLibrary(local, init);
    var r := MergeLibrary(local, cloud);
    var x := cloud[k].id;
    if k == n - 1 {
      match IndexOfId(prev, c.id)
      case Some(i) =>
        IndexOfIdIs(r, x, i);
      case None =>
        IndexOfIdIs(r, x, |prev|);
    } else {
      MergeTakesCloudValues(local, init, k);
      assert c.id != x;
      match IndexOfId(prev, c.id)
      case Some(i) =>
        IndexOfIdUnaffected(prev, r, x);
      case None =>
        IndexOfIdUnaffected(prev, r, x);
    }
  }

  lemma TailUnique(library: seq<Anime>)
    requires |library| > 0 && UniqueIds(library)
    ensures UniqueIds(library[1..])
  {
    forall p, q | 0 <= p < q < |library[1..]| ensures library[1..][p].id != library[1..][q].id {
      assert library[1..][p] == library[p + 1] && library[1..][q] == library[q + 1];
    }
  }

  /** `filter` keeps exactly the entries with another id. */
  lemma {:induction false} RemoveIdMembers(library: seq<Anime>, id: string)
    ensures forall a :: a in RemoveId(library, id) <==> a in library && a.id != id
  {
    if library != [] {
      RemoveIdMembers(library[1..], id);
      assert forall a :: a in library <==> a == library[0] || a in library[1..];
    }
  }

  /** Without an entry for the id, `filter` changes nothing. */
  lemma {:induction false} RemoveIdAbsent(library: seq<Anime>, id: string)
    requires !HasId(library, id)
    ensures RemoveId(library, id) == library
  {
    if library != [] {
      assert library[0].id != id;
      assert !HasId(library[1..], id) by {
        forall j | 0 <= j < |library[1..]| ensures library[1..][j].id != id {
          assert library[1..][j] == library[j + 1];
        }
      }
      RemoveIdAbsent(library[1..], id);
      assert library == [library[0]] + library[1..];
    }
  }

  /** `filter` keeps the surviving entries in their order, so ids stay distinct. */
  lemma {:induction false} RemoveIdKeepsUnique(library: seq<Anime>, id: string)
    requires UniqueIds(library)
    ensures UniqueIds(RemoveId(library, id))
  {
    if library != [] {
      TailUnique(library);
      RemoveIdKeepsUnique(library[1..], id);
      RemoveIdMembers(library[1..], id);
      if library[0].id != id {
        var rest := RemoveId(library[1..], id);
        var r := [library[0]] + rest;
        forall i, j | 0 <= i < j < |r| ensures r[i].id != r[j].id {
          if i == 0 {
            assert r[j] == rest[j - 1];
            assert r[j] in library[1..];
            var m :| 0 <= m < |library[1..]| && library[1..][m] == r[j];
            assert library[m + 1] == r[j];
          } else {
            assert r[i] == rest[i - 1] && r[j] == rest[j - 1];
          }
        }
      }
    }
  }

  /**
   * `removeFromLibrary` drops every entry with the id and keeps all the others,
   * in order; removing twice is removing once.
   */
  lemma RemoveIdProperties(library: seq<Anime>, id: string)
    ensures var r := RemoveId(library, id);
      && (forall a :: a in r <==> a in library && a.id != id)
      && !HasId(r, id)
      && Ids(r) == Ids(library) - {id}
      && (!HasId(library, id) ==> r == library)
      && RemoveId(r, id) == r
      && (UniqueIds(library) ==> UniqueIds(r))
  {
    var r := RemoveId(library, id);
    RemoveIdMembers(library, id);
    RemoveIdAbsent(r, id);
    if !HasId(library, id) {
      RemoveIdAbsent(library, id);
    }
    if UniqueIds(library) {
      RemoveIdKeepsUnique(library, id);
    }
  }

  class Store {
    var library: seq<Anime>
    var watchEvents: seq<WatchEvent>
    var titleMappings: map<string, string>

    constructor ()
      ensures library == [] && watchEvents == [] && titleMappings == map[]
    {
      library := [];
      watchEvents := [];
      titleMappings := map[];
    }

    /** `addToLibrary(anime, status)`, without the AniList sync. */
    method AddToLibrary(anime: Anime, status: Status)
      modifies this`library
      ensures library == Upsert(old(library), anime.(status := status))
    {
      var entry := anime.(status := status);
      var existingIndex := IndexOfId(library, anime.id);
      if existingIndex.Some? {
        library := library[existingIndex.value := entry];
      } else {
        library := library + [entry];
      }
    }

    /** `removeFromLibrary(animeId)`. */
    method RemoveFromLibrary(animeId: string)
      modifies this`library
      ensures library == RemoveId(old(library), animeId)
    {
      library := RemoveId(library, animeId);
    }

    /** `updateStatus(animeId, status)`: an unknown id changes nothing. */
    method UpdateStatus(animeId: string, status: Status)
      modifies this`library
      ensures match IndexOfId(old(library), animeId)
        case None => library == old(library)
        case Some(k) => library == old(library)[k := old(library)[k].(status := status)]
    {
      var existingIndex := IndexOfId(library, animeId);
      if existingIndex.None? {
        return;
      }
      var k := existingIndex.value;
      library := library[k := library[k].(status := status)];
    }

    /** `updateEntry(animeId, updates)`: an unknown id changes nothing. */
    method UpdateEntry(animeId: string, updates: Updates)
      modifies this`library
      ensures match IndexOfId(old(library), animeId)
        case None => library == old(library)
        case Some(k) => library == old(library)[k := Edited(old(library)[k], updates)]
    {
      var existingIndex := IndexOfId(library, animeId);
      if existingIndex.None? {
        return;
      }
      var k := existingIndex.value;
      library := library[k := Edited(library[k], updates)];
    }

    /** `logWatchEvents`: one event per episode of the range, a second apart. */
    method LogWatchEvents(animeId: string, fromEpisode: int, toEpisode: int, source: WatchSource, now: int)
      modifies this`watchEvents
      ensures watchEvents == old(watchEvents) + LoggedEvents(animeId, fromEpisode, toEpisode, source, now)
    {
      var animeIdNum := NumericId(animeId);
      if animeIdNum.None? {
        return;
      }
      var start := if fromEpisode <= toEpisode then fromEpisode else toEpisode;
      var end := if fromEpisode <= toEpisode then toEpisode else fromEpisode;
      ghost var all := RangeEvents(animeIdNum.value, fromEpisode, toEpisode, source, now);
      var events: seq<WatchEvent> := [];
      var ep := start;
      while ep <= end
        invariant start <= ep <= end + 1
        invariant events == all[..ep - start]
      {
        events := events + [WatchEvent(animeIdNum.value, ep, now + (ep - start) * 1000, source)];
        ep := ep + 1;
      }
      assert events == all;
      watchEvents := watchEvents + events;
    }

    /**
     * `updateProgress(animeId, updates, source)`: progress never goes back and
     * never passes a known total; the status moves on; the newly watched
     * episodes are logged. An unknown id changes nothing.
     */
    method UpdateProgress(animeId: string, updates: Updates, source: WatchSource, now: int)
      modifies this`library, this`watchEvents
      ensures match IndexOfId(old(library), animeId)
        case None => library == old(library) && watchEvents == old(watchEvents)
        case Some(k) =>
          library == old(library)[k := Reconciled(old(library)[k], updates)]
          && watchEvents == old(watchEvents) + NewEpisodeEvents(old(library)[k], updates, source, now)
    {
      var existingIndex := IndexOfId(library, animeId);
      if existingIndex.None? {
        return;
      }
      var k := existingIndex.value;
      var anime := library[k];
      var currentProgress := if anime.progress.Some? then anime.progress.value else 0;
      var nextProgress, nextStatus := ReconcileEntry(anime, updates);
      library := library[k := anime.(status := nextStatus, progress := Some(nextProgress))];
      if nextProgress > currentProgress {
        assert anime.id == animeId;
        LogWatchEvents(animeId, currentProgress + 1, nextProgress, source, now);
      } else {
        assert NewEpisodeEvents(anime, updates, source, now) == [];
      }
    }

    /** `addMapping(filenameTitle, anilistId)`: the lower-cased title now maps to the id. */
    method AddMapping(filenameTitle: string, anilistId: string)
      modifies this`titleMappings
      ensures titleMappings == old(titleMappings)[Lower(filenameTitle) := anilistId]
    {
      titleMappings := titleMappings[Lower(filenameTitle) := anilistId];
    }

    /** The merge step of `login`: each cloud entry merged into the local library in turn. */
    method MergeCloudLibrary(cloudLibrary: seq<Anime>)
      modifies this`library
      ensures library == MergeLibrary(old(library), cloudLibrary)
    {
      var mergedLibrary := library;
      for i := 0 to |cloudLibrary|
        invariant mergedLibrary == MergeLibrary(old(library), cloudLibrary[..i])
      {
        assert cloudLibrary[..i + 1][..i] == cloudLibrary[..i];
        var cloudAnime := cloudLibrary[i];
        var localIndex := IndexOfId(mergedLibrary, cloudAnime.id);
        if localIndex.Some? {
          mergedLibrary := mergedLibrary[localIndex.value := MergeEntry(mergedLibrary[localIndex.value], cloudAnime)];
        } else {
          mergedLibrary := mergedLibrary + [cloudAnime];
        }
      }
      assert cloudLibrary[..|cloudLibrary|] == cloudLibrary;
      library := mergedLibrary;
    }
  }
}
