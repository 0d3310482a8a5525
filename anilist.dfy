// The AniList client (apps/desktop/src/renderer/services/anilist.service.ts):
// the franchise timeline walk over prequel and sequel relations, the mapping
// of AniList media and statuses into library entries, the de-duplicated
// recommendation pool and the five-minute response cache. The GraphQL
// requests themselves are left out: a request for a media id is a lookup in a
// map, and a missing key is a failed request.
module AniListService {
  import opened Wrappers
  import opened Text
  import opened AnimeModel
  import opened LibraryStore
  import opened Sequences

  // ----- statuses -----

  /** `statusMap[entry.status] || 'plan-to-watch'` in `getUserLibrary`. */
  function FromAniListStatus(remote: string): (s: Status)
    ensures s != OnHold
    ensures s == Watching <==> remote == "CURRENT" || remote == "REPEATING"
    ensures s == Completed <==> remote == "COMPLETED"
    ensures s == Dropped <==> remote == "DROPPED"
  {
    if remote == "CURRENT" || remote == "REPEATING" then Watching
    else if remote == "COMPLETED" then Completed
    else if remote == "DROPPED" then Dropped
    else PlanToWatch
  }

  /** Sending a status to AniList and reading it back keeps it, except that on-hold comes back as plan-to-watch. */
  lemma StatusRoundTrip(s: Status)
    ensures FromAniListStatus(ToAniListStatus(s)) == if s == OnHold then PlanToWatch else s
  {
  }

  // ----- media -----

  /** One relation edge; `node` is the related media's id, or null. */
  datatype Edge = Edge(relationType: string, node: Option<nat>)

  /** The fields of an AniList media object that the modelled code reads. Tag objects are given by their names. */
  datatype Media = Media(
    id: nat,
    romaji: string,
    english: Option<string>,
    native: Option<string>,
    episodes: Option<nat>,
    genres: Option<seq<string>>,
    averageScore: Option<int>,
    popularity: Option<int>,
    trending: Option<int>,
    tags: Option<seq<string>>,
    edges: seq<Edge>
  )

  /** `x || undefined` for a string: null and the empty string become absent. */
  function TruthyString(s: Option<string>): (r: Option<string>)
    ensures r.Some? <==> s.Some? && s.value != ""
    ensures r.Some? ==> r == s
  {
    if s.Some? && s.value != "" then s else None
  }

  /** `x || undefined` for a number: null and 0 become absent. */
  function TruthyInt(n: Option<int>): (r: Option<int>)
    ensures r.Some? <==> n.Some? && n.value != 0
    ensures r.Some? ==> r == n
  {
    if n.Some? && n.value != 0 then n else None
  }

  function TruthyNat(n: Option<nat>): (r: Option<nat>)
    ensures r.Some? <==> n.Some? && n.value != 0
    ensures r.Some? ==> r == n
  {
    if n.Some? && n.value != 0 then n else None
  }

  /** The decimal digits of a number need no trimming. */
  lemma NatToStringTrimmed(n: nat)
    ensures Trim(NatToString(n)) == NatToString(n)
  {
    var s := NatToString(n);
    assert !IsSpace(s[0]) && !IsSpace(s[|s| - 1]);
    assert LeadingSpace(s) == 0;
    assert TrailingSpace(s) == 0;
  }

  /**
   * `mapAniListMediaToAnime`: a fresh plan-to-watch entry at progress 0 whose
   * id is the media id in decimal; zero episode counts and scores are dropped.
   */
  function MapMedia(m: Media): (a: Anime)
    ensures NumericId(a.id) == Some(m.id)
    ensures a.status == PlanToWatch && a.progress == Some(0)
    ensures a.episodes.Some? ==> a.episodes.value > 0 && a.episodes == m.episodes
    ensures m.episodes.Some? && m.episodes.value > 0 ==> a.episodes == m.episodes
  {
    NatToStringTrimmed(m.id);
    DigitsValueOfNatToString(m.id);
    Anime(
      NatToString(m.id), m.romaji, TruthyString(m.english), TruthyString(m.native),
      TruthyNat(m.episodes), PlanToWatch, Some(0), TruthyInt(m.averageScore),
      if m.genres.Some? then m.genres.value else [],
      TruthyInt(m.averageScore), TruthyInt(m.popularity), TruthyInt(m.trending), m.tags)
  }

  /** `ms.map(mapAniListMediaToAnime)`. */
  function MapAll(ms: seq<Media>): (r: seq<Anime>)
    ensures |r| == |ms|
    ensures forall i :: 0 <= i < |ms| ==> r[i] == MapMedia(ms[i])
  {
    seq(|ms|, i requires 0 <= i < |ms| => MapMedia(ms[i]))
  }

  /** Different media ids give different entry ids. */
  lemma MapMediaInjective(a: Media, b: Media)
    requires MapMedia(a).id == MapMedia(b).id
    ensures a.id == b.id
  {
    NatToStringInjective(a.id, b.id);
  }

  // ----- relations -----

  /** `edges.find(e => e.relationType === kind)`. */
  function FirstEdge(edges: seq<Edge>, kind: string): (r: Option<nat>)
    ensures r.Some? ==> r.value < |edges| && edges[r.value].relationType == kind
    ensures r.Some? ==> forall j :: 0 <= j < r.value ==> edges[j].relationType != kind
    ensures r.None? ==> forall j :: 0 <= j < |edges| ==> edges[j].relationType != kind
  {
    if |edges| == 0 then None
    else if edges[0].relationType == kind then Some(0)
    else
      match FirstEdge(edges[1..], kind)
      case None => None
      case Some(k) => Some(k + 1)
  }

  /** The related id the walk follows: the node of the first edge of that kind, when it has one. */
  function Related(m: Media, kind: string): (r: Option<nat>)
    ensures r.Some? ==> exists j :: 0 <= j < |m.edges| && m.edges[j] == Edge(kind, r)
    ensures (forall j :: 0 <= j < |m.edges| ==> m.edges[j].relationType != kind) ==> r.None?
  {
    match FirstEdge(m.edges, kind)
    case None => None
    case Some(j) => m.edges[j].node
  }

  // ----- the timeline walk -----

  /** The ids of every media object the requests can return. */
  function MediaIds(lookup: map<nat, Media>): set<nat> {
    set k | k in lookup :: lookup[k].id
  }

  /** How the walk back through the prequels ends. */
  datatype RootWalk = Root(media: Media) | PrequelCycle | RootFailed

  /**
   * Step A from the id `current`, with the ids already requested in `visited`:
   * a repeated id is a cycle, a failed request ends the walk, and a media
   * without a prequel is the root.
   */
  function RootFrom(lookup: map<nat, Media>, current: nat, visited: set<nat>): (r: RootWalk)
    ensures r.Root? ==> r.media in lookup.Values && Related(r.media, "PREQUEL").None?
    decreases lookup.Keys - visited
  {
    if current in visited then PrequelCycle
    else if current !in lookup then RootFailed
    else
      match Related(lookup[current], "PREQUEL")
      case Some(p) => RootFrom(lookup, p, visited + {current})
      case None => Root(lookup[current])
  }

  /** How the walk forward through the sequels ends. */
  datatype Walk = Walked(media: seq<Media>) | WalkFailed

  /**
   * Steps B and C from the media `current`, with the ids already on the
   * timeline in `visited`: a repeated id or a media without a sequel ends the
   * walk, a failed sequel request fails it.
   */
  function SequelsFrom(lookup: map<nat, Media>, current: Media, visited: set<nat>): (r: Walk)
    requires current in lookup.Values
    ensures r.Walked? ==> forall k :: 0 <= k < |r.media| ==> r.media[k] in lookup.Values
    ensures r.Walked? && current.id !in visited ==> r.media != [] && r.media[0] == current
    decreases MediaIds(lookup) - visited
  {
    if current.id in visited then Walked([])
    else
      match Related(current, "SEQUEL")
      case None => Walked([current])
      case Some(s) =>
        if s !in lookup then WalkFailed
        else
          assert current.id in MediaIds(lookup);
          Cons(current, SequelsFrom(lookup, lookup[s], visited + {current.id}))
  }

  /** A walk with m in front; a failed walk stays failed. */
  function Cons(m: Media, w: Walk): (r: Walk)
    ensures r.Walked? <==> w.Walked?
    ensures r.Walked? ==> r.media == [m] + w.media
  {
    match w
    case WalkFailed => WalkFailed
    case Walked(rest) => Walked([m] + rest)
  }

  /** A walk with the media `prefix` in front. */
  function Prefixed(prefix: seq<Media>, w: Walk): (r: Walk)
    ensures r.Walked? <==> w.Walked?
    ensures r.Walked? ==> r.media == prefix + w.media
  {
    match w
    case WalkFailed => WalkFailed
    case Walked(rest) => Walked(prefix + rest)
  }

  lemma PrefixedCons(prefix: seq<Media>, m: Media, w: Walk)
    ensures Prefixed(prefix, Cons(m, w)) == Prefixed(prefix + [m], w)
  {
    if w.Walked? {
      assert prefix + ([m] + w.media) == (prefix + [m]) + w.media;
    }
  }

  /** The whole walk: the root (the seed itself after a prequel cycle), then its sequels. */
  function TimelineWalk(lookup: map<nat, Media>, seed: nat): (r: Walk)
    ensures RootFrom(lookup, seed, {}).RootFailed? ==> r.WalkFailed?
    ensures r.Walked? ==> r.media != [] && forall k :: 0 <= k < |r.media| ==> r.media[k] in lookup.Values
    ensures r.Walked? && RootFrom(lookup, seed, {}).Root? ==> r.media[0] == RootFrom(lookup, seed, {}).media
    ensures r.Walked? && RootFrom(lookup, seed, {}).PrequelCycle? ==> seed in lookup && r.media[0] == lookup[seed]
  {
    match RootFrom(lookup, seed, {})
    case RootFailed => WalkFailed
    case PrequelCycle => if seed in lookup then SequelsFrom(lookup, lookup[seed], {}) else WalkFailed
    case Root(m) => SequelsFrom(lookup, m, {})
  }

  /** `getFranchiseTimeline`: the walk, or after any failed request the seed alone (nothing when that fails too). */
  function FranchiseTimelineOf(lookup: map<nat, Media>, seed: nat): (r: seq<Anime>)
    ensures r != [] <==> seed in lookup
    ensures forall k :: 0 <= k < |r| ==> exists m :: m in lookup.Values && r[k] == MapMedia(m)
  {
    match TimelineWalk(lookup, seed)
    case Walked(ms) => MapAll(ms)
    case WalkFailed => if seed in lookup then [MapMedia(lookup[seed])] else []
  }

  /** Step A as the source runs it: a loop over a visited set, then the re-request after a cycle. */
  method FindRoot(lookup: map<nat, Media>, seed: nat) returns (root: Option<Media>)
    ensures root.Some? <==> !RootFrom(lookup, seed, {}).RootFailed? && seed in lookup
    ensures RootFrom(lookup, seed, {}).Root? ==> root == Some(RootFrom(lookup, seed, {}).media)
    ensures RootFrom(lookup, seed, {}).PrequelCycle? && seed in lookup ==> root == Some(lookup[seed])
  {
    var currentId := seed;
    var visited: set<nat> := {};
    while true
      invariant RootFrom(lookup, currentId, visited) == RootFrom(lookup, seed, {})
      invariant visited == {} ==> currentId == seed
      invariant visited == {} || seed in lookup
      decreases lookup.Keys - visited
    {
      if currentId in visited {
        break;
      }
      visited := visited + {currentId};
      if currentId !in lookup {
        return None;
      }
      var media := lookup[currentId];
      var prequel := Related(media, "PREQUEL");
      if prequel.Some? {
        currentId := prequel.value;
      } else {
        return Some(media);
      }
    }
    if seed !in lookup {
      return None;
    }
    return Some(lookup[seed]);
  }

  /** `getFranchiseTimeline` as the source runs it: the two walks, and the fallback on a failed request. */
  method FranchiseTimeline(lookup: map<nat, Media>, seed: nat) returns (timeline: seq<Anime>)
    ensures timeline == FranchiseTimelineOf(lookup, seed)
  {
    var root := FindRoot(lookup, seed);
    if root.None? {
      timeline := Fallback(lookup, seed);
      return;
    }
    var walked := WalkSequels(lookup, root.value);
    if walked.None? {
      timeline := Fallback(lookup, seed);
      return;
    }
    timeline := walked.value;
  }

  /** Steps B and C as the source runs them: a loop over a visited set, pushing each media onto the timeline. */
  method WalkSequels(lookup: map<nat, Media>, root: Media) returns (timeline: Option<seq<Anime>>)
    requires root in lookup.Values
    ensures timeline == match SequelsFrom(lookup, root, {})
      case WalkFailed => None
      case Walked(ms) => Some(MapAll(ms))
  {
    ghost var walked: seq<Media> := [];
    var current := root;
    var timelineVisited: set<nat> := {};
    var entries: seq<Anime> := [];
    assert Prefixed([], SequelsFrom(lookup, root, {})) == SequelsFrom(lookup, root, {});
    while true
      invariant current in lookup.Values
      invariant entries == MapAll(walked)
      invariant SequelsFrom(lookup, root, {}) == Prefixed(walked, SequelsFrom(lookup, current, timelineVisited))
      decreases MediaIds(lookup) - timelineVisited
    {
      if current.id in timelineVisited {
        assert walked + [] == walked;
        break;
      }
      assert current.id in MediaIds(lookup);
      var sequel := Related(current, "SEQUEL");
      if sequel.None? {
        assert SequelsFrom(lookup, current, timelineVisited) == Walked([current]);
        assert MapAll(walked + [current]) == entries + [MapMedia(current)];
        return Some(entries + [MapMedia(current)]);
      }
      if sequel.value !in lookup {
        return None;
      }
      var next := lookup[sequel.value];
      PrefixedCons(walked, current, SequelsFrom(lookup, next, timelineVisited + {current.id}));
      assert SequelsFrom(lookup, current, timelineVisited) == Prefixed([current], SequelsFrom(lookup, next, timelineVisited + {current.id}));
      assert MapAll(walked + [current]) == entries + [MapMedia(current)];
      timelineVisited := timelineVisited + {current.id};
      entries := entries + [MapMedia(current)];
      walked := walked + [current];
      current := next;
    }
    return Some(entries);
  }

  /** The catch branch: request the seed again; an error there too gives nothing. */
  method Fallback(lookup: map<nat, Media>, seed: nat) returns (timeline: seq<Anime>)
    ensures timeline == if seed in lookup then [MapMedia(lookup[seed])] else []
  {
    if seed !in lookup {
      return [];
    }
    return [MapMedia(lookup[seed])];
  }

  // ----- properties of the walk -----

  /** No id appears twice in the walk, nor any id already visited. */
  lemma {:induction false} SequelsDistinct(lookup: map<nat, Media>, current: Media, visited: set<nat>)
    requires current in lookup.Values
    requires SequelsFrom(lookup, current, visited).Walked?
    ensures forall i :: 0 <= i < |SequelsFrom(lookup, current, visited).media| ==>
      SequelsFrom(lookup, current, visited).media[i].id !in visited
    ensures forall i, j :: 0 <= i < j < |SequelsFrom(lookup, current, visited).media| ==>
      SequelsFrom(lookup, current, visited).media[i].id != SequelsFrom(lookup, current, visited).media[j].id
    decreases MediaIds(lookup) - visited
  {
    if current.id !in visited {
      match Related(current, "SEQUEL")
      case None =>
      case Some(s) =>
        assert current.id in MediaIds(lookup);
        if s in lookup {
          SequelsDistinct(lookup, lookup[s], visited + {current.id});
        }
    }
  }

  /** The walk starts at its first media and each later media is the sequel of the one before. */
  lemma {:induction false} SequelsChain(lookup: map<nat, Media>, current: Media, visited: set<nat>)
    requires current in lookup.Values
    requires SequelsFrom(lookup, current, visited).Walked?
    ensures SequelsFrom(lookup, current, visited).media != [] <==> current.id !in visited
    ensures SequelsFrom(lookup, current, visited).media != [] ==> SequelsFrom(lookup, current, visited).media[0] == current
    ensures forall i :: 0 <= i < |SequelsFrom(lookup, current, visited).media| - 1 ==>
      Related(SequelsFrom(lookup, current, visited).media[i], "SEQUEL").Some? &&
      Related(SequelsFrom(lookup, current, visited).media[i], "SEQUEL").value in lookup &&
      lookup[Related(SequelsFrom(lookup, current, visited).media[i], "SEQUEL").value] == SequelsFrom(lookup, current, visited).media[i + 1]
    decreases MediaIds(lookup) - visited
  {
    if current.id !in visited {
      match Related(current, "SEQUEL")
      case None =>
      case Some(s) =>
        assert current.id in MediaIds(lookup);
        if s in lookup {
          SequelsChain(lookup, lookup[s], visited + {current.id});
        }
    }
  }

  /** The walk requests no more media than there are distinct ids to return. */
  lemma {:induction false} SequelsBounded(lookup: map<nat, Media>, current: Media, visited: set<nat>)
    requires current in lookup.Values
    requires SequelsFrom(lookup, current, visited).Walked?
    ensures |SequelsFrom(lookup, current, visited).media| <= |MediaIds(lookup) - visited|
    decreases MediaIds(lookup) - visited
  {
    if current.id !in visited {
      assert current.id in MediaIds(lookup);
      assert MediaIds(lookup) - (visited + {current.id}) == (MediaIds(lookup) - visited) - {current.id};
      match Related(current, "SEQUEL")
      case None =>
      case Some(s) =>
        if s in lookup {
          SequelsBounded(lookup, lookup[s], visited + {current.id});
        }
    }
  }

  /** The timeline never holds two entries with the same id, and is no longer than the number of media ids. */
  lemma TimelineDistinct(lookup: map<nat, Media>, seed: nat)
    ensures forall i, j :: 0 <= i < j < |FranchiseTimelineOf(lookup, seed)| ==>
      FranchiseTimelineOf(lookup, seed)[i].id != FranchiseTimelineOf(lookup, seed)[j].id
    ensures TimelineWalk(lookup, seed).Walked? ==> |FranchiseTimelineOf(lookup, seed)| <= |MediaIds(lookup)|
  {
    var walk := TimelineWalk(lookup, seed);
    if walk.Walked? {
      var start := if RootFrom(lookup, seed, {}).Root? then RootFrom(lookup, seed, {}).media else lookup[seed];
      assert walk == SequelsFrom(lookup, start, {});
      SequelsDistinct(lookup, start, {});
      SequelsBounded(lookup, start, {});
      var t := FranchiseTimelineOf(lookup, seed);
      forall i, j | 0 <= i < j < |t|
        ensures t[i].id != t[j].id
      {
        if t[i].id == t[j].id {
          MapMediaInjective(walk.media[i], walk.media[j]);
        }
      }
    }
  }

  /** The timeline starts at a media without a prequel, or at the seed after a prequel cycle. */
  lemma TimelineStartsAtRoot(lookup: map<nat, Media>, seed: nat)
    requires TimelineWalk(lookup, seed).Walked?
    ensures |FranchiseTimelineOf(lookup, seed)| >= 1
    ensures RootFrom(lookup, seed, {}).Root? ==>
      FranchiseTimelineOf(lookup, seed)[0] == MapMedia(RootFrom(lookup, seed, {}).media) &&
      Related(RootFrom(lookup, seed, {}).media, "PREQUEL").None?
    ensures RootFrom(lookup, seed, {}).PrequelCycle? ==> FranchiseTimelineOf(lookup, seed)[0] == MapMedia(lookup[seed])
  {
    var start := if RootFrom(lookup, seed, {}).Root? then RootFrom(lookup, seed, {}).media else lookup[seed];
    SequelsChain(lookup, start, {});
  }

  /** After any failed request the result is the seed alone, or nothing when the seed cannot be fetched. */
  lemma FailedWalkGivesSeed(lookup: map<nat, Media>, seed: nat)
    requires TimelineWalk(lookup, seed).WalkFailed?
    ensures seed in lookup ==> FranchiseTimelineOf(lookup, seed) == [MapMedia(lookup[seed])]
    ensures seed !in lookup ==> FranchiseTimelineOf(lookup, seed) == []
  {
  }

  /** A seed whose prequel is itself is its own root. */
  lemma SelfPrequelIsRoot(lookup: map<nat, Media>, seed: nat)
    requires seed in lookup && Related(lookup[seed], "PREQUEL") == Some(seed)
    ensures RootFrom(lookup, seed, {}).PrequelCycle?
  {
    assert RootFrom(lookup, seed, {}) == RootFrom(lookup, seed, {seed});
  }

  // ----- the recommendation pool -----

  /** How one of the three pool requests ended. */
  datatype PoolFetch = Fetched(media: seq<Media>) | RateLimited | FetchFailed | OtherError

  /** A rate-limit or network failure gives an empty list; another error rejects the whole pool. */
  function PoolPart(f: PoolFetch): (r: Option<seq<Media>>)
    ensures r.None? <==> f.OtherError?
    ensures f.Fetched? ==> r == Some(f.media)
    ensures f.RateLimited? || f.FetchFailed? ==> r == Some([])
  {
    match f
    case Fetched(ms) => Some(ms)
    case RateLimited => Some([])
    case FetchFailed => Some([])
    case OtherError => None
  }

  /** `merged.filter(...)` with the `seen` set: the first media of each id, in order. */
  function DedupById(ms: seq<Media>, seen: set<nat>): (r: seq<Media>)
    ensures forall i :: 0 <= i < |r| ==> r[i] in ms && r[i].id !in seen
    ensures |r| <= |ms|
  {
    if ms == [] then []
    else if ms[0].id in seen then DedupById(ms[1..], seen)
    else [ms[0]] + DedupById(ms[1..], seen + {ms[0].id})
  }

  /** `getRecommendationPool`: trending, popular and top-scored media merged, de-duplicated by id and mapped; None when it rejects. */
  function RecommendationPool(trending: PoolFetch, popular: PoolFetch, scored: PoolFetch): (r: Option<seq<Anime>>)
    ensures r.None? <==> trending.OtherError? || popular.OtherError? || scored.OtherError?
  {
    if PoolPart(trending).None? || PoolPart(popular).None? || PoolPart(scored).None? then None
    else Some(MapAll(DedupById(PoolPart(trending).value + PoolPart(popular).value + PoolPart(scored).value, {})))
  }

  /** The pool keeps no id twice, keeps the original order, and keeps the first media of every id. */
  lemma {:induction false} DedupProperties(ms: seq<Media>, seen: set<nat>)
    ensures forall i, j :: 0 <= i < j < |DedupById(ms, seen)| ==> DedupById(ms, seen)[i].id != DedupById(ms, seen)[j].id
    ensures IsSubsequence(DedupById(ms, seen), ms)
    ensures forall j :: 0 <= j < |ms| && ms[j].id !in seen && (forall k :: 0 <= k < j ==> ms[k].id != ms[j].id) ==>
      ms[j] in DedupById(ms, seen)
    decreases |ms|
  {
    if ms != [] {
      var rest := DedupById(ms[1..], if ms[0].id in seen then seen else seen + {ms[0].id});
      DedupProperties(ms[1..], if ms[0].id in seen then seen else seen + {ms[0].id});
      assert rest == DedupById(ms[1..], if ms[0].id in seen then seen else seen + {ms[0].id});
      forall j | 1 <= j < |ms| && ms[j].id !in seen && (forall k :: 0 <= k < j ==> ms[k].id != ms[j].id)
        ensures ms[j] in DedupById(ms, seen)
      {
        assert ms[0].id != ms[j].id;
        assert ms[1..][j - 1] == ms[j];
        assert forall k :: 0 <= k < j - 1 ==> ms[1..][k].id != ms[1..][j - 1].id by {
          forall k | 0 <= k < j - 1 ensures ms[1..][k].id != ms[1..][j - 1].id {
            assert ms[1..][k] == ms[k + 1];
          }
        }
      }
      if ms[0].id !in seen {
        var r := DedupById(ms, seen);
        assert r == [ms[0]] + rest;
        assert r[1..] == rest;
      }
    }
  }

  /** The three request results in the order the source merges them: trending, popular, top-scored. */
  function PoolMerged(trending: PoolFetch, popular: PoolFetch, scored: PoolFetch): (r: seq<Media>)
    requires !trending.OtherError? && !popular.OtherError? && !scored.OtherError?
    ensures |r| == |PoolPart(trending).value| + |PoolPart(popular).value| + |PoolPart(scored).value|
  {
    PoolPart(trending).value + PoolPart(popular).value + PoolPart(scored).value
  }

  /** Mapped entries of media with distinct ids have distinct ids. */
  lemma MapAllKeepsDistinct(kept: seq<Media>)
    requires forall i, j :: 0 <= i < j < |kept| ==> kept[i].id != kept[j].id
    ensures forall i, j :: 0 <= i < j < |MapAll(kept)| ==> MapAll(kept)[i].id != MapAll(kept)[j].id
  {
    var pool := MapAll(kept);
    forall i, j | 0 <= i < j < |pool| ensures pool[i].id != pool[j].id {
      if pool[i].id == pool[j].id {
        MapMediaInjective(kept[i], kept[j]);
      }
    }
  }

  /** The de-duplicated, mapped list: distinct entry ids, in order, every first media of an id kept. */
  lemma DedupMappedFacts(merged: seq<Media>)
    ensures var pool := MapAll(DedupById(merged, {}));
      && (forall i, j :: 0 <= i < j < |pool| ==> pool[i].id != pool[j].id)
      && IsSubsequence(DedupById(merged, {}), merged)
      && (forall j :: 0 <= j < |merged| && (forall k :: 0 <= k < j ==> merged[k].id != merged[j].id) ==>
            MapMedia(merged[j]) in pool)
  {
    var kept := DedupById(merged, {});
    DedupProperties(merged, {});
    MapAllKeepsDistinct(kept);
    var pool := MapAll(kept);
    forall j | 0 <= j < |merged| && (forall k :: 0 <= k < j ==> merged[k].id != merged[j].id)
      ensures MapMedia(merged[j]) in pool
    {
      assert merged[j] in kept;
      var i :| 0 <= i < |kept| && kept[i] == merged[j];
      assert pool[i] == MapMedia(merged[j]);
    }
  }

  /**
   * The whole pool: it rejects exactly when one request fails with another
   * error; otherwise it keeps, in trending, popular, top-scored order, the
   * first media of every id, mapped, with no entry id twice.
   */
  lemma RecommendationPoolProperties(trending: PoolFetch, popular: PoolFetch, scored: PoolFetch)
    ensures RecommendationPool(trending, popular, scored).None? <==>
      trending.OtherError? || popular.OtherError? || scored.OtherError?
    ensures RecommendationPool(trending, popular, scored).Some? ==>
      var merged := PoolMerged(trending, popular, scored);
      var pool := RecommendationPool(trending, popular, scored).value;
      && (forall i, j :: 0 <= i < j < |pool| ==> pool[i].id != pool[j].id)
      && (exists kept :: IsSubsequence(kept, merged) && pool == MapAll(kept))
      && (forall j :: 0 <= j < |merged| && (forall k :: 0 <= k < j ==> merged[k].id != merged[j].id) ==>
            MapMedia(merged[j]) in pool)
  {
    if RecommendationPool(trending, popular, scored).Some? {
      var merged := PoolMerged(trending, popular, scored);
      DedupMappedFacts(merged);
      var kept := DedupById(merged, {});
      assert RecommendationPool(trending, popular, scored).value == MapAll(kept);
    }
  }

  // ----- the response cache -----

  /** `CACHE_TTL`: five minutes in milliseconds. */
  const CacheTtl: int := 5 * 60 * 1000

  /** A cached response and the time it was stored. */
  datatype CacheEntry<T> = CacheEntry(data: T, timestamp: int)

  /** `` `${query}:${JSON.stringify(variables || {})}` ``, with the variables already serialised. */
  function CacheKey(query: string, variablesJson: string): (k: string)
    ensures |k| > |query| && StartsWith(k, query) && k[|query|] == ':'
  {
    query + ":" + variablesJson
  }

  /** What a lookup at time `now` finds: a hit unless the entry is older than the TTL. */
  function CachedAt<T>(entries: map<string, CacheEntry<T>>, key: string, now: int): Option<T> {
    if key in entries && now - entries[key].timestamp <= CacheTtl then Some(entries[key].data) else None
  }

  /** A stored response is served for the next five minutes (the boundary included) and not after. */
  lemma CacheServesForTtl<T>(entries: map<string, CacheEntry<T>>, key: string, data: T, storedAt: int, now: int)
    ensures CachedAt(entries[key := CacheEntry(data, storedAt)], key, now).Some? <==> now - storedAt <= CacheTtl
    ensures now - storedAt <= CacheTtl ==> CachedAt(entries[key := CacheEntry(data, storedAt)], key, now) == Some(data)
  {
  }

  /** Storing under one key does not change what another key finds. */
  lemma CacheKeysIndependent<T>(entries: map<string, CacheEntry<T>>, key: string, other: string, data: T, storedAt: int, now: int)
    requires other != key
    ensures CachedAt(entries[key := CacheEntry(data, storedAt)], other, now) == CachedAt(entries, other, now)
  {
  }

  /** The service's token and its response cache (the throttle and pending-request maps are left out). */
  class ResponseCache<T> {
    var accessToken: Option<string>
    var entries: map<string, CacheEntry<T>>

    constructor(accessToken: Option<string>)
      ensures this.accessToken == (if accessToken == Some("") then None else accessToken)
      ensures entries == map[]
    {
      this.accessToken := if accessToken == Some("") then None else accessToken;
      entries := map[];
    }

    /**
     * `setAccessToken`: a new token empties the cache. The parameter is a
     * string, as in anilist.service.ts:182, so clearing the token through
     * this call (a `null` at run time) is not expressible; the token is
     * stored as given, the empty string included.
     */
    method SetAccessToken(token: string)
      modifies this
      ensures accessToken == Some(token) && entries == map[]
    {
      accessToken := Some(token);
      entries := map[];
    }

    /** `getCached`: an entry older than the TTL is deleted and reported as a miss. */
    method GetCached(key: string, now: int) returns (r: Option<T>)
      modifies this
      ensures r == CachedAt(old(entries), key, now)
      ensures entries == if key in old(entries) && r.None? then old(entries) - {key} else old(entries)
      ensures accessToken == old(accessToken)
    {
      if key !in entries {
        return None;
      }
      var entry := entries[key];
      if now - entry.timestamp > CacheTtl {
        entries := entries - {key};
        return None;
      }
      return Some(entry.data);
    }

    /** `setCached`: stores the response with the current time. */
    method SetCached(key: string, data: T, now: int)
      modifies this
      ensures entries == old(entries)[key := CacheEntry(data, now)]
      ensures accessToken == old(accessToken)
    {
      entries := entries[key := CacheEntry(data, now)];
    }
  }
}
