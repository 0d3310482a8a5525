// The browser extension's background worker (apps/extension/src/background/background.ts):
// the recent-activity list, the last-watched list and the pending-sync queue
// kept in extension storage, the keys that de-duplicate them, and the title
// normalisation of legacy detections. Storage reads and writes become the
// fields of one storage object; the desktop app's answer to each send is an
// input.
module ExtensionBackground {
  import opened Wrappers
  import opened Text
  import FilenameParser
  import opened Sequences
  import opened ExtensionTypes

  /** `ExtensionEpisodeEvent` without its playback figures. */
  datatype EpisodeEvent = EpisodeEvent(
    platform: Platform, title: string,
    overallEpisode: Option<nat>, seasonNumber: Option<nat>, seasonEpisode: Option<nat>,
    url: string, completedAt: string)

  /** `LastWatchedEntry`. */
  datatype LastWatchedEntry = LastWatchedEntry(
    platform: Platform, title: string, episode: Option<nat>, season: Option<nat>, url: string, completedAt: string)

  // ----- keys -----

  /** `overallEpisode ?? seasonEpisode`. */
  function EpisodeNumber(e: EpisodeEvent): (r: Option<nat>)
    ensures e.overallEpisode.Some? ==> r == e.overallEpisode
    ensures e.overallEpisode.None? ==> r == e.seasonEpisode
  {
    if e.overallEpisode.Some? then e.overallEpisode else e.seasonEpisode
  }

  /** `getEpisodeKey` and the recent-activity key: platform::title::episode. */
  function ActivityKey(e: EpisodeEvent): string {
    PlatformName(e.platform) + "::" + e.title + "::" + NumberOr(EpisodeNumber(e), "na")
  }

  /** The pending-sync key: title-episode-season. */
  function SyncKey(e: EpisodeEvent): string {
    e.title + "-" + NumberOr(EpisodeNumber(e), "na") + "-" + NumberOr(e.seasonNumber, "na")
  }

  /** A c at p with none after it is the last c. */
  lemma LastIndexAt(s: string, p: nat, c: char)
    requires p < |s| && s[p] == c && forall k :: p < k < |s| ==> s[k] != c
    ensures FilenameParser.LastIndexOf(s, c) == Some(p)
  {
  }

  /** A prefix without c, followed by c, is everything before the first c. */
  lemma BeforeFirstAt(s: string, x: string, c: char)
    requires StartsWith(s, x) && |x| < |s| && s[|x|] == c
    requires forall k :: 0 <= k < |x| ==> x[k] != c
    ensures BeforeFirst(s, c) == x
  {
    assert forall k :: 0 <= k < |x| ==> s[k] == x[k];
  }

  /** Splitting at the last c: the part after it has no c. */
  lemma SplitAtLast(x: string, y: string, x': string, y': string, c: char)
    requires x + [c] + y == x' + [c] + y'
    requires forall k :: 0 <= k < |y| ==> y[k] != c
    requires forall k :: 0 <= k < |y'| ==> y'[k] != c
    ensures x == x' && y == y'
  {
    var s := x + [c] + y;
    LastIndexAt(s, |x|, c);
    LastIndexAt(x' + [c] + y', |x'|, c);
    assert x == s[..|x|] && x' == s[..|x'|];
    assert y == s[|x| + 1..] && y' == s[|x'| + 1..];
  }

  /** Splitting at the first c: the part before it has no c. */
  lemma SplitAtFirst(x: string, y: string, x': string, y': string, c: char)
    requires x + [c] + y == x' + [c] + y'
    requires forall k :: 0 <= k < |x| ==> x[k] != c
    requires forall k :: 0 <= k < |x'| ==> x'[k] != c
    ensures x == x' && y == y'
  {
    var s := x + [c] + y;
    BeforeFirstAt(s, x, c);
    BeforeFirstAt(x' + [c] + y', x', c);
    assert y == s[|x| + 1..] && y' == s[|x'| + 1..];
  }

  /** The pending-sync key identifies the title, the episode and the season. */
  lemma SyncKeyIdentifies(a: EpisodeEvent, b: EpisodeEvent)
    ensures SyncKey(a) == SyncKey(b) <==>
      a.title == b.title && EpisodeNumber(a) == EpisodeNumber(b) && a.seasonNumber == b.seasonNumber
  {
    NumberOrInjective(EpisodeNumber(a), EpisodeNumber(b), "na");
    NumberOrInjective(a.seasonNumber, b.seasonNumber, "na");
    if SyncKey(a) == SyncKey(b) {
      var ea, eb := NumberOr(EpisodeNumber(a), "na"), NumberOr(EpisodeNumber(b), "na");
      var sa, sb := NumberOr(a.seasonNumber, "na"), NumberOr(b.seasonNumber, "na");
      SplitAtLast(a.title + "-" + ea, sa, b.title + "-" + eb, sb, '-');
      SplitAtLast(a.title, ea, b.title, eb, '-');
    }
  }

  /** A string of the form p::t::e, with no ':' in p or e, determines its three parts. */
  lemma SplitColonKey(p: string, t: string, e: string, p': string, t': string, e': string)
    requires p + "::" + t + "::" + e == p' + "::" + t' + "::" + e'
    requires forall k :: 0 <= k < |p| ==> p[k] != ':'
    requires forall k :: 0 <= k < |p'| ==> p'[k] != ':'
    requires forall k :: 0 <= k < |e| ==> e[k] != ':'
    requires forall k :: 0 <= k < |e'| ==> e'[k] != ':'
    ensures p == p' && t == t' && e == e'
  {
    var x, x' := p + "::" + t + ":", p' + "::" + t' + ":";
    assert p + "::" + t + "::" + e == x + [':'] + e;
    assert p' + "::" + t' + "::" + e' == x' + [':'] + e';
    SplitAtLast(x, e, x', e', ':');
    var w, w' := ":" + t + ":", ":" + t' + ":";
    assert x == p + [':'] + w;
    assert x' == p' + [':'] + w';
    SplitAtFirst(p, w, p', w', ':');
    assert t == w[1..|w| - 1] && t' == w'[1..|w'| - 1];
  }

  /** The activity key identifies the platform, the title and the episode. */
  lemma ActivityKeyIdentifies(a: EpisodeEvent, b: EpisodeEvent)
    ensures ActivityKey(a) == ActivityKey(b) <==>
      a.platform == b.platform && a.title == b.title && EpisodeNumber(a) == EpisodeNumber(b)
  {
    NumberOrInjective(EpisodeNumber(a), EpisodeNumber(b), "na");
    PlatformNameInjective(a.platform, b.platform);
    if ActivityKey(a) == ActivityKey(b) {
      SplitColonKey(PlatformName(a.platform), a.title, NumberOr(EpisodeNumber(a), "na"),
        PlatformName(b.platform), b.title, NumberOr(EpisodeNumber(b), "na"));
    }
  }

  // ----- recent activity -----

  /** The entries whose activity key is not key, in order. */
  function WithoutActivity(entries: seq<EpisodeEvent>, key: string): (r: seq<EpisodeEvent>)
    ensures |r| <= |entries|
    ensures forall e :: e in r <==> e in entries && ActivityKey(e) != key
  {
    if entries == [] then []
    else if ActivityKey(entries[0]) != key then [entries[0]] + WithoutActivity(entries[1..], key)
    else WithoutActivity(entries[1..], key)
  }

  predicate DistinctActivityKeys(entries: seq<EpisodeEvent>) {
    forall i, j :: 0 <= i < j < |entries| ==> ActivityKey(entries[i]) != ActivityKey(entries[j])
  }

  /** Filtering keeps distinct keys distinct. */
  lemma {:induction false} WithoutActivityDistinct(entries: seq<EpisodeEvent>, key: string)
    requires DistinctActivityKeys(entries)
    ensures DistinctActivityKeys(WithoutActivity(entries, key))
  {
    if entries != [] {
      WithoutActivityDistinct(entries[1..], key);
      var rest := WithoutActivity(entries[1..], key);
      if ActivityKey(entries[0]) != key {
        forall j | 0 <= j < |rest|
          ensures ActivityKey(entries[0]) != ActivityKey(rest[j])
        {
          assert rest[j] in entries[1..];
        }
      }
    }
  }

  /** `handleEpisodeCompleted`'s list update: the event first, then the old entries with other keys, at most 10 in all. */
  function RecentActivityAfter(current: seq<EpisodeEvent>, event: EpisodeEvent): (r: seq<EpisodeEvent>)
    ensures 1 <= |r| <= 10 && r[0] == event
    ensures forall k :: 1 <= k < |r| ==> r[k] in current && ActivityKey(r[k]) != ActivityKey(event)
    ensures forall e :: e in current && ActivityKey(e) != ActivityKey(event) ==> e in r || |r| == 10
    // the kept entries are the leading ones of the filtered list, in order
    ensures |r| <= 1 + |WithoutActivity(current, ActivityKey(event))|
    ensures forall k :: 1 <= k < |r| ==> r[k] == WithoutActivity(current, ActivityKey(event))[k - 1]
  {
    var filtered := WithoutActivity(current, ActivityKey(event));
    var updated := [event] + filtered;
    var r := if |updated| > 10 then updated[..10] else updated;
    assert forall k :: 1 <= k < |r| ==> r[k] == filtered[k - 1];
    assert forall e :: e in filtered && |r| < 10 ==> e in r by {
      assert |r| < 10 ==> r == updated;
    }
    r
  }

  /** The update keeps one entry per activity key. */
  lemma RecentActivityStaysDistinct(current: seq<EpisodeEvent>, event: EpisodeEvent)
    requires DistinctActivityKeys(current)
    ensures DistinctActivityKeys(RecentActivityAfter(current, event))
  {
    var filtered := WithoutActivity(current, ActivityKey(event));
    WithoutActivityDistinct(current, ActivityKey(event));
    var r := RecentActivityAfter(current, event);
    forall i, j | 0 <= i < j < |r| ensures ActivityKey(r[i]) != ActivityKey(r[j]) {
      if i > 0 {
        assert r[i] == filtered[i - 1] && r[j] == filtered[j - 1];
      }
    }
  }

  // ----- last watched -----

  /** `MAX_LAST_WATCHED`. */
  const MaxLastWatched: nat := 20

  /** The entry `ANIVault_EPISODE_COMPLETE` stores for a completion. */
  function LastWatchedOf(e: EpisodeEvent): (r: LastWatchedEntry)
    ensures r.episode == EpisodeNumber(e) && r.season == e.seasonNumber
    ensures r.platform == e.platform && r.title == e.title && r.url == e.url && r.completedAt == e.completedAt
  {
    LastWatchedEntry(e.platform, e.title, EpisodeNumber(e), e.seasonNumber, e.url, e.completedAt)
  }

  /** `storeLastWatched`'s list: the new entry in front of the newest old ones, at most 20. */
  function LastWatchedAfter(lastWatched: seq<LastWatchedEntry>, entry: LastWatchedEntry): (r: seq<LastWatchedEntry>)
    ensures |r| == if |lastWatched| < MaxLastWatched then |lastWatched| + 1 else MaxLastWatched
    ensures r[0] == entry && r[1..] == lastWatched[..|r| - 1]
  {
    var l := [entry] + lastWatched;
    if |l| > MaxLastWatched then l[..MaxLastWatched] else l
  }

  // ----- pending sync -----

  /** `pendingSync.some(...)` with the event's key. */
  predicate HasSyncKey(pending: seq<EpisodeEvent>, key: string) {
    exists e :: e in pending && SyncKey(e) == key
  }

  predicate DistinctSyncKeys(pending: seq<EpisodeEvent>) {
    forall i, j :: 0 <= i < j < |pending| ==> SyncKey(pending[i]) != SyncKey(pending[j])
  }

  /** `addToPendingSync`: appended only when no queued event has its key. */
  function PendingAfterAdd(pending: seq<EpisodeEvent>, event: EpisodeEvent): (r: seq<EpisodeEvent>)
    ensures HasSyncKey(pending, SyncKey(event)) ==> r == pending
    ensures !HasSyncKey(pending, SyncKey(event)) ==> r == pending + [event]
    ensures HasSyncKey(r, SyncKey(event))
    ensures DistinctSyncKeys(pending) ==> DistinctSyncKeys(r)
  {
    if HasSyncKey(pending, SyncKey(event)) then pending
    else
      assert forall i :: 0 <= i < |pending| ==> SyncKey(pending[i]) != SyncKey(event) by {
        forall i | 0 <= i < |pending| ensures SyncKey(pending[i]) != SyncKey(event) {
          assert pending[i] in pending;
        }
      }
      assert event in pending + [event];
      pending + [event]
  }

  /** Adding the same event twice queues it once. */
  lemma PendingAddIdempotent(pending: seq<EpisodeEvent>, event: EpisodeEvent)
    ensures PendingAfterAdd(PendingAfterAdd(pending, event), event) == PendingAfterAdd(pending, event)
  {
  }

  /** The queued events whose key is not key, in order. */
  function WithoutSyncKey(pending: seq<EpisodeEvent>, key: string): (r: seq<EpisodeEvent>)
    ensures forall e :: e in r <==> e in pending && SyncKey(e) != key
    ensures IsSubsequence(r, pending)
  {
    if pending == [] then []
    else if SyncKey(pending[0]) != key then [pending[0]] + WithoutSyncKey(pending[1..], key)
    else WithoutSyncKey(pending[1..], key)
  }

  /** Removing a key no queued event has changes nothing. */
  lemma {:induction false} WithoutAbsentSyncKey(pending: seq<EpisodeEvent>, key: string)
    requires !HasSyncKey(pending, key)
    ensures WithoutSyncKey(pending, key) == pending
  {
    if pending != [] {
      assert pending[0] in pending;
      assert !HasSyncKey(pending[1..], key) by {
        assert forall e :: e in pending[1..] ==> e in pending;
      }
      WithoutAbsentSyncKey(pending[1..], key);
    }
  }

  /** `removeFromPendingSync`: every queued event with the event's key goes. */
  function PendingAfterRemove(pending: seq<EpisodeEvent>, event: EpisodeEvent): (r: seq<EpisodeEvent>)
    ensures !HasSyncKey(r, SyncKey(event))
    ensures forall e :: e in pending && SyncKey(e) != SyncKey(event) ==> e in r
    ensures IsSubsequence(r, pending)
    ensures !HasSyncKey(pending, SyncKey(event)) ==> r == pending
  {
    var key := SyncKey(event);
    assert !HasSyncKey(pending, key) ==> WithoutSyncKey(pending, key) == pending by {
      if !HasSyncKey(pending, key) {
        WithoutAbsentSyncKey(pending, key);
      }
    }
    WithoutSyncKey(pending, key)
  }

  /** The events sent successfully, in queue order; a send without an answer counts as failed. */
  function Delivered(pending: seq<EpisodeEvent>, answers: seq<bool>, i: nat): (r: seq<EpisodeEvent>)
    requires i <= |pending|
    ensures forall e :: e in r <==> exists k :: i <= k < |pending| && k < |answers| && answers[k] && pending[k] == e
    decreases |pending| - i
  {
    if i == |pending| then []
    else if i < |answers| && answers[i] then [pending[i]] + Delivered(pending, answers, i + 1)
    else Delivered(pending, answers, i + 1)
  }

  /** The keys of some events. */
  function SyncKeys(events: seq<EpisodeEvent>): (keys: set<string>)
    ensures forall e :: e in events ==> SyncKey(e) in keys
    ensures forall key :: key in keys ==> exists e :: e in events && SyncKey(e) == key
  {
    set e | e in events :: SyncKey(e)
  }

  /** The queued events whose key is in none of keys, in order. */
  function WithoutSyncKeys(pending: seq<EpisodeEvent>, keys: set<string>): (r: seq<EpisodeEvent>)
    ensures forall e :: e in r <==> e in pending && SyncKey(e) !in keys
    ensures IsSubsequence(r, pending)
  {
    if pending == [] then []
    else if SyncKey(pending[0]) !in keys then [pending[0]] + WithoutSyncKeys(pending[1..], keys)
    else WithoutSyncKeys(pending[1..], keys)
  }

  /** The queue `processPendingSync` leaves: unchanged when no send succeeds, otherwise without every key that was delivered. */
  function PendingAfterSync(pending: seq<EpisodeEvent>, answers: seq<bool>): (r: seq<EpisodeEvent>)
    ensures Delivered(pending, answers, 0) == [] ==> r == pending
    ensures forall e :: e in r ==> e in pending
    ensures forall e :: e in r ==> SyncKey(e) !in SyncKeys(Delivered(pending, answers, 0))
    ensures forall e :: e in pending && SyncKey(e) !in SyncKeys(Delivered(pending, answers, 0)) ==> e in r
  {
    var successful := Delivered(pending, answers, 0);
    if |successful| > 0 then WithoutSyncKeys(pending, SyncKeys(successful)) else pending
  }

  /** With distinct keys in the queue, what stays is exactly what failed to send. */
  lemma SyncKeepsFailedSends(pending: seq<EpisodeEvent>, answers: seq<bool>)
    requires DistinctSyncKeys(pending)
    ensures forall k :: 0 <= k < |pending| ==>
      (pending[k] in PendingAfterSync(pending, answers) <==> !(k < |answers| && answers[k]))
  {
    var successful := Delivered(pending, answers, 0);
    forall k | 0 <= k < |pending|
      ensures pending[k] in PendingAfterSync(pending, answers) <==> !(k < |answers| && answers[k])
    {
      if k < |answers| && answers[k] {
        assert pending[k] in successful;
      } else {
        forall e | e in successful ensures SyncKey(e) != SyncKey(pending[k]) {
          var j :| 0 <= j < |pending| && j < |answers| && answers[j] && pending[j] == e;
          assert j != k;
        }
      }
    }
  }

  // ----- storage -----

  class ExtensionStorage {
    var recentActivity: seq<EpisodeEvent>
    var lastWatched: seq<LastWatchedEntry>
    var pendingSync: seq<EpisodeEvent>

    /** The bounds and de-duplication every writer of these lists keeps. */
    ghost predicate Valid()
      reads this
    {
      |recentActivity| <= 10 && |lastWatched| <= MaxLastWatched
      && DistinctActivityKeys(recentActivity) && DistinctSyncKeys(pendingSync)
    }

    /** A fresh install: every list empty. */
    constructor()
      ensures Valid() && recentActivity == [] && lastWatched == [] && pendingSync == []
    {
      recentActivity := [];
      lastWatched := [];
      pendingSync := [];
    }

    /** `handleEpisodeCompleted`: the recent-activity update; the send to the desktop app is not modelled here. */
    method HandleEpisodeCompleted(event: EpisodeEvent)
      requires Valid()
      modifies this
      ensures Valid()
      ensures recentActivity == RecentActivityAfter(old(recentActivity), event)
      ensures lastWatched == old(lastWatched) && pendingSync == old(pendingSync)
    {
      RecentActivityStaysDistinct(recentActivity, event);
      recentActivity := RecentActivityAfter(recentActivity, event);
    }

    /** `storeLastWatched`: unshift, then splice back to 20 entries. */
    method StoreLastWatched(entry: LastWatchedEntry)
      requires Valid()
      modifies this
      ensures Valid()
      ensures lastWatched == LastWatchedAfter(old(lastWatched), entry)
      ensures recentActivity == old(recentActivity) && pendingSync == old(pendingSync)
    {
      var list := [entry] + lastWatched;
      if |list| > MaxLastWatched {
        list := list[..MaxLastWatched];
      }
      lastWatched := list;
    }

    method AddToPendingSync(event: EpisodeEvent)
      requires Valid()
      modifies this
      ensures Valid()
      ensures pendingSync == PendingAfterAdd(old(pendingSync), event)
      ensures recentActivity == old(recentActivity) && lastWatched == old(lastWatched)
    {
      var key := SyncKey(event);
      var exists_ := HasSyncKey(pendingSync, key);
      if !exists_ {
        pendingSync := pendingSync + [event];
      }
    }

    method RemoveFromPendingSync(event: EpisodeEvent)
      requires Valid()
      modifies this
      ensures Valid()
      ensures pendingSync == PendingAfterRemove(old(pendingSync), event)
      ensures recentActivity == old(recentActivity) && lastWatched == old(lastWatched)
    {
      var remaining := WithoutSyncKey(pendingSync, SyncKey(event));
      SubsequenceKeepsDistinct(remaining, pendingSync);
      pendingSync := remaining;
    }

    /** `processPendingSync`: sends the queue in order (answers[k] is the desktop app's answer to the k-th send), then drops what was delivered. */
    method ProcessPendingSync(answers: seq<bool>)
      requires Valid()
      modifies this
      ensures Valid()
      ensures pendingSync == PendingAfterSync(old(pendingSync), answers)
      ensures recentActivity == old(recentActivity) && lastWatched == old(lastWatched)
    {
      if |pendingSync| == 0 {
        return;
      }
      var successful: seq<EpisodeEvent> := [];
      var i := 0;
      while i < |pendingSync|
        invariant 0 <= i <= |pendingSync|
        invariant successful + Delivered(pendingSync, answers, i) == Delivered(pendingSync, answers, 0)
      {
        var success := i < |answers| && answers[i];
        if success {
          successful := successful + [pendingSync[i]];
        }
        i := i + 1;
      }
      assert successful == Delivered(pendingSync, answers, 0);
      if |successful| > 0 {
        var remaining := WithoutSyncKeys(pendingSync, SyncKeys(successful));
        SubsequenceKeepsDistinct(remaining, pendingSync);
        pendingSync := remaining;
      }
    }
  }

  /** A subsequence of a queue with distinct keys has distinct keys. */
  lemma {:induction false} SubsequenceKeepsDistinct(r: seq<EpisodeEvent>, pending: seq<EpisodeEvent>)
    requires IsSubsequence(r, pending) && DistinctSyncKeys(pending)
    ensures DistinctSyncKeys(r)
    decreases |pending|
  {
    if r != [] {
      assert pending != [];
      assert DistinctSyncKeys(pending[1..]) by {
        forall i, j | 0 <= i < j < |pending[1..]| ensures SyncKey(pending[1..][i]) != SyncKey(pending[1..][j]) {
          assert pending[1..][i] == pending[i + 1] && pending[1..][j] == pending[j + 1];
        }
      }
      if r[0] == pending[0] && IsSubsequence(r[1..], pending[1..]) {
        SubsequenceKeepsDistinct(r[1..], pending[1..]);
        SubsequenceMembers(r[1..], pending[1..]);
        forall j | 0 < j < |r| ensures SyncKey(r[0]) != SyncKey(r[j]) {
          assert r[j] == r[1..][j - 1];
          assert r[j] in r[1..];
          assert r[j] in pending[1..];
          var k :| 0 <= k < |pending[1..]| && pending[1..][k] == r[j];
          assert pending[k + 1] == r[j];
        }
      } else {
        SubsequenceKeepsDistinct(r, pending[1..]);
      }
    }
  }

  // ----- normalizeTitle -----

  /** `s.split(c)[0]`: everything before the first c. */
  function BeforeFirst(s: string, c: char): (r: string)
    ensures StartsWith(s, r)
    ensures forall k :: 0 <= k < |r| ==> r[k] != c
    ensures |r| < |s| ==> s[|r|] == c
  {
    if s == [] || s[0] == c then []
    else
      var rest := BeforeFirst(s[1..], c);
      assert ([s[0]] + rest)[1..] == rest;
      [s[0]] + rest
  }

  predicate NoLineTerminatorFrom(t: string, j: nat) {
    forall k :: j <= k < |t| ==> !IsLineTerminator(t[k])
  }

  /** `/episode.*$/i` at i: the word, then only characters `.` matches up to the end. */
  predicate EpisodeTailAt(t: string, i: nat) {
    FilenameParser.LiteralAtIgnoreCase(t, i, "episode") && NoLineTerminatorFrom(t, i + 7)
  }

  /** `/ep\s*\d+.*$/i` at i: "ep", white space, a digit, then only characters `.` matches. */
  predicate EpTailAt(t: string, i: nat) {
    FilenameParser.LiteralAtIgnoreCase(t, i, "ep")
    && i + 2 + SpaceRun(t, i + 2) < |t|
    && IsDigit(t[i + 2 + SpaceRun(t, i + 2)])
    && NoLineTerminatorFrom(t, i + 2 + SpaceRun(t, i + 2))
  }

  function FirstEpisodeTail(t: string, i: nat): (r: Option<nat>)
    requires i <= |t|
    ensures r.Some? ==> i <= r.value < |t| && EpisodeTailAt(t, r.value)
    ensures r.Some? ==> forall q :: i <= q < r.value ==> !EpisodeTailAt(t, q)
    ensures r.None? ==> forall q :: i <= q ==> !EpisodeTailAt(t, q)
    decreases |t| - i
  {
    if i == |t| then None
    else if EpisodeTailAt(t, i) then Some(i)
    else FirstEpisodeTail(t, i + 1)
  }

  function FirstEpTail(t: string, i: nat): (r: Option<nat>)
    requires i <= |t|
    ensures r.Some? ==> i <= r.value < |t| && EpTailAt(t, r.value)
    ensures r.Some? ==> forall q :: i <= q < r.value ==> !EpTailAt(t, q)
    ensures r.None? ==> forall q :: i <= q ==> !EpTailAt(t, q)
    decreases |t| - i
  {
    if i == |t| then None
    else if EpTailAt(t, i) then Some(i)
    else FirstEpTail(t, i + 1)
  }

  /** `replace(/episode.*$/i, '')`: cut at the leftmost match. */
  function CutEpisodeTail(t: string): (r: string)
    ensures StartsWith(t, r)
  {
    match FirstEpisodeTail(t, 0)
    case None => t
    case Some(i) => t[..i]
  }

  /** `replace(/ep\s*\d+.*$/i, '')`: cut at the leftmost match. */
  function CutEpTail(t: string): (r: string)
    ensures StartsWith(t, r)
  {
    match FirstEpTail(t, 0)
    case None => t
    case Some(i) => t[..i]
  }

  /** `normalizeTitle`: the part before the first '|', then before the first '-', without an episode tail, trimmed. */
  function NormalizeTitle(title: string): (r: string)
    ensures r == [] || (!IsSpace(r[0]) && !IsSpace(r[|r| - 1]))
  {
    Trim(CutEpTail(CutEpisodeTail(BeforeFirst(BeforeFirst(title, '|'), '-'))))
  }

  /** `trim` keeps a slice of its argument, starting at a. */
  lemma TrimIsSlice(s: string) returns (a: nat)
    ensures a + |Trim(s)| <= |s| && Trim(s) == s[a..a + |Trim(s)|]
  {
    a := LeadingSpace(s);
    var t1 := s[a..];
    assert TrimStart(s) == t1;
    var t2 := t1[..|t1| - TrailingSpace(t1)];
    assert Trim(s) == t2 == s[a..a + |t2|];
  }

  /** A character missing from a string is missing from each of its slices. */
  lemma NoCharInSlice(t: string, a: nat, b: nat, c: char)
    requires a <= b <= |t| && forall k :: 0 <= k < |t| ==> t[k] != c
    ensures forall k :: 0 <= k < b - a ==> t[a..b][k] != c
  {
    assert forall k :: 0 <= k < b - a ==> t[a..b][k] == t[a + k];
  }

  /** The normalised title has neither '|' nor '-' in it. */
  lemma NormalizedTitleHasNoSeparators(title: string)
    ensures forall k :: 0 <= k < |NormalizeTitle(title)| ==> NormalizeTitle(title)[k] != '|' && NormalizeTitle(title)[k] != '-'
  {
    var s0 := BeforeFirst(title, '|');
    var s1 := BeforeFirst(s0, '-');
    NoCharInSlice(s0, 0, |s1|, '|');
    assert s1 == s0[0..|s1|];
    var s2 := CutEpisodeTail(s1);
    assert s2 == s1[0..|s2|];
    NoCharInSlice(s1, 0, |s2|, '|');
    NoCharInSlice(s1, 0, |s2|, '-');
    var s3 := CutEpTail(s2);
    assert s3 == s2[0..|s3|];
    NoCharInSlice(s2, 0, |s3|, '|');
    NoCharInSlice(s2, 0, |s3|, '-');
    var a := TrimIsSlice(s3);
    NoCharInSlice(s3, a, a + |Trim(s3)|, '|');
    NoCharInSlice(s3, a, a + |Trim(s3)|, '-');
  }

  /** A white-space run that ends inside a slice ends at the same place in the whole string. */
  lemma {:induction false} SpaceRunInSlice(t: string, a: nat, b: nat, p: nat)
    requires a <= b <= |t| && p <= b - a
    requires p + SpaceRun(t[a..b], p) < b - a
    ensures SpaceRun(t, a + p) == SpaceRun(t[a..b], p)
    decreases b - a - p
  {
    var u := t[a..b];
    assert u[p] == t[a + p];
    if IsSpace(u[p]) {
      SpaceRunInSlice(t, a, b, p + 1);
    }
  }

  /** A literal inside a slice is a literal in the whole string. */
  lemma LiteralInSlice(t: string, a: nat, b: nat, j: nat, lit: string)
    requires a <= b <= |t| && FilenameParser.LiteralAtIgnoreCase(t[a..b], j, lit)
    ensures FilenameParser.LiteralAtIgnoreCase(t, a + j, lit)
  {
    var u := t[a..b];
    var v, w := u[j..j + |lit|], t[a + j..a + j + |lit|];
    assert forall k :: 0 <= k < |lit| ==> v[k] == w[k];
    assert v == w;
  }

  /** Under no line breaks, a tail match inside a slice is one in the whole string. */
  lemma TailsInSlice(t: string, a: nat, b: nat, j: nat)
    requires a <= b <= |t| && NoLineTerminatorFrom(t, 0)
    ensures EpisodeTailAt(t[a..b], j) ==> EpisodeTailAt(t, a + j) && a + j + 7 <= b
    ensures EpTailAt(t[a..b], j) ==> EpTailAt(t, a + j) && a + j < b
  {
    if EpisodeTailAt(t[a..b], j) {
      LiteralInSlice(t, a, b, j, "episode");
    }
    if EpTailAt(t[a..b], j) {
      EpTailInSlice(t, a, b, j);
    }
  }

  lemma EpTailInSlice(t: string, a: nat, b: nat, j: nat)
    requires a <= b <= |t| && NoLineTerminatorFrom(t, 0)
    requires EpTailAt(t[a..b], j)
    ensures EpTailAt(t, a + j) && a + j < b
  {
    var u := t[a..b];
    LiteralInSlice(t, a, b, j, "ep");
    SpaceRunInSlice(t, a, b, j + 2);
    var d := j + 2 + SpaceRun(u, j + 2);
    assert u[d] == t[a + d];
  }

  lemma NoLineTerminatorInSlice(t: string, a: nat, b: nat)
    requires a <= b <= |t| && NoLineTerminatorFrom(t, 0)
    ensures NoLineTerminatorFrom(t[a..b], 0)
  {
    forall k | 0 <= k < b - a ensures !IsLineTerminator(t[a..b][k]) {
      assert t[a..b][k] == t[a + k];
    }
  }

  /** Cutting at the first episode tail leaves none, and no line break. */
  lemma CutEpisodeTailLeavesNone(s: string)
    requires NoLineTerminatorFrom(s, 0)
    ensures NoLineTerminatorFrom(CutEpisodeTail(s), 0)
    ensures forall q :: !EpisodeTailAt(CutEpisodeTail(s), q)
  {
    var s1 := CutEpisodeTail(s);
    assert s1 == s[0..|s1|];
    NoLineTerminatorInSlice(s, 0, |s1|);
    forall q ensures !EpisodeTailAt(s1, q) {
      TailsInSlice(s, 0, |s1|, q);
    }
  }

  /** Cutting at the first "ep N" tail leaves none, and keeps what the string was already free of. */
  lemma CutEpTailLeavesNone(s: string)
    requires NoLineTerminatorFrom(s, 0) && forall q :: !EpisodeTailAt(s, q)
    ensures NoLineTerminatorFrom(CutEpTail(s), 0)
    ensures forall q :: !EpisodeTailAt(CutEpTail(s), q) && !EpTailAt(CutEpTail(s), q)
  {
    var s2 := CutEpTail(s);
    assert s2 == s[0..|s2|];
    NoLineTerminatorInSlice(s, 0, |s2|);
    forall q ensures !EpisodeTailAt(s2, q) && !EpTailAt(s2, q) {
      TailsInSlice(s, 0, |s2|, q);
    }
  }

  /** Trimming keeps a string free of tails. */
  lemma TrimLeavesNone(s: string)
    requires NoLineTerminatorFrom(s, 0) && forall q :: !EpisodeTailAt(s, q) && !EpTailAt(s, q)
    ensures forall q :: !EpisodeTailAt(Trim(s), q) && !EpTailAt(Trim(s), q)
  {
    var a := TrimIsSlice(s);
    forall q ensures !EpisodeTailAt(Trim(s), q) && !EpTailAt(Trim(s), q) {
      TailsInSlice(s, a, a + |Trim(s)|, q);
    }
  }

  /** On a single-line title, no "episode…" or "ep N…" tail is left after normalising. */
  lemma NormalizedTitleHasNoTail(title: string)
    requires NoLineTerminatorFrom(title, 0)
    ensures forall q :: !EpisodeTailAt(NormalizeTitle(title), q) && !EpTailAt(NormalizeTitle(title), q)
  {
    var s0 := BeforeFirst(BeforeFirst(title, '|'), '-');
    assert BeforeFirst(title, '|') == title[..|BeforeFirst(title, '|')|];
    NoLineTerminatorInSlice(title, 0, |BeforeFirst(title, '|')|);
    NoLineTerminatorInSlice(BeforeFirst(title, '|'), 0, |s0|);
    assert s0 == BeforeFirst(title, '|')[0..|s0|];
    CutEpisodeTailLeavesNone(s0);
    CutEpTailLeavesNone(CutEpisodeTail(s0));
    TrimLeavesNone(CutEpTail(CutEpisodeTail(s0)));
  }
}
