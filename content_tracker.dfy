// The content script's own `EpisodeTracker` and the tracker bookkeeping of
// `runDetection` (apps/extension/src/content/content.ts). The page's video
// element, its playback position and the site adapter's detection are
// parameters; `chrome.storage.local` is the shared `DetectionStore`, and the
// messages for the background worker are kept in outboxes.
module ContentTracking {
  import opened Wrappers
  import opened ExtensionTypes
  import ExtensionBackground

  /** The key `updateDetection` and `runDetection` compare: title-(overallEpisode ?? seasonEpisode ?? 'na'). */
  function ContentKey(d: EpisodeInfo): string {
    d.title + "-" + NumberOr(EpisodeOf(d), "na")
  }

  /** The key identifies the title and the episode; the season is not part of it. */
  lemma ContentKeyIdentifies(a: EpisodeInfo, b: EpisodeInfo)
    ensures ContentKey(a) == ContentKey(b) <==> a.title == b.title && EpisodeOf(a) == EpisodeOf(b)
  {
    NumberOrInjective(EpisodeOf(a), EpisodeOf(b), "na");
    if ContentKey(a) == ContentKey(b) {
      ExtensionBackground.SplitAtLast(a.title, NumberOr(EpisodeOf(a), "na"), b.title, NumberOr(EpisodeOf(b), "na"), '-');
    }
  }

  /** The progress both handlers compute: 0 for a zero duration. */
  function ProgressOf(watched: real, duration: real): (p: real)
    ensures duration <= 0.0 ==> p == 0.0
    ensures duration > 0.0 && 0.0 <= watched <= duration ==> 0.0 <= p <= 1.0
  {
    if duration > 0.0 then watched / duration else 0.0
  }

  class EpisodeTracker {
    var detection: EpisodeInfo
    var hasSentComplete: bool
    /** Whether the timeupdate and ended handlers are attached (`start` sets both, `stop` clears both). */
    var attached: bool
    /** The completion messages sent so far. */
    var outbox: seq<Completion>
    /** Where the messages for the current detection begin in outbox. */
    ghost var keyStart: nat

    /** Since the detection was adopted at most one completion was sent, for it, exactly when hasSentComplete. */
    ghost predicate Valid()
      reads this
    {
      keyStart <= |outbox| && |outbox| - keyStart <= 1
      && (hasSentComplete <==> |outbox| - keyStart == 1)
      && (forall k :: keyStart <= k < |outbox| ==> outbox[k].info == detection)
    }

    constructor(d: EpisodeInfo)
      ensures Valid()
      ensures detection == d && !hasSentComplete && !attached && outbox == []
    {
      detection := d;
      hasSentComplete := false;
      attached := false;
      outbox := [];
      keyStart := 0;
    }

    /** `start`: attaches the handlers unless they already are. */
    method Start()
      requires Valid()
      modifies this
      ensures Valid() && attached
      ensures detection == old(detection) && hasSentComplete == old(hasSentComplete)
      ensures outbox == old(outbox) && keyStart == old(keyStart)
    {
      if attached {
        return;
      }
      attached := true;
    }

    /** `stop`: detaches both handlers. */
    method Stop()
      requires Valid()
      modifies this
      ensures Valid() && !attached
      ensures detection == old(detection) && hasSentComplete == old(hasSentComplete)
      ensures outbox == old(outbox) && keyStart == old(keyStart)
    {
      attached := false;
    }

    /** `sendEpisodeCompleted`: the detection's fields with the playback figures. */
    method SendEpisodeCompleted(watched: real, duration: real, now: string)
      modifies this
      ensures outbox == old(outbox) + [CompletionOf(detection, watched, duration, ProgressOf(watched, duration), now)]
      ensures detection == old(detection) && hasSentComplete == old(hasSentComplete)
      ensures attached == old(attached) && keyStart == old(keyStart)
    {
      outbox := outbox + [CompletionOf(detection, watched, duration, ProgressOf(watched, duration), now)];
    }

    /** The timeupdate handler: from 80% progress the completion is sent, once. */
    method TimeUpdate(watched: real, duration: real, now: string)
      requires Valid()
      modifies this
      ensures Valid()
      ensures old(attached) && ProgressOf(watched, duration) >= 0.8 ==> hasSentComplete
      ensures !old(attached) || ProgressOf(watched, duration) < 0.8 ==> hasSentComplete == old(hasSentComplete)
      ensures outbox == if old(attached) && ProgressOf(watched, duration) >= 0.8 && !old(hasSentComplete)
        then old(outbox) + [CompletionOf(detection, watched, duration, ProgressOf(watched, duration), now)]
        else old(outbox)
      ensures detection == old(detection) && attached == old(attached) && keyStart == old(keyStart)
    {
      if !attached {
        return;
      }
      var progress := ProgressOf(watched, duration);
      if !hasSentComplete && progress >= 0.8 {
        hasSentComplete := true;
        SendEpisodeCompleted(watched, duration, now);
      }
    }

    /** The ended handler: the completion is sent unless it already was. */
    method Ended(watched: real, duration: real, now: string)
      requires Valid()
      modifies this
      ensures Valid()
      ensures old(attached) ==> hasSentComplete
      ensures !old(attached) ==> hasSentComplete == old(hasSentComplete)
      ensures outbox == if old(attached) && !old(hasSentComplete)
        then old(outbox) + [CompletionOf(detection, watched, duration, ProgressOf(watched, duration), now)]
        else old(outbox)
      ensures detection == old(detection) && attached == old(attached) && keyStart == old(keyStart)
    {
      if !attached {
        return;
      }
      if !hasSentComplete {
        SendEpisodeCompleted(watched, duration, now);
        hasSentComplete := true;
      }
    }

    /** `updateDetection`: a detection with another key restarts the tracker on it; the same key changes nothing. */
    method UpdateDetection(d: EpisodeInfo)
      requires Valid()
      modifies this
      ensures Valid()
      ensures ContentKey(d) == ContentKey(old(detection)) ==>
        detection == old(detection) && hasSentComplete == old(hasSentComplete)
        && attached == old(attached) && keyStart == old(keyStart)
      ensures ContentKey(d) != ContentKey(old(detection)) ==>
        detection == d && !hasSentComplete && attached && keyStart == |outbox|
      ensures outbox == old(outbox)
    {
      var currentKey := ContentKey(detection);
      var newKey := ContentKey(d);
      if currentKey != newKey {
        Stop();
        detection := d;
        hasSentComplete := false;
        keyStart := |outbox|;
        Start();
      }
    }
  }

  /** `chrome.storage.local`'s `currentDetection`, shared by the page's frames. */
  class DetectionStore {
    var current: Option<EpisodeInfo>

    constructor()
      ensures current == None
    {
      current := None;
    }
  }

  /** The messages `runDetection` and `clearDetection` send the background worker. */
  datatype Message = AnimeDetected(info: EpisodeInfo) | ClearDetection

  /** A truthy overallEpisode: present and not zero. */
  predicate HasOverallEpisode(d: EpisodeInfo) {
    d.overallEpisode.Some? && d.overallEpisode.value != 0
  }

  /** `isInvalidDetection`. */
  predicate InvalidDetection(detection: Option<EpisodeInfo>) {
    detection.None? || !HasOverallEpisode(detection.value)
    || detection.value.title == "Vilos" || |detection.value.title| < 3
  }

  /** The detection `runDetection` tracks: the stored one in an iframe or when its own is invalid. */
  function ChosenDetection(isTopFrame: bool, detection: Option<EpisodeInfo>, stored: Option<EpisodeInfo>): (r: Option<EpisodeInfo>)
    ensures isTopFrame && !InvalidDetection(detection) ==> r == detection
    ensures !isTopFrame ==> r == stored
  {
    if !isTopFrame || InvalidDetection(detection) then stored else detection
  }

  /**
   * In the top frame a detection is stored before the store is read, so the
   * frame tracks its own detection whether or not it counts as invalid.
   */
  lemma TopFrameTracksOwnDetection(d: EpisodeInfo)
    ensures ChosenDetection(true, Some(d), Some(d)) == Some(d)
  {
  }

  /** Whether a run creates or updates a tracker: a video with a duration and a chosen detection with an overallEpisode. */
  predicate Tracks(videoFound: bool, hasDuration: bool, chosen: Option<EpisodeInfo>) {
    videoFound && hasDuration && chosen.Some? && HasOverallEpisode(chosen.value)
  }

  /** Whether a run drops the tracker: the top frame detected an episode with a key other than the last one. */
  predicate DropsTracker(isTopFrame: bool, detection: Option<EpisodeInfo>, lastKey: Option<string>) {
    isTopFrame && detection.Some? && lastKey.Some? && lastKey != Some(ContentKey(detection.value))
  }

  /** The module variables of one frame's content script. */
  class ContentScript {
    var tracker: EpisodeTracker?
    var lastDetectionKey: Option<string>
    var messages: seq<Message>
    const store: DetectionStore

    /** A live tracker is consistent, attached, and tracks a detection with an overallEpisode. */
    ghost predicate Valid()
      reads this, tracker
    {
      tracker != null ==> tracker.Valid() && tracker.attached && HasOverallEpisode(tracker.detection)
    }

    constructor(s: DetectionStore)
      ensures Valid()
      ensures store == s && tracker == null && lastDetectionKey == None && messages == []
    {
      store := s;
      tracker := null;
      lastDetectionKey := None;
      messages := [];
    }

    /** The top frame's part of `runDetection`: store and announce the detection, and drop the tracker on a key change. */
    method RecordDetection(isTopFrame: bool, detection: Option<EpisodeInfo>)
      requires Valid()
      modifies this, store, tracker
      ensures Valid()
      ensures store.current == if isTopFrame && detection.Some? then detection else old(store.current)
      ensures lastDetectionKey == if isTopFrame && detection.Some? then Some(ContentKey(detection.value)) else old(lastDetectionKey)
      ensures messages == old(messages) + if isTopFrame && detection.Some? then [AnimeDetected(detection.value)] else []
      ensures tracker == if DropsTracker(isTopFrame, detection, old(lastDetectionKey)) then null else old(tracker)
      ensures old(tracker) != null && DropsTracker(isTopFrame, detection, old(lastDetectionKey)) ==> !old(tracker).attached
      ensures old(tracker) != null && !DropsTracker(isTopFrame, detection, old(lastDetectionKey)) ==>
        tracker.detection == old(tracker.detection) && tracker.hasSentComplete == old(tracker.hasSentComplete)
        && tracker.outbox == old(tracker.outbox)
    {
      if isTopFrame && detection.Some? {
        var detectionKey := ContentKey(detection.value);
        store.current := detection;
        messages := messages + [AnimeDetected(detection.value)];
        if lastDetectionKey.Some? && lastDetectionKey != Some(detectionKey) {
          if tracker != null {
            tracker.Stop();
            tracker := null;
          }
        }
        lastDetectionKey := Some(detectionKey);
      }
    }

    /** Both frames' part of `runDetection`: the chosen detection creates a tracker or updates the one there is. */
    method TrackVideo(chosen: Option<EpisodeInfo>, videoFound: bool, hasDuration: bool)
      requires Valid()
      modifies this, tracker
      ensures Valid()
      ensures lastDetectionKey == old(lastDetectionKey) && messages == old(messages)
      ensures Tracks(videoFound, hasDuration, chosen) ==> tracker != null && ContentKey(tracker.detection) == ContentKey(chosen.value)
      ensures !Tracks(videoFound, hasDuration, chosen) ==> tracker == old(tracker)
      ensures Tracks(videoFound, hasDuration, chosen) && old(tracker) == null ==>
        (tracker != null && fresh(tracker) && tracker.detection == chosen.value
         && !tracker.hasSentComplete && tracker.outbox == [])
      ensures Tracks(videoFound, hasDuration, chosen) && old(tracker) != null ==>
        (tracker == old(tracker) && tracker.outbox == old(tracker.outbox)
         && (ContentKey(chosen.value) == ContentKey(old(tracker.detection)) ==>
           tracker.detection == old(tracker.detection) && tracker.hasSentComplete == old(tracker.hasSentComplete))
         && (ContentKey(chosen.value) != ContentKey(old(tracker.detection)) ==>
           tracker.detection == chosen.value && !tracker.hasSentComplete))
    {
      if Tracks(videoFound, hasDuration, chosen) {
        if tracker == null {
          var t := new EpisodeTracker(chosen.value);
          t.Start();
          tracker := t;
        } else {
          tracker.UpdateDetection(chosen.value);
        }
      }
    }

    /**
     * `runDetection`: the top frame records its detection; then, with a video
     * that has a duration, the detection chosen from it and the store is tracked.
     */
    method RunDetection(isTopFrame: bool, detection: Option<EpisodeInfo>, videoFound: bool, hasDuration: bool)
      requires Valid()
      modifies this, store, tracker
      ensures Valid()
      ensures store.current == if isTopFrame && detection.Some? then detection else old(store.current)
      ensures lastDetectionKey == if isTopFrame && detection.Some? then Some(ContentKey(detection.value)) else old(lastDetectionKey)
      ensures messages == old(messages) + if isTopFrame && detection.Some? then [AnimeDetected(detection.value)] else []
      ensures old(tracker) != null && DropsTracker(isTopFrame, detection, old(lastDetectionKey)) ==> !old(tracker).attached
      ensures !Tracks(videoFound, hasDuration, ChosenDetection(isTopFrame, detection, store.current)) ==>
        tracker == if DropsTracker(isTopFrame, detection, old(lastDetectionKey)) then null else old(tracker)
      ensures Tracks(videoFound, hasDuration, ChosenDetection(isTopFrame, detection, store.current)) ==>
        (tracker != null && tracker.detection.title == ChosenDetection(isTopFrame, detection, store.current).value.title
         && tracker.detection.overallEpisode == ChosenDetection(isTopFrame, detection, store.current).value.overallEpisode)
      ensures (Tracks(videoFound, hasDuration, ChosenDetection(isTopFrame, detection, store.current))
        && (old(tracker) == null || DropsTracker(isTopFrame, detection, old(lastDetectionKey)))) ==>
        (fresh(tracker) && tracker.detection == ChosenDetection(isTopFrame, detection, store.current).value
         && !tracker.hasSentComplete && tracker.outbox == [])
    {
      RecordDetection(isTopFrame, detection);
      var trackingDetection := detection;
      if videoFound && hasDuration && (!isTopFrame || InvalidDetection(detection)) {
        trackingDetection := store.current;
      }
      ghost var chosen := ChosenDetection(isTopFrame, detection, store.current);
      assert videoFound && hasDuration ==> trackingDetection == chosen;
      TrackVideo(trackingDetection, videoFound, hasDuration);
      if tracker != null && trackingDetection.Some? {
        ContentKeyIdentifies(tracker.detection, trackingDetection.value);
      }
    }

    /** `clearDetection`: stops and drops the tracker, forgets the last key and tells the background worker. */
    method Clear()
      requires Valid()
      modifies this, tracker
      ensures Valid()
      ensures tracker == null && lastDetectionKey == None && messages == old(messages) + [ClearDetection]
      ensures old(tracker) != null ==> !old(tracker).attached
    {
      if tracker != null {
        tracker.Stop();
        tracker := null;
      }
      lastDetectionKey := None;
      messages := messages + [ClearDetection];
    }
  }

  /**
   * Because the key leaves out the season, a detection of the same title and
   * episode number in another season keeps the sent state: its completion is not sent.
   */
  method NextSeasonSameNumberNotSent(d: EpisodeInfo) returns (sent: seq<Completion>)
    requires d.seasonNumber == Some(1)
    ensures sent == [CompletionOf(d, 20.0, 24.0, 20.0 / 24.0, "t1")]
  {
    var t := new EpisodeTracker(d);
    t.Start();
    t.TimeUpdate(20.0, 24.0, "t1");
    t.UpdateDetection(d.(seasonNumber := Some(2)));
    t.Ended(24.0, 24.0, "t2");
    sent := t.outbox;
  }
}
