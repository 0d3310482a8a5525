// The extension's `VideoTracker` (apps/extension/src/content/video-tracker.ts):
// a state machine driven by start/stop, the video's timeupdate and ended
// events and detection updates, which sends at most one completion per
// episode. The page's `<video>` element becomes a flag saying whether one was
// found; the messages sent to the background worker are kept in `outbox`.
module VideoTracking {
  import opened Wrappers
  import opened Text
  import opened ExtensionTypes
  import ExtensionBackground

  /** `getEpisodeKey`: title-episode-season, 'null' standing for a missing number. */
  function TrackerKey(d: EpisodeInfo): string {
    d.title + "-" + NumberOr(EpisodeOf(d), "null") + "-" + NumberOr(d.seasonNumber, "null")
  }

  /** The key identifies the title, the episode and the season. */
  lemma TrackerKeyIdentifies(a: EpisodeInfo, b: EpisodeInfo)
    ensures TrackerKey(a) == TrackerKey(b) <==>
      a.title == b.title && EpisodeOf(a) == EpisodeOf(b) && a.seasonNumber == b.seasonNumber
  {
    NumberOrInjective(EpisodeOf(a), EpisodeOf(b), "null");
    NumberOrInjective(a.seasonNumber, b.seasonNumber, "null");
    if TrackerKey(a) == TrackerKey(b) {
      var ea, eb := NumberOr(EpisodeOf(a), "null"), NumberOr(EpisodeOf(b), "null");
      var sa, sb := NumberOr(a.seasonNumber, "null"), NumberOr(b.seasonNumber, "null");
      ExtensionBackground.SplitAtLast(a.title + "-" + ea, sa, b.title + "-" + eb, sb, '-');
      ExtensionBackground.SplitAtLast(a.title, ea, b.title, eb, '-');
    }
  }

  class VideoTracker {
    var detection: EpisodeInfo
    var lastProgress: real
    var hasSentComplete: bool
    var lastEpisodeKey: string
    /** Whether `video` holds an element. */
    var hasVideo: bool
    var isTracking: bool
    /** The completion messages sent so far. */
    var outbox: seq<Completion>
    /** Where the messages for the current key begin in outbox. */
    ghost var keyStart: nat

    /**
     * The key matches the detection, and since the key was adopted at most one
     * completion has been sent, for this detection, exactly when hasSentComplete.
     */
    ghost predicate Valid()
      reads this
    {
      lastEpisodeKey == TrackerKey(detection)
      && keyStart <= |outbox| && |outbox| - keyStart <= 1
      && (hasSentComplete <==> |outbox| - keyStart == 1)
      && (forall k :: keyStart <= k < |outbox| ==> outbox[k].info == detection)
    }

    constructor(d: EpisodeInfo)
      ensures Valid()
      ensures detection == d && lastEpisodeKey == TrackerKey(d)
      ensures lastProgress == 0.0 && !hasSentComplete && !hasVideo && !isTracking && outbox == []
    {
      detection := d;
      lastProgress := 0.0;
      hasSentComplete := false;
      lastEpisodeKey := TrackerKey(d);
      hasVideo := false;
      isTracking := false;
      outbox := [];
      keyStart := 0;
    }

    /** `attachListeners`: tracking begins when there is a video. */
    method AttachListeners()
      requires Valid()
      modifies this
      ensures Valid()
      ensures isTracking == (old(isTracking) || hasVideo)
      ensures hasVideo == old(hasVideo) && detection == old(detection) && lastEpisodeKey == old(lastEpisodeKey)
      ensures lastProgress == old(lastProgress) && hasSentComplete == old(hasSentComplete) && outbox == old(outbox)
      ensures keyStart == old(keyStart)
    {
      if !hasVideo {
        return;
      }
      isTracking := true;
    }

    /** `start`: a no-op while tracking; videoFound is the result of the element lookup. */
    method Start(videoFound: bool)
      requires Valid()
      modifies this
      ensures Valid()
      ensures old(isTracking) ==> hasVideo == old(hasVideo) && isTracking
      ensures !old(isTracking) ==> hasVideo == videoFound && isTracking == videoFound
      ensures detection == old(detection) && lastEpisodeKey == old(lastEpisodeKey)
      ensures lastProgress == old(lastProgress) && hasSentComplete == old(hasSentComplete) && outbox == old(outbox)
      ensures keyStart == old(keyStart)
    {
      if isTracking {
        return;
      }
      hasVideo := videoFound;
      if !hasVideo {
        // the source retries once after a second: RetryStart
        return;
      }
      AttachListeners();
    }

    /** The delayed retry `start` schedules when no video was found. */
    method RetryStart(videoFound: bool)
      requires Valid()
      modifies this
      ensures Valid()
      ensures hasVideo == videoFound && isTracking == (old(isTracking) || videoFound)
      ensures detection == old(detection) && lastEpisodeKey == old(lastEpisodeKey)
      ensures lastProgress == old(lastProgress) && hasSentComplete == old(hasSentComplete) && outbox == old(outbox)
      ensures keyStart == old(keyStart)
    {
      hasVideo := videoFound;
      if hasVideo {
        AttachListeners();
      }
    }

    /** `stop`: a no-op unless tracking a video; otherwise the listeners and the video are dropped. */
    method Stop()
      requires Valid()
      modifies this
      ensures Valid()
      ensures !(old(hasVideo) && old(isTracking)) ==> hasVideo == old(hasVideo) && isTracking == old(isTracking)
      ensures old(hasVideo) && old(isTracking) ==> !hasVideo && !isTracking
      ensures detection == old(detection) && lastEpisodeKey == old(lastEpisodeKey)
      ensures lastProgress == old(lastProgress) && hasSentComplete == old(hasSentComplete) && outbox == old(outbox)
      ensures keyStart == old(keyStart)
    {
      if !hasVideo || !isTracking {
        return;
      }
      isTracking := false;
      hasVideo := false;
    }

    /** `sendCompletionEvent`: marks the episode sent and sends once. */
    method SendCompletion(watched: real, duration: real, progress: real, now: string)
      requires Valid()
      modifies this
      ensures Valid()
      ensures hasSentComplete
      ensures outbox == if old(hasSentComplete) then old(outbox) else old(outbox) + [CompletionOf(detection, watched, duration, progress, now)]
      ensures detection == old(detection) && lastEpisodeKey == old(lastEpisodeKey) && lastProgress == old(lastProgress)
      ensures hasVideo == old(hasVideo) && isTracking == old(isTracking) && keyStart == old(keyStart)
    {
      if hasSentComplete {
        return;
      }
      hasSentComplete := true;
      outbox := outbox + [CompletionOf(detection, watched, duration, progress, now)];
    }

    /** Whether the listeners are attached and the handlers find a video. */
    predicate Listening()
      reads this
    {
      isTracking && hasVideo
    }

    /**
     * The timeupdate listener (it acts only while listening): nothing for a zero
     * duration; otherwise the progress is recorded and, from 80%, the completion sent.
     */
    method TimeUpdate(watched: real, duration: real, now: string)
      requires Valid()
      modifies this
      ensures Valid()
      ensures !old(Listening()) || duration == 0.0 ==>
        lastProgress == old(lastProgress) && hasSentComplete == old(hasSentComplete) && outbox == old(outbox)
      ensures old(Listening()) && duration != 0.0 ==> lastProgress == watched / duration
      ensures old(Listening()) && duration != 0.0 && watched / duration >= 0.8 ==> hasSentComplete
      ensures outbox == if old(Listening()) && duration != 0.0 && watched / duration >= 0.8 && !old(hasSentComplete)
        then old(outbox) + [CompletionOf(detection, watched, duration, watched / duration, now)]
        else old(outbox)
      ensures detection == old(detection) && lastEpisodeKey == old(lastEpisodeKey)
      ensures hasVideo == old(hasVideo) && isTracking == old(isTracking) && keyStart == old(keyStart)
    {
      if !Listening() || duration == 0.0 {
        return;
      }
      var progress := watched / duration;
      lastProgress := progress;
      if progress >= 0.8 && !hasSentComplete {
        SendCompletion(watched, duration, progress, now);
      }
    }

    /** The ended listener (it acts only while listening): sends unless already sent; a zero duration reports progress 1. */
    method Ended(watched: real, duration: real, now: string)
      requires Valid()
      modifies this
      ensures Valid()
      ensures old(Listening()) ==> hasSentComplete
      ensures outbox == if old(Listening()) && !old(hasSentComplete)
        then old(outbox) + [CompletionOf(detection, watched, duration, if duration > 0.0 then watched / duration else 1.0, now)]
        else old(outbox)
      ensures !old(Listening()) ==> hasSentComplete == old(hasSentComplete)
      ensures detection == old(detection) && lastEpisodeKey == old(lastEpisodeKey) && lastProgress == old(lastProgress)
      ensures hasVideo == old(hasVideo) && isTracking == old(isTracking) && keyStart == old(keyStart)
    {
      if !Listening() || hasSentComplete {
        return;
      }
      var progress := if duration > 0.0 then watched / duration else 1.0;
      SendCompletion(watched, duration, progress, now);
    }

    /**
     * `updateDetection`: a detection with another key stops the tracker, adopts
     * the detection with a fresh state and starts again; the same key changes nothing.
     */
    method UpdateDetection(d: EpisodeInfo, videoFound: bool)
      requires Valid()
      modifies this
      ensures Valid()
      ensures TrackerKey(d) == old(lastEpisodeKey) ==>
        detection == old(detection) && hasSentComplete == old(hasSentComplete) && lastProgress == old(lastProgress)
        && hasVideo == old(hasVideo) && isTracking == old(isTracking) && keyStart == old(keyStart)
      ensures TrackerKey(d) != old(lastEpisodeKey) ==>
        detection == d && !hasSentComplete && lastProgress == 0.0 && keyStart == |outbox|
      // a tracker left tracking without a video cannot stop, so it does not start again either
      ensures TrackerKey(d) != old(lastEpisodeKey) && old(isTracking) && !old(hasVideo) ==> !hasVideo && isTracking
      ensures TrackerKey(d) != old(lastEpisodeKey) && !(old(isTracking) && !old(hasVideo)) ==>
        hasVideo == videoFound && isTracking == videoFound
      ensures lastEpisodeKey == TrackerKey(detection) && outbox == old(outbox)
    {
      var newKey := TrackerKey(d);
      if newKey != lastEpisodeKey {
        Stop();
        detection := d;
        lastProgress := 0.0;
        hasSentComplete := false;
        lastEpisodeKey := newKey;
        keyStart := |outbox|;
        Start(videoFound);
      }
    }
  }

  /** Two timeupdates past 80% and an ended event on the same episode send one completion. */
  method RepeatedCompletionSendsOnce(d: EpisodeInfo) returns (sent: seq<Completion>)
    ensures sent == [CompletionOf(d, 20.0, 24.0, 20.0 / 24.0, "t1")]
  {
    var t := new VideoTracker(d);
    t.Start(true);
    t.TimeUpdate(20.0, 24.0, "t1");
    t.TimeUpdate(22.0, 24.0, "t2");
    t.Ended(24.0, 24.0, "t3");
    sent := t.outbox;
  }
}
