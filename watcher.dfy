// The desktop watcher's polling state (apps/desktop/src/main/watcher.ts):
// each tick parses the media-player window titles, skips titles without a
// title or episode and the detection equal to the last one reported, and
// reports at most one detection. The process list and the timer are
// inputs here: a tick is a call of Poll with the window titles it saw.
module MediaWatcher {
  import opened Wrappers
  import opened FilenameParser

  /** A reported detection. */
  datatype Detection = Detection(title: string, episode: nat)

  /** The detection a parsed window title yields: only one with both a title and an episode counts. */
  function DetectionOf(parsed: ParsedName): (r: Option<Detection>)
    ensures r.Some? <==> parsed.title.Some? && parsed.episode.Some?
    ensures r.Some? ==> r.value.title == parsed.title.value && r.value.episode == parsed.episode.value
  {
    if parsed.title.Some? && parsed.episode.Some? then Some(Detection(parsed.title.value, parsed.episode.value))
    else None
  }

  /** The detection of every window title, in window order. */
  function Detections(windows: seq<string>): (ds: seq<Option<Detection>>)
    ensures |ds| == |windows|
  {
    if windows == [] then [] else [DetectionOf(ParseFilename(windows[0]))] + Detections(windows[1..])
  }

  /** The k-th detection is that of the k-th window title. */
  lemma {:induction false} DetectionAt(windows: seq<string>, k: nat)
    requires k < |windows|
    ensures Detections(windows)[k] == DetectionOf(ParseFilename(windows[k]))
  {
    if k > 0 {
      DetectionAt(windows[1..], k - 1);
    }
  }

  /** Every detection from a window title has a non-empty title and a positive episode. */
  lemma DetectionsAreProper(windows: seq<string>)
    ensures forall k :: 0 <= k < |windows| && Detections(windows)[k].Some? ==>
      Detections(windows)[k].value.title != [] && Detections(windows)[k].value.episode > 0
  {
    var ds := Detections(windows);
    forall k | 0 <= k < |windows| && ds[k].Some?
      ensures ds[k].value.title != [] && ds[k].value.episode > 0
    {
      DetectionAt(windows, k);
    }
  }

  /** Whether a window's detection d would be reported after `last`. */
  predicate Reportable(d: Option<Detection>, last: Option<Detection>) {
    d.Some? && d != last
  }

  /** Index of the first reportable detection at or after i. */
  function FirstReportable(ds: seq<Option<Detection>>, last: Option<Detection>, i: nat): (r: Option<nat>)
    requires i <= |ds|
    ensures r.Some? ==> i <= r.value < |ds| && Reportable(ds[r.value], last)
    ensures r.Some? ==> forall k :: i <= k < r.value ==> !Reportable(ds[k], last)
    ensures r.None? ==> forall k :: i <= k < |ds| ==> !Reportable(ds[k], last)
    decreases |ds| - i
  {
    if i == |ds| then None
    else if Reportable(ds[i], last) then Some(i)
    else FirstReportable(ds, last, i + 1)
  }

  /**
   * What one tick reports, given the windows' detections: the first one that
   * differs from the last report, or nothing when every window yields none
   * or the last one again.
   */
  function NextReport(ds: seq<Option<Detection>>, last: Option<Detection>): (r: Option<Detection>)
    ensures r.Some? ==> r != last && exists k :: 0 <= k < |ds| && ds[k] == r
    ensures r.Some? ==> exists k :: 0 <= k < |ds| && ds[k] == r && forall j :: 0 <= j < k ==> ds[j].None? || ds[j] == last
    ensures r.None? <==> forall k :: 0 <= k < |ds| ==> ds[k].None? || ds[k] == last
  {
    match FirstReportable(ds, last, 0)
    case None => None
    case Some(k) => ds[k]
  }

  /**
   * ds holds the detection of every window title. The quantifier fires only
   * where a title is actually parsed, which keeps the parser's definition out
   * of the proofs about the loop.
   */
  predicate Describes(windows: seq<string>, ds: seq<Option<Detection>>) {
    |ds| == |windows| &&
    forall k {:trigger ParseFilename(windows[k])} :: 0 <= k < |windows| ==> ds[k] == DetectionOf(ParseFilename(windows[k]))
  }

  lemma DetectionsDescribe(windows: seq<string>)
    ensures Describes(windows, Detections(windows))
  {
    forall k | 0 <= k < |windows|
      ensures Detections(windows)[k] == DetectionOf(ParseFilename(windows[k]))
    {
      DetectionAt(windows, k);
    }
  }

  /** Parses the i-th window title into its detection. */
  method DetectWindow(windows: seq<string>, i: nat, ghost ds: seq<Option<Detection>>) returns (d: Option<Detection>)
    requires i < |windows| && Describes(windows, ds)
    ensures d == ds[i]
  {
    var parsed := ParseAnimeFilename(windows[i]);
    if parsed.episode.None? || parsed.title.None? {
      return None;
    }
    d := Some(Detection(parsed.title.value, parsed.episode.value));
  }

  /** Appending a detection different from the last report keeps the no-repeat invariant. */
  lemma ReportKeepsValid(reported: seq<Detection>, last: Option<Detection>, d: Detection)
    requires reported == [] <==> last.None?
    requires reported != [] ==> last == Some(reported[|reported| - 1])
    requires forall i, j :: 0 <= i < j < |reported| && j == i + 1 ==> reported[i] != reported[j]
    requires last != Some(d)
    ensures forall i, j :: 0 <= i < j < |reported + [d]| && j == i + 1 ==> (reported + [d])[i] != (reported + [d])[j]
  {
  }

  class Watcher {
    /** `watcherInterval` is set. */
    var running: bool
    /** `lastDetectedEpisode`. */
    var lastDetected: Option<Detection>
    /** Every detection handed to the callback, in order. */
    var reported: seq<Detection>

    /** The last report is the remembered detection, and no detection is reported twice in a row. */
    ghost predicate Valid()
      reads this
    {
      (reported == [] <==> lastDetected.None?)
      && (reported != [] ==> lastDetected == Some(reported[|reported| - 1]))
      && forall i, j :: 0 <= i < j < |reported| && j == i + 1 ==> reported[i] != reported[j]
    }

    constructor()
      ensures Valid() && !running && lastDetected.None? && reported == []
    {
      running := false;
      lastDetected := None;
      reported := [];
    }

    /** `startPolling`: starts the timer unless it already runs. */
    method StartPolling()
      modifies this
      ensures running
      ensures lastDetected == old(lastDetected) && reported == old(reported)
    {
      if running {
        return;
      }
      running := true;
    }

    /** `stopWatcher`: stops the timer; the last detection is kept. */
    method StopWatcher()
      modifies this
      ensures !running
      ensures lastDetected == old(lastDetected) && reported == old(reported)
    {
      if running {
        running := false;
      }
    }

    /** One timer tick over the current media-player window titles. A stopped watcher does nothing. */
    method Poll(windows: seq<string>)
      requires Valid()
      modifies this
      ensures Valid() && running == old(running)
      ensures !old(running) ==> lastDetected == old(lastDetected) && reported == old(reported)
      ensures old(running) ==>
        match NextReport(Detections(windows), old(lastDetected))
        case None => lastDetected == old(lastDetected) && reported == old(reported)
        case Some(d) => lastDetected == Some(d) && reported == old(reported) + [d]
    {
      if !running {
        return;
      }
      DetectionsDescribe(windows);
      var found := ScanWindows(windows, lastDetected, Detections(windows));
      Record(found);
    }

    /** Hands a new detection to the callback and remembers it; without one nothing changes. */
    method Record(found: Option<Detection>)
      requires Valid()
      requires found.None? || found != lastDetected
      modifies this
      ensures Valid() && running == old(running)
      ensures found.None? ==> lastDetected == old(lastDetected) && reported == old(reported)
      ensures found.Some? ==> lastDetected == found && reported == old(reported) + [found.value]
    {
      if found.Some? {
        ReportKeepsValid(reported, lastDetected, found.value);
        lastDetected := found;
        reported := reported + [found.value];
      }
    }
  }

  /**
   * The loop of one tick: goes through the window titles in order, skipping
   * those without a detection and the one equal to the last report, and stops
   * at the first other detection.
   */
  method ScanWindows(windows: seq<string>, last: Option<Detection>, ghost ds: seq<Option<Detection>>) returns (found: Option<Detection>)
    requires Describes(windows, ds)
    ensures found == NextReport(ds, last)
  {
    var i := 0;
    while i < |windows|
      invariant 0 <= i <= |windows|
      invariant FirstReportable(ds, last, 0) == FirstReportable(ds, last, i)
    {
      var detected := DetectWindow(windows, i, ds);
      if detected.None? {
        i := i + 1;
        continue;
      }
      var d := detected.value;
      if last == Some(d) {
        i := i + 1;
        continue;
      }
      assert FirstReportable(ds, last, i) == Some(i);
      return Some(d);
    }
    assert FirstReportable(ds, last, 0).None?;
    return None;
  }

  /** Two different media windows open side by side are reported alternately, tick after tick. */
  lemma TwoWindowsAlternate(a: Detection, b: Detection)
    requires a != b
    ensures NextReport([Some(a), Some(b)], Some(a)) == Some(b)
    ensures NextReport([Some(a), Some(b)], Some(b)) == Some(a)
  {
    var ds := [Some(a), Some(b)];
    assert FirstReportable(ds, Some(a), 1) == Some(1);
    assert FirstReportable(ds, Some(a), 0) == Some(1);
    assert FirstReportable(ds, Some(b), 0) == Some(0);
  }

  /** A window whose detection was the last one reported is not reported again. */
  lemma SameWindowSuppressed(d: Detection)
    ensures NextReport([Some(d)], Some(d)).None?
  {
  }
}
