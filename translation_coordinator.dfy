/** The translation coordinator
    (src/entrypoints/subtitles.content/translation-coordinator.ts): on every
    tick of the video clock it picks a batch of untranslated fragments near
    the playback position and translates it, one batch at a time, moving
    each start time from "translating" to "translated" or "failed".

    The video time, the fragment list `getFragments()` returns, whether a
    video element exists, and the segmentation pipeline's status are method
    parameters. `translateNearby` is split into the selection step and a
    completion step that receives the configuration and the settled
    per-fragment outcomes `translateSubtitles` works from. The callbacks
    `onTranslated` and `onStateChange` append to an event log; calls into
    the segmentation pipeline are returned as flags for the caller to act on. */
module TranslationCoordinators {
  import opened Wrappers
  import opened SubtitleTypes
  import opened Translator

  /** How far behind the playback position a batch reaches. */
  const LookBehindMs := 5000

  datatype CoordinatorEvent =
    | StateChanged(state: DisplayState, message: Option<Message>)
    | Translated(fragments: seq<Fragment>)

  /** What the tick reads of the segmentation pipeline. */
  datatype PipelineView = PipelineView(isRunning: bool, hasUnprocessedChunks: bool, processedFragments: seq<Fragment>)

  predicate Qualifies(f: Fragment, excluded: set<int>, lo: int, hi: int) {
    f.start !in excluded && lo <= f.start <= hi
  }

  /** The `filter` of `translateNearby`: the fragments, in order, whose start
      is in none of the three sets and lies in [lo, hi]. */
  function Eligible(fragments: seq<Fragment>, excluded: set<int>, lo: int, hi: int): (r: seq<Fragment>)
    ensures |r| <= |fragments|
    ensures forall i :: 0 <= i < |r| ==> Qualifies(r[i], excluded, lo, hi) && r[i] in fragments
    ensures forall f :: f in fragments && Qualifies(f, excluded, lo, hi) ==> f in r
    decreases |fragments|
  {
    if |fragments| == 0 then []
    else
      var rest := Eligible(fragments[1..], excluded, lo, hi);
      assert forall f :: f in fragments && f != fragments[0] ==> f in fragments[1..];
      if Qualifies(fragments[0], excluded, lo, hi) then [fragments[0]] + rest else rest
  }

  /** The filter keeps the list's order: filtering two parts filters the whole. */
  lemma {:induction false} EligibleConcat(a: seq<Fragment>, b: seq<Fragment>, excluded: set<int>, lo: int, hi: int)
    ensures Eligible(a + b, excluded, lo, hi) == Eligible(a, excluded, lo, hi) + Eligible(b, excluded, lo, hi)
    decreases |a|
  {
    if |a| == 0 {
      assert a + b == b;
    } else {
      assert (a + b)[1..] == a[1..] + b;
      EligibleConcat(a[1..], b, excluded, lo, hi);
    }
  }

  /** The batch: the first `batchSize` eligible fragments. */
  function SelectBatch(fragments: seq<Fragment>, timeMs: int, excluded: set<int>, lookAheadMs: int, batchSize: nat): (r: seq<Fragment>)
    ensures |r| <= batchSize
    ensures forall i :: 0 <= i < |r| ==> Qualifies(r[i], excluded, timeMs - LookBehindMs, timeMs + lookAheadMs) && r[i] in fragments
    ensures |r| < batchSize ==>
      forall f :: f in fragments && Qualifies(f, excluded, timeMs - LookBehindMs, timeMs + lookAheadMs) ==> f in r
    ensures |r| <= |Eligible(fragments, excluded, timeMs - LookBehindMs, timeMs + lookAheadMs)|
    ensures r == Eligible(fragments, excluded, timeMs - LookBehindMs, timeMs + lookAheadMs)[..|r|]
    ensures var n := |Eligible(fragments, excluded, timeMs - LookBehindMs, timeMs + lookAheadMs)|;
      |r| == (if n <= batchSize then n else batchSize)
    ensures r == [] <==> Eligible(fragments, excluded, timeMs - LookBehindMs, timeMs + lookAheadMs) == [] || batchSize == 0
  {
    var e := Eligible(fragments, excluded, timeMs - LookBehindMs, timeMs + lookAheadMs);
    if |e| <= batchSize then e else e[..batchSize]
  }

  predicate Disjoint3(a: set<int>, b: set<int>, c: set<int>) {
    a !! b && b !! c && a !! c
  }

  /** The fragments of a batch with their own text as translation, the
      fallback shown in translation-only mode. */
  function TextAsTranslation(batch: seq<Fragment>): (r: seq<Fragment>)
    ensures |r| == |batch|
    ensures forall i :: 0 <= i < |r| ==> r[i] == batch[i].(translation := Some(batch[i].text))
    decreases |batch|
  {
    if |batch| == 0 then [] else [batch[0].(translation := Some(batch[0].text))] + TextAsTranslation(batch[1..])
  }

  /** Whether the heartbeat restarts the pipeline. */
  predicate HeartbeatRestarts(pipeline: Option<PipelineView>) {
    pipeline.Some? && !pipeline.value.isRunning && pipeline.value.hasUnprocessedChunks
  }

  /** Whether 'segmenting' is shown: no fragment covers the time, or the one
      that does is not translated yet. */
  predicate ShowsSegmenting(processed: seq<Fragment>, timeMs: int, translated: set<int>) {
    var k := FirstCovering(processed, timeMs);
    k == -1 || processed[k].start !in translated
  }

  /** What the heartbeat reports: 'segmenting' when it restarts the
      pipeline and shows that state, nothing otherwise. */
  function HeartbeatEvents(pipeline: Option<PipelineView>, timeMs: int, translated: set<int>): seq<CoordinatorEvent> {
    if HeartbeatRestarts(pipeline) && ShowsSegmenting(pipeline.value.processedFragments, timeMs, translated)
    then [StateChanged(Segmenting, None)]
    else []
  }

  /** What the selection reports: 'processing' when a batch was chosen and
      the fragment on screen is not translated yet, nothing otherwise. */
  function NearbyEvents(fragments: seq<Fragment>, timeMs: int, batch: seq<Fragment>, translated: set<int>): seq<CoordinatorEvent> {
    var k := FirstCovering(fragments, timeMs);
    if batch != [] && k >= 0 && fragments[k].start !in translated then [StateChanged(Processing, None)] else []
  }

  class TranslationCoordinator {
    const lookAheadMs: int
    const batchSize: nat

    var translatingStarts: set<int>
    var translatedStarts: set<int>
    var failedStarts: set<int>
    var isTranslating: bool
    var videoContext: VideoContext
    /** The batch whose translation is outstanding, if any. */
    var inFlight: seq<Fragment>
    /** Whether the tick listeners are attached to the video. */
    var listening: bool
    /** The calls made to `onTranslated` and `onStateChange`, oldest first. */
    var events: seq<CoordinatorEvent>

    /** The three sets are pairwise disjoint, and "translating" holds exactly
        the starts of the batch in flight, which exists while the guard is set. */
    predicate Valid()
      reads this
    {
      Disjoint3(translatingStarts, translatedStarts, failedStarts)
      && (isTranslating ==> translatingStarts == Starts(inFlight) && inFlight != [])
      && (!isTranslating ==> translatingStarts == {} && inFlight == [])
    }

    /** The batch `translateNearby` would choose now: the first `batchSize`
        fragments near `timeMs` that are in none of the three sets. */
    function Batch(fragments: seq<Fragment>, timeMs: int): seq<Fragment>
      reads this
    {
      SelectBatch(fragments, timeMs, translatingStarts + translatedStarts + failedStarts, lookAheadMs, batchSize)
    }

    constructor (lookAheadMs: int, batchSize: nat)
      requires lookAheadMs > 0 && batchSize > 0
      ensures Valid()
      ensures this.lookAheadMs == lookAheadMs && this.batchSize == batchSize
      ensures translatingStarts == {} && translatedStarts == {} && failedStarts == {}
      ensures !isTranslating && videoContext == VideoContext("", "") && !listening && events == []
    {
      this.lookAheadMs := lookAheadMs;
      this.batchSize := batchSize;
      translatingStarts := {};
      translatedStarts := {};
      failedStarts := {};
      isTranslating := false;
      videoContext := VideoContext("", "");
      inFlight := [];
      listening := false;
      events := [];
    }

    /** `reset`: all three sets empty, the guard cleared, the context blank.
        A batch still in flight is abandoned. */
    method Reset()
      modifies this
      ensures Valid()
      ensures translatingStarts == {} && translatedStarts == {} && failedStarts == {}
      ensures !isTranslating && videoContext == VideoContext("", "")
      ensures listening == old(listening) && events == old(events)
    {
      translatingStarts := {};
      translatedStarts := {};
      failedStarts := {};
      isTranslating := false;
      inFlight := [];
      videoContext := VideoContext("", "");
    }

    /** `clearFailed`: only the failed set changes. */
    method ClearFailed()
      requires Valid()
      modifies this
      ensures Valid()
      ensures failedStarts == {}
      ensures translatingStarts == old(translatingStarts) && translatedStarts == old(translatedStarts)
      ensures isTranslating == old(isTranslating) && inFlight == old(inFlight)
      ensures videoContext == old(videoContext) && listening == old(listening) && events == old(events)
    {
      failedStarts := {};
    }

    /** `start`: take the video context when one is given; with a video,
        attach the tick listeners, start the pipeline if there is one
        (`pipeline` is its status once started) and run a first tick. */
    method Start(context: Option<VideoContext>, hasVideo: bool, timeMs: int, fragments: seq<Fragment>, pipeline: Option<PipelineView>)
      returns (startPipeline: bool, restart: bool)
      requires Valid()
      modifies this
      ensures Valid()
      ensures videoContext == (if context.Some? then context.value else old(videoContext))
      ensures listening == (hasVideo || old(listening))
      ensures startPipeline == (hasVideo && pipeline.Some?)
      ensures restart == (hasVideo && HeartbeatRestarts(pipeline))
      ensures !hasVideo ==>
        events == old(events) && isTranslating == old(isTranslating)
        && translatingStarts == old(translatingStarts) && inFlight == old(inFlight)
      ensures old(events) <= events
      ensures hasVideo ==>
        events == old(events) + HeartbeatEvents(pipeline, timeMs, old(translatedStarts))
                  + (if old(isTranslating) then [] else NearbyEvents(fragments, timeMs, old(Batch(fragments, timeMs)), old(translatedStarts)))
      ensures hasVideo && old(isTranslating) ==>
        translatingStarts == old(translatingStarts) && isTranslating && inFlight == old(inFlight)
      ensures hasVideo && !old(isTranslating) ==>
        var batch := old(Batch(fragments, timeMs));
        (batch == [] ==> !isTranslating && translatingStarts == {})
        && (batch != [] ==> isTranslating && inFlight == batch && translatingStarts == Starts(batch))
      ensures translatedStarts == old(translatedStarts) && failedStarts == old(failedStarts)
    {
      if context.Some? {
        videoContext := context.value;
      }
      startPipeline, restart := false, false;
      if !hasVideo {
        return;
      }
      listening := true;
      startPipeline := pipeline.Some?;
      restart := HandleTranslationTick(hasVideo, timeMs, fragments, pipeline);
    }

    /** `stop`: with a video, detach the listeners and stop the pipeline. */
    method Stop(hasVideo: bool) returns (stopPipeline: bool)
      requires Valid()
      modifies this
      ensures Valid()
      ensures listening == (old(listening) && !hasVideo) && stopPipeline == hasVideo
      ensures translatingStarts == old(translatingStarts) && translatedStarts == old(translatedStarts)
      ensures failedStarts == old(failedStarts) && isTranslating == old(isTranslating) && inFlight == old(inFlight)
      ensures videoContext == old(videoContext) && events == old(events)
    {
      stopPipeline := false;
      if hasVideo {
        listening := false;
        stopPipeline := true;
      }
    }

    /** The heartbeat at the start of a tick: when the pipeline is idle with
        chunks left, show 'segmenting' unless the fragment on screen is
        already translated, and ask for a restart. */
    method Heartbeat(timeMs: int, pipeline: Option<PipelineView>) returns (restart: bool)
      requires Valid()
      modifies this
      ensures Valid()
      ensures restart == HeartbeatRestarts(pipeline)
      ensures restart && ShowsSegmenting(pipeline.value.processedFragments, timeMs, translatedStarts) ==>
        events == old(events) + [StateChanged(Segmenting, None)]
      ensures !(restart && ShowsSegmenting(pipeline.value.processedFragments, timeMs, translatedStarts)) ==>
        events == old(events)
      ensures translatingStarts == old(translatingStarts) && translatedStarts == old(translatedStarts)
      ensures failedStarts == old(failedStarts) && isTranslating == old(isTranslating) && inFlight == old(inFlight)
      ensures videoContext == old(videoContext) && listening == old(listening)
    {
      restart := false;
      if pipeline.Some? && !pipeline.value.isRunning && pipeline.value.hasUnprocessedChunks {
        var fragments := pipeline.value.processedFragments;
        var k := FirstCovering(fragments, timeMs);
        if k == -1 || fragments[k].start !in translatedStarts {
          events := events + [StateChanged(Segmenting, None)];
        }
        restart := true;
      }
    }

    /** `handleTranslationTick`: nothing without a video; otherwise the
        heartbeat, then, unless a batch is outstanding, `translateNearby`. */
    method HandleTranslationTick(hasVideo: bool, timeMs: int, fragments: seq<Fragment>, pipeline: Option<PipelineView>)
      returns (restart: bool)
      requires Valid()
      modifies this
      ensures Valid()
      ensures restart == (hasVideo && HeartbeatRestarts(pipeline))
      ensures !hasVideo ==>
        translatingStarts == old(translatingStarts) && isTranslating == old(isTranslating) && events == old(events)
      ensures old(events) <= events
      ensures hasVideo ==>
        events == old(events) + HeartbeatEvents(pipeline, timeMs, old(translatedStarts))
                  + (if old(isTranslating) then [] else NearbyEvents(fragments, timeMs, old(Batch(fragments, timeMs)), old(translatedStarts)))
      ensures old(isTranslating) ==>
        translatingStarts == old(translatingStarts) && isTranslating && inFlight == old(inFlight)
      ensures hasVideo && !old(isTranslating) ==>
        var batch := old(Batch(fragments, timeMs));
        (batch == [] ==> !isTranslating && translatingStarts == {})
        && (batch != [] ==> isTranslating && inFlight == batch && translatingStarts == Starts(batch))
      ensures translatedStarts == old(translatedStarts) && failedStarts == old(failedStarts)
      ensures videoContext == old(videoContext) && listening == old(listening)
    {
      if !hasVideo {
        return false;
      }
      restart := Heartbeat(timeMs, pipeline);
      if isTranslating {
        return;
      }
      TranslateNearby(timeMs, fragments);
    }

    /** The selection half of `translateNearby`: choose the batch; if it is
        not empty, show 'processing' when the fragment on screen is not yet
        translated, set the guard and mark the batch as translating. */
    method TranslateNearby(timeMs: int, fragments: seq<Fragment>)
      requires Valid() && !isTranslating
      modifies this
      ensures Valid()
      ensures var batch := SelectBatch(fragments, timeMs, old(translatingStarts) + old(translatedStarts) + old(failedStarts), lookAheadMs, batchSize);
        (batch == [] ==> !isTranslating && translatingStarts == {} && events == old(events))
        && (batch != [] ==>
              isTranslating && inFlight == batch && translatingStarts == Starts(batch)
              && var k := FirstCovering(fragments, timeMs);
                 events == old(events) + (if k >= 0 && fragments[k].start !in translatedStarts then [StateChanged(Processing, None)] else []))
      ensures translatedStarts == old(translatedStarts) && failedStarts == old(failedStarts)
      ensures videoContext == old(videoContext) && listening == old(listening)
    {
      var excluded := translatingStarts + translatedStarts + failedStarts;
      var batch := SelectBatch(fragments, timeMs, excluded, lookAheadMs, batchSize);
      if |batch| == 0 {
        return;
      }
      var k := FirstCovering(fragments, timeMs);
      if k >= 0 && fragments[k].start !in translatedStarts {
        events := events + [StateChanged(Processing, None)];
      }
      isTranslating := true;
      inFlight := batch;
      ghost var logged := events;
      var i := 0;
      while i < |batch|
        invariant 0 <= i <= |batch|
        invariant translatingStarts == Starts(batch[..i])
        invariant translatedStarts == old(translatedStarts) && failedStarts == old(failedStarts)
        invariant isTranslating && inFlight == batch && events == logged
        invariant videoContext == old(videoContext) && listening == old(listening)
      {
        assert Starts(batch[..i + 1]) == Starts(batch[..i]) + {batch[i].start} by {
          assert batch[..i + 1] == batch[..i] + [batch[i]];
        }
        translatingStarts := translatingStarts + {batch[i].start};
        i := i + 1;
      }
      assert batch[..i] == batch;
      SelectedStartsFree(excluded, batch);
    }

    /** The completion half of `translateNearby`, with the configuration
        `translateSubtitles` reads and the settled outcome of each request;
        `translationOnly` is whether the display mode read on failure is
        translation-only. Either way the guard is cleared. */
    method CompleteTranslation(config: Option<TranslateConfig>, results: seq<Settled>, translationOnly: bool)
      requires Valid() && isTranslating && |results| == |inFlight|
      modifies this
      ensures Valid()
      ensures !isTranslating && translatingStarts == {}
      ensures var outcome := TranslateSubtitles(old(inFlight), config, results);
        (outcome.Success? ==>
           translatedStarts == old(translatedStarts) + Starts(old(inFlight)) && failedStarts == old(failedStarts)
           && events == old(events) + [Translated(outcome.value), StateChanged(Idle, None)])
        && (outcome.Failure? ==>
           failedStarts == old(failedStarts) + Starts(old(inFlight)) && translatedStarts == old(translatedStarts)
           && events == old(events)
              + (if translationOnly then [Translated(TextAsTranslation(old(inFlight)))] else [])
              + [StateChanged(Error, Some(outcome.error))])
      ensures videoContext == old(videoContext) && listening == old(listening)
    {
      var outcome := TranslateSubtitles(inFlight, config, results);
      if outcome.Success? {
        TranslateSubtitlesStarts(inFlight, config, results);
        CompleteSuccess(outcome.value);
      } else {
        CompleteFailure(outcome.error, translationOnly);
      }
    }

    /** Success: every returned start moves from translating to translated,
        the fragments are delivered, then 'idle' is shown. */
    method CompleteSuccess(translated: seq<Fragment>)
      requires Valid() && isTranslating && Starts(translated) == Starts(inFlight)
      modifies this
      ensures Valid()
      ensures !isTranslating && translatingStarts == {}
      ensures translatedStarts == old(translatedStarts) + Starts(old(inFlight)) && failedStarts == old(failedStarts)
      ensures events == old(events) + [Translated(translated), StateChanged(Idle, None)]
      ensures videoContext == old(videoContext) && listening == old(listening)
    {
      var i := 0;
      while i < |translated|
        invariant 0 <= i <= |translated|
        invariant translatingStarts == old(translatingStarts) - Starts(translated[..i])
        invariant translatedStarts == old(translatedStarts) + Starts(translated[..i])
        invariant failedStarts == old(failedStarts) && events == old(events)
        invariant isTranslating && inFlight == old(inFlight)
        invariant videoContext == old(videoContext) && listening == old(listening)
      {
        assert Starts(translated[..i + 1]) == Starts(translated[..i]) + {translated[i].start} by {
          assert translated[..i + 1] == translated[..i] + [translated[i]];
        }
        translatingStarts := translatingStarts - {translated[i].start};
        translatedStarts := translatedStarts + {translated[i].start};
        i := i + 1;
      }
      assert translated[..i] == translated;
      events := events + [Translated(translated)];
      events := events + [StateChanged(Idle, None)];
      isTranslating := false;
      inFlight := [];
    }

    /** Failure: every batch start moves from translating to failed, the
        batch is delivered with its text as translation in translation-only
        mode, then 'error' is shown with the message. */
    method CompleteFailure(message: Message, translationOnly: bool)
      requires Valid() && isTranslating
      modifies this
      ensures Valid()
      ensures !isTranslating && translatingStarts == {}
      ensures failedStarts == old(failedStarts) + Starts(old(inFlight)) && translatedStarts == old(translatedStarts)
      ensures events == old(events)
        + (if translationOnly then [Translated(TextAsTranslation(old(inFlight)))] else [])
        + [StateChanged(Error, Some(message))]
      ensures videoContext == old(videoContext) && listening == old(listening)
    {
      var batch := inFlight;
      var i := 0;
      while i < |batch|
        invariant 0 <= i <= |batch|
        invariant translatingStarts == old(translatingStarts) - Starts(batch[..i])
        invariant failedStarts == old(failedStarts) + Starts(batch[..i])
        invariant translatedStarts == old(translatedStarts) && events == old(events)
        invariant isTranslating && inFlight == batch
        invariant videoContext == old(videoContext) && listening == old(listening)
      {
        assert Starts(batch[..i + 1]) == Starts(batch[..i]) + {batch[i].start} by {
          assert batch[..i + 1] == batch[..i] + [batch[i]];
        }
        translatingStarts := translatingStarts - {batch[i].start};
        failedStarts := failedStarts + {batch[i].start};
        i := i + 1;
      }
      assert batch[..i] == batch;
      if translationOnly {
        events := events + [Translated(TextAsTranslation(batch))];
      }
      events := events + [StateChanged(Error, Some(message))];
      isTranslating := false;
      inFlight := [];
    }
  }

  /** The starts of a selected batch are in none of the excluded sets. */
  lemma {:induction false} SelectedStartsFree(excluded: set<int>, batch: seq<Fragment>)
    requires forall i :: 0 <= i < |batch| ==> batch[i].start !in excluded
    ensures Starts(batch) !! excluded
  {
    forall s | s in Starts(batch) ensures s !in excluded {
      var i :| 0 <= i < |batch| && batch[i].start == s;
    }
  }
}
