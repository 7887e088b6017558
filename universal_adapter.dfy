/** The page adapter (src/entrypoints/subtitles.content/universal-adapter.ts):
    it owns the scheduler, the subtitle fetcher, the segmentation pipeline
    and the translation coordinator, and wires them together when the user
    toggles translated subtitles, when a fetch completes and when the page
    navigates to another video.

    The page is described by parameters: the video id `getVideoId` returns,
    whether a video element exists, the video clock in milliseconds and the
    document title. The native-caption style element, the subtitle position
    store and the error toasts are fields. `startTranslation` awaits the
    fetch, so it is split into `StartTranslation`, which runs up to the
    fetch, and `CompleteFetch`, which receives the fetch's outcome. The
    coordinator's `onStateChange` and `onTranslated` callbacks are the
    events it logs; the adapter replays the new ones into the scheduler
    after every call. Starting the pipeline's loop is left to the caller,
    which is told so by a returned flag. */
module UniversalAdapters {
  import opened Wrappers
  import opened Strings
  import opened SubtitleTypes
  import opened Translator
  import opened SubtitlesSchedulers
  import opened TranslationCoordinators
  import opened SegmentationPipelines
  import opened YoutubeFetchers

  datatype SubtitlePosition = SubtitlePosition(percent: int, anchor: string)

  /** `DEFAULT_SUBTITLE_POSITION`. */
  const DefaultSubtitlePosition := SubtitlePosition(10, "bottom")

  /** `originalSubtitles.map(f => f.text).join('')`: the subtitle context
      handed to the translator. */
  function ConcatTexts(fragments: seq<Fragment>): (r: string)
    ensures |fragments| == 0 ==> r == ""
    ensures |fragments| > 0 ==> IsPrefix(fragments[0].text, r)
    decreases |fragments|
  {
    if |fragments| == 0 then "" else fragments[0].text + ConcatTexts(fragments[1..])
  }

  lemma {:induction false} ConcatTextsAppend(a: seq<Fragment>, b: seq<Fragment>)
    ensures ConcatTexts(a + b) == ConcatTexts(a) + ConcatTexts(b)
    decreases |a|
  {
    if |a| == 0 {
      assert a + b == b;
    } else {
      assert (a + b)[1..] == a[1..] + b;
      ConcatTextsAppend(a[1..], b);
    }
  }

  /** Every fragment's text occurs in the subtitle context, at the offset
      of the texts before it. */
  lemma {:induction false} ConcatTextsHoldsEveryText(fragments: seq<Fragment>, i: nat)
    requires i < |fragments|
    ensures Contains(ConcatTexts(fragments), fragments[i].text)
  {
    var before := ConcatTexts(fragments[..i]);
    assert fragments == fragments[..i] + fragments[i..];
    ConcatTextsAppend(fragments[..i], fragments[i..]);
    assert fragments[i..][1..] == fragments[i + 1..];
    var whole := ConcatTexts(fragments);
    var text := fragments[i].text;
    assert whole == before + (text + ConcatTexts(fragments[i + 1..]));
    assert whole[|before|..|before| + |text|] == text;
    ContainsAt(whole, text, |before|);
  }

  /** What `subtitlesFetcher.fetch()` rejects with: the error's message, and
      whether the error is a `ToastSubtitlesError`. */
  datatype FetchFailure = FetchFailure(message: Message, isToast: bool)

  /** The display state after the scheduler replays `events` from `initial`:
      the last reported state, or `initial` when none was reported. */
  function StateAfter(initial: StateData, events: seq<CoordinatorEvent>): (r: StateData)
    ensures r == initial || exists k :: 0 <= k < |events| && events[k] == StateChanged(r.state, r.message)
    ensures (forall k :: 0 <= k < |events| ==> !events[k].StateChanged?) ==> r == initial
    decreases |events|
  {
    if |events| == 0 then initial
    else
      var last := events[|events| - 1];
      if last.StateChanged? then StateData(last.state, last.message)
      else StateAfter(initial, events[..|events| - 1])
  }

  /** A replay that ends with a reported state ends in that state, whatever
      came before. */
  lemma {:induction false} StateAfterLastReport(initial: StateData, events: seq<CoordinatorEvent>, tail: seq<CoordinatorEvent>, state: DisplayState, message: Option<Message>)
    requires forall k :: 0 <= k < |tail| ==> !tail[k].StateChanged?
    ensures StateAfter(initial, events + [StateChanged(state, message)] + tail) == StateData(state, message)
    decreases |tail|
  {
    var all := events + [StateChanged(state, message)] + tail;
    if |tail| == 0 {
      assert all[|all| - 1] == StateChanged(state, message);
    } else {
      var shorter := tail[..|tail| - 1];
      assert all[..|all| - 1] == events + [StateChanged(state, message)] + shorter;
      assert all[|all| - 1] == tail[|tail| - 1];
      StateAfterLastReport(initial, events, shorter, state, message);
    }
  }

  /** What the scheduler's `destroy` path leaves: reset to idle and stopped. */
  predicate Destroyed(s: SubtitlesScheduler)
    reads s
  {
    s.currentState == StateData(Idle, None) && s.stateStore.None? && s.errorAutoHideDeadline.None?
    && s.subtitles == [] && s.currentIndex == -1 && s.currentSubtitle.None?
    && !s.isActive && !s.visible && !s.listening
  }

  /** What the scheduler shows of its subtitles: the list, the index of the
      one at the clock it last saw, that clock, the subtitle on screen and
      how often the subtitle store was written. */
  datatype ShownSubtitles = ShownSubtitles(
    subtitles: seq<Fragment>, currentIndex: int, currentTimeMs: int, currentSubtitle: Option<Fragment>, writes: nat)
  {
    predicate Indexed() {
      -1 <= currentIndex < |subtitles|
    }
  }

  function Shown(s: SubtitlesScheduler): (r: ShownSubtitles)
    reads s
  {
    ShownSubtitles(s.subtitles, s.currentIndex, s.currentTimeMs, s.currentSubtitle, s.currentSubtitleWrites)
  }

  /** `supplementSubtitles(incoming)` at `timeMs`: nothing for an empty
      batch; otherwise the merged, sorted list, the subtitle at `timeMs`,
      and a store write when that subtitle moved and another when the batch
      translated the one on screen. */
  function Supplemented(v: ShownSubtitles, incoming: seq<Fragment>, timeMs: int): (r: ShownSubtitles)
    requires v.Indexed()
    ensures r.Indexed()
  {
    if incoming == [] then v
    else
      var list := SortByStart(Merged(v.subtitles, ExistingMap(v.subtitles), incoming));
      var index := FirstCovering(list, timeMs);
      var touched := TouchesCurrent(ExistingMap(v.subtitles), incoming, CurrentAt(v.subtitles, v.currentIndex));
      var moved := index != v.currentIndex;
      ShownSubtitles(list, index, timeMs, if moved || touched then CurrentAt(list, index) else v.currentSubtitle,
                     v.writes + (if moved then 1 else 0) + (if touched then 1 else 0))
  }

  /** The scheduler's subtitles after it receives the translated batches of
      `events`, oldest first, at `timeMs`; state changes leave them alone. */
  function ShownAfter(v: ShownSubtitles, events: seq<CoordinatorEvent>, timeMs: int): (r: ShownSubtitles)
    requires v.Indexed()
    ensures r.Indexed()
    decreases |events|
  {
    if |events| == 0 then v
    else
      var before := ShownAfter(v, events[..|events| - 1], timeMs);
      match events[|events| - 1]
      case StateChanged(_, _) => before
      case Translated(fragments) => Supplemented(before, fragments, timeMs)
  }

  /** A replay without translated batches leaves the subtitles as they were. */
  lemma {:induction false} ShownAfterStateChangesOnly(v: ShownSubtitles, events: seq<CoordinatorEvent>, timeMs: int)
    requires v.Indexed()
    requires forall k :: 0 <= k < |events| ==> events[k].StateChanged?
    ensures ShownAfter(v, events, timeMs) == v
    decreases |events|
  {
    if |events| > 0 {
      ShownAfterStateChangesOnly(v, events[..|events| - 1], timeMs);
    }
  }

  /** Replaying two runs of events one after the other is replaying both at once. */
  lemma {:induction false} ShownAfterConcat(v: ShownSubtitles, a: seq<CoordinatorEvent>, b: seq<CoordinatorEvent>, timeMs: int)
    requires v.Indexed()
    ensures ShownAfter(v, a + b, timeMs) == ShownAfter(ShownAfter(v, a, timeMs), b, timeMs)
    decreases |b|
  {
    if |b| == 0 {
      assert a + b == a;
    } else {
      assert (a + b)[..|a + b| - 1] == a + b[..|b| - 1];
      ShownAfterConcat(v, a, b[..|b| - 1], timeMs);
    }
  }

  /** The scheduler receives `events` in order: a state change is
      `setState`, a translated batch is `supplementSubtitles` at `timeMs`. */
  method Replay(s: SubtitlesScheduler, events: seq<CoordinatorEvent>, timeMs: int)
    requires s.Valid()
    modifies s
    ensures s.Valid()
    ensures s.currentState == StateAfter(old(s.currentState), events)
    ensures Shown(s) == ShownAfter(old(Shown(s)), events, timeMs)
    ensures s.isActive == old(s.isActive) && s.visible == old(s.visible) && s.listening == old(s.listening)
  {
    var k := 0;
    while k < |events|
      invariant 0 <= k <= |events|
      invariant s.Valid()
      invariant s.currentState == StateAfter(old(s.currentState), events[..k])
      invariant Shown(s) == ShownAfter(old(Shown(s)), events[..k], timeMs)
      invariant s.isActive == old(s.isActive) && s.visible == old(s.visible) && s.listening == old(s.listening)
    {
      assert events[..k + 1][..k] == events[..k];
      match events[k] {
        case StateChanged(state, message) =>
          s.SetState(state, message);
        case Translated(fragments) =>
          s.SupplementSubtitles(fragments, timeMs);
      }
      k := k + 1;
    }
    assert events[..k] == events;
  }

  /** `new TranslationCoordinator(...)` followed by its `start` with
      `context`. Nothing is translated, translating or failed yet, so with a
      video the first tick picks the first `batchSize` fragments near
      `timeMs`, and the started pipeline asks for no restart. */
  method StartNew(lookAheadMs: int, batchSize: nat, context: VideoContext, hasVideo: bool, timeMs: int,
                  fragments: seq<Fragment>, pipeline: Option<PipelineView>)
    returns (c: TranslationCoordinator, startPipeline: bool)
    requires lookAheadMs > 0 && batchSize > 0 && !HeartbeatRestarts(pipeline)
    ensures fresh(c) && c.Valid()
    ensures c.lookAheadMs == lookAheadMs && c.batchSize == batchSize
    ensures c.videoContext == context && c.listening == hasVideo && c.translatedStarts == {} && c.failedStarts == {}
    ensures startPipeline == (hasVideo && pipeline.Some?)
    ensures var batch := if hasVideo then SelectBatch(fragments, timeMs, {}, lookAheadMs, batchSize) else [];
      c.events == NearbyEvents(fragments, timeMs, batch, {})
      && (batch == [] ==> !c.isTranslating)
      && (batch != [] ==> c.isTranslating && c.inFlight == batch && c.translatingStarts == Starts(batch))
  {
    c := new TranslationCoordinator(lookAheadMs, batchSize);
    assert c.translatingStarts + c.translatedStarts + c.failedStarts == {};
    var restart;
    startPipeline, restart := c.Start(Some(context), hasVideo, timeMs, fragments, pipeline);
  }

  /** `start` without a new context on a coordinator whose failed starts
      were cleared: with a video and no batch outstanding, the first tick
      excludes only the translated starts, and the started pipeline asks for
      no restart. */
  method Resume(c: TranslationCoordinator, hasVideo: bool, timeMs: int, fragments: seq<Fragment>, pipeline: Option<PipelineView>)
    returns (startPipeline: bool)
    requires c.Valid() && c.failedStarts == {} && !HeartbeatRestarts(pipeline)
    modifies c
    ensures c.Valid()
    ensures c.failedStarts == {} && c.translatedStarts == old(c.translatedStarts) && c.videoContext == old(c.videoContext)
    ensures c.listening == (hasVideo || old(c.listening)) && startPipeline == (hasVideo && pipeline.Some?)
    ensures !hasVideo || old(c.isTranslating) ==>
      c.isTranslating == old(c.isTranslating) && c.inFlight == old(c.inFlight)
      && c.translatingStarts == old(c.translatingStarts) && c.events == old(c.events)
    ensures hasVideo && !old(c.isTranslating) ==>
      var batch := SelectBatch(fragments, timeMs, old(c.translatedStarts), c.lookAheadMs, c.batchSize);
      c.events == old(c.events) + NearbyEvents(fragments, timeMs, batch, old(c.translatedStarts))
      && (batch == [] ==> !c.isTranslating)
      && (batch != [] ==> c.isTranslating && c.inFlight == batch && c.translatingStarts == Starts(batch))
  {
    assert !c.isTranslating ==> c.translatingStarts + c.translatedStarts + c.failedStarts == c.translatedStarts;
    var restart;
    startPipeline, restart := c.Start(None, hasVideo, timeMs, fragments, pipeline);
  }

  /** The adapter's own fields, to state what a method leaves alone. */
  datatype AdapterFields = AdapterFields(
    scheduler: SubtitlesScheduler?, coordinator: TranslationCoordinator?, pipeline: SegmentationPipeline?,
    originalSubtitles: seq<Fragment>, processedFragments: seq<Fragment>, cachedVideoId: Option<string>,
    isNativeSubtitlesHidden: bool, hideStylePresent: bool, hideStyleInsertions: nat,
    position: SubtitlePosition, toasts: seq<Message>)

  class UniversalVideoAdapter {
    /** The look-ahead and batch size of every coordinator, and the
        look-ahead of every pipeline, the adapter creates. */
    const lookAheadMs: int
    const batchSize: nat
    const processLookAheadMs: int
    const fetcher: YoutubeSubtitlesFetcher

    var scheduler: SubtitlesScheduler?
    var coordinator: TranslationCoordinator?
    var pipeline: SegmentationPipeline?
    var originalSubtitles: seq<Fragment>
    /** The fragments of the path without AI segmentation. */
    var processedFragments: seq<Fragment>
    var cachedVideoId: Option<string>
    var isNativeSubtitlesHidden: bool

    // The page state the adapter writes.
    /** Whether the document holds an element with id
        `read-frog-hide-native-captions`. */
    var hideStylePresent: bool
    /** How many such style elements the adapter has appended. */
    var hideStyleInsertions: nat
    /** The subtitle position store. */
    var position: SubtitlePosition
    /** The error toasts shown, oldest first. */
    var toasts: seq<Message>

    /** The components the adapter holds are in their own invariants, no
        pipeline chunk is awaiting a reply, and native captions are marked
        hidden only while the hiding style is in the document. */
    predicate Valid()
      reads this, scheduler, coordinator, pipeline
    {
      lookAheadMs > 0 && batchSize > 0 && processLookAheadMs > 0
      && (isNativeSubtitlesHidden ==> hideStylePresent)
      && (scheduler != null ==> scheduler.Valid())
      && (coordinator != null ==> coordinator.Valid())
      && (pipeline != null ==> pipeline.Valid() && pipeline.pendingChunk == [])
    }

    function Fields(): AdapterFields
      reads this
    {
      AdapterFields(scheduler, coordinator, pipeline, originalSubtitles, processedFragments, cachedVideoId,
        isNativeSubtitlesHidden, hideStylePresent, hideStyleInsertions, position, toasts)
    }

    /** A fresh adapter around `fetcher` and an already created scheduler
        (`initializeScheduler` creates, starts and hides it once the video
        element appears). `stylePresent` is whether the page already holds
        the hiding style element. */
    constructor (fetcher: YoutubeSubtitlesFetcher, scheduler: SubtitlesScheduler?, stylePresent: bool,
                 lookAheadMs: int, batchSize: nat, processLookAheadMs: int)
      requires lookAheadMs > 0 && batchSize > 0 && processLookAheadMs > 0
      requires scheduler != null ==> scheduler.Valid()
      ensures Valid()
      ensures this.fetcher == fetcher && this.scheduler == scheduler
      ensures this.lookAheadMs == lookAheadMs && this.batchSize == batchSize && this.processLookAheadMs == processLookAheadMs
      ensures coordinator == null && pipeline == null
      ensures originalSubtitles == [] && processedFragments == [] && cachedVideoId.None? && !isNativeSubtitlesHidden
      ensures hideStylePresent == stylePresent && hideStyleInsertions == 0
      ensures position == DefaultSubtitlePosition && toasts == []
    {
      this.fetcher := fetcher;
      this.scheduler := scheduler;
      this.lookAheadMs := lookAheadMs;
      this.batchSize := batchSize;
      this.processLookAheadMs := processLookAheadMs;
      coordinator := null;
      pipeline := null;
      originalSubtitles := [];
      processedFragments := [];
      cachedVideoId := None;
      isNativeSubtitlesHidden := false;
      hideStylePresent := stylePresent;
      hideStyleInsertions := 0;
      position := DefaultSubtitlePosition;
      toasts := [];
    }

    /** `videoIdChanged`, given what `getVideoId` returns now: only a known
        earlier id and a different non-empty current id count as a change. */
    function VideoIdChanged(currentVideoId: Option<string>): (r: bool)
      reads this
      ensures !Truthy(cachedVideoId) || !Truthy(currentVideoId) ==> !r
      ensures currentVideoId == cachedVideoId ==> !r
      ensures Truthy(cachedVideoId) && Truthy(currentVideoId) && currentVideoId.value != cachedVideoId.value ==> r
    {
      match (cachedVideoId, currentVideoId)
      case (Some(cached), Some(current)) => cached != "" && current != "" && current != cached
      case _ => false
    }

    /** The fragments the coordinator's `getFragments` returns. */
    function CurrentFragments(): (r: seq<Fragment>)
      reads this, pipeline
      ensures pipeline != null ==> r == pipeline.processedFragments
      ensures pipeline == null ==> r == processedFragments
    {
      if pipeline != null then pipeline.processedFragments else processedFragments
    }

    /** What the coordinator's first tick sees of the pipeline it has just
        started: the loop marks itself running whenever chunks are left, so
        that tick never asks for a restart. */
    function StartedPipelineView(): (r: Option<PipelineView>)
      reads this, pipeline
      ensures r.Some? <==> pipeline != null
      ensures r.Some? ==>
        r.value.processedFragments == pipeline.processedFragments
        && r.value.hasUnprocessedChunks == pipeline.HasUnprocessedChunks()
      ensures !HeartbeatRestarts(r)
    {
      if pipeline == null then None
      else Some(PipelineView(pipeline.running || pipeline.HasUnprocessedChunks(), pipeline.HasUnprocessedChunks(),
                             pipeline.processedFragments))
    }

    /** `hideNativeSubtitles`: afterwards captions are hidden, and a style
        element is appended only when the document has none. */
    method HideNativeSubtitles()
      requires Valid()
      modifies this
      ensures Valid()
      ensures isNativeSubtitlesHidden && hideStylePresent
      ensures hideStyleInsertions == old(hideStyleInsertions) + (if old(hideStylePresent) then 0 else 1)
      ensures Fields() == old(Fields()).(isNativeSubtitlesHidden := true, hideStylePresent := true,
                                         hideStyleInsertions := hideStyleInsertions)
    {
      if isNativeSubtitlesHidden {
        return;
      }
      if hideStylePresent {
        isNativeSubtitlesHidden := true;
        return;
      }
      hideStylePresent := true;
      hideStyleInsertions := hideStyleInsertions + 1;
      isNativeSubtitlesHidden := true;
    }

    /** `showNativeSubtitles`: the style element is removed only when the
        adapter had hidden the captions. */
    method ShowNativeSubtitles()
      requires Valid()
      modifies this
      ensures Valid()
      ensures !isNativeSubtitlesHidden
      ensures hideStylePresent == (old(hideStylePresent) && !old(isNativeSubtitlesHidden))
      ensures Fields() == old(Fields()).(isNativeSubtitlesHidden := false, hideStylePresent := hideStylePresent)
    {
      if !isNativeSubtitlesHidden {
        return;
      }
      hideStylePresent := false;
      isNativeSubtitlesHidden := false;
    }

    /** `destroyScheduler`: reset and stop the scheduler, then drop it. */
    method DestroyScheduler()
      requires Valid()
      modifies this, scheduler
      ensures Valid()
      ensures old(scheduler) != null ==> Destroyed(old(scheduler))
      ensures Fields() == old(Fields()).(scheduler := null)
    {
      if scheduler != null {
        scheduler.Reset();
        scheduler.Stop();
      }
      scheduler := null;
    }

    /** `translationCoordinator?.stop()`. The coordinator's `getVideoElement`
        asks the scheduler, so there is a video exactly while the adapter
        holds a scheduler; then the coordinator detaches its listeners and
        stops the pipeline it was given, and otherwise it does nothing. */
    method StopCoordinator()
      requires Valid()
      modifies coordinator, pipeline
      ensures Valid()
      ensures coordinator != null ==> coordinator.listening == (old(coordinator.listening) && scheduler == null)
      ensures coordinator != null ==>
        coordinator.translatingStarts == old(coordinator.translatingStarts)
        && coordinator.translatedStarts == old(coordinator.translatedStarts)
        && coordinator.failedStarts == old(coordinator.failedStarts)
        && coordinator.isTranslating == old(coordinator.isTranslating)
        && coordinator.videoContext == old(coordinator.videoContext) && coordinator.events == old(coordinator.events)
      ensures pipeline != null ==> pipeline.stopped == (old(pipeline.stopped) || (coordinator != null && scheduler != null))
      ensures pipeline != null ==>
        pipeline.processedFragments == old(pipeline.processedFragments)
        && pipeline.segmentedRawStarts == old(pipeline.segmentedRawStarts)
        && pipeline.aiSegmentFailedRawStarts == old(pipeline.aiSegmentFailedRawStarts)
        && pipeline.running == old(pipeline.running)
    {
      if coordinator != null {
        var stopPipeline := coordinator.Stop(scheduler != null);
        if stopPipeline && pipeline != null {
          pipeline.Stop();
        }
      }
    }

    /** The scheduler receives the coordinator's callbacks from `from` on,
        in order: a state change is `setState`, a translated batch is
        `supplementSubtitles` at the video time `timeMs`. */
    method ForwardEvents(from: nat, timeMs: int)
      requires Valid() && coordinator != null && from <= |coordinator.events|
      modifies scheduler
      ensures Valid()
      ensures scheduler != null ==>
        scheduler.currentState == StateAfter(old(scheduler.currentState), coordinator.events[from..])
        && Shown(scheduler) == ShownAfter(old(Shown(scheduler)), coordinator.events[from..], timeMs)
        && scheduler.isActive == old(scheduler.isActive) && scheduler.visible == old(scheduler.visible)
        && scheduler.listening == old(scheduler.listening)
    {
      if scheduler != null {
        Replay(scheduler, coordinator.events[from..], timeMs);
      }
    }

    /** `resetForNavigation` as written: every component is dropped, the
        fetcher's cache is cleared, native captions come back and the
        position store returns to its default. The scheduler is destroyed
        first, so the coordinator's `stop` then finds no video and returns
        at once: the dropped coordinator keeps its listeners on the video
        element, and its pipeline is not stopped. */
    method ResetForNavigation()
      requires Valid()
      modifies this, scheduler, coordinator, pipeline, fetcher
      ensures Valid()
      ensures scheduler == null && coordinator == null && pipeline == null
      ensures originalSubtitles == [] && processedFragments == [] && cachedVideoId.None?
      ensures !isNativeSubtitlesHidden && hideStylePresent == (old(hideStylePresent) && !old(isNativeSubtitlesHidden))
      ensures position == DefaultSubtitlePosition
      ensures hideStyleInsertions == old(hideStyleInsertions) && toasts == old(toasts)
      ensures fetcher.subtitles == [] && fetcher.cachedTrackHash.None? && forall h :: !fetcher.ShouldUseSameTrack(h)
      ensures forall id :: !VideoIdChanged(id)
      ensures old(scheduler) != null ==> Destroyed(old(scheduler))
      ensures old(coordinator) != null ==> old(coordinator).listening == old(coordinator.listening)
      ensures old(pipeline) != null ==> old(pipeline).stopped == old(pipeline.stopped)
    {
      DestroyScheduler();
      StopCoordinator();
      DropAllButScheduler();
    }

    /** `resetForNavigation` with the coordinator stopped while the scheduler
        still hands it the video: it then leaves no listener of the dropped
        coordinator on the video element and stops its pipeline. */
    method ResetForNavigationStoppingFirst()
      requires Valid()
      modifies this, scheduler, coordinator, pipeline, fetcher
      ensures Valid()
      ensures scheduler == null && coordinator == null && pipeline == null
      ensures originalSubtitles == [] && processedFragments == [] && cachedVideoId.None?
      ensures !isNativeSubtitlesHidden && hideStylePresent == (old(hideStylePresent) && !old(isNativeSubtitlesHidden))
      ensures position == DefaultSubtitlePosition
      ensures hideStyleInsertions == old(hideStyleInsertions) && toasts == old(toasts)
      ensures fetcher.subtitles == [] && fetcher.cachedTrackHash.None? && forall h :: !fetcher.ShouldUseSameTrack(h)
      ensures forall id :: !VideoIdChanged(id)
      ensures old(scheduler) != null ==> Destroyed(old(scheduler))
      ensures old(coordinator) != null ==> old(coordinator).listening == (old(coordinator.listening) && old(scheduler) == null)
      ensures old(pipeline) != null ==>
        old(pipeline).stopped == (old(pipeline.stopped) || (old(coordinator) != null && old(scheduler) != null))
    {
      StopCoordinator();
      DestroyScheduler();
      DropAllButScheduler();
    }

    /** The tail both resets share: drop the coordinator, the pipeline and
        the fragment lists, forget the video id, clear the fetcher's cache,
        show native captions and restore the default position. */
    method DropAllButScheduler()
      requires Valid()
      modifies this, fetcher
      ensures Valid()
      ensures coordinator == null && pipeline == null && scheduler == old(scheduler)
      ensures originalSubtitles == [] && processedFragments == [] && cachedVideoId.None?
      ensures !isNativeSubtitlesHidden && hideStylePresent == (old(hideStylePresent) && !old(isNativeSubtitlesHidden))
      ensures position == DefaultSubtitlePosition
      ensures hideStyleInsertions == old(hideStyleInsertions) && toasts == old(toasts)
      ensures fetcher.subtitles == [] && fetcher.cachedTrackHash.None? && forall h :: !fetcher.ShouldUseSameTrack(h)
      ensures forall id :: !VideoIdChanged(id)
    {
      coordinator := null;
      processedFragments := [];
      pipeline := null;
      originalSubtitles := [];
      cachedVideoId := None;
      fetcher.Cleanup();
      ShowNativeSubtitles();
      position := DefaultSubtitlePosition;
    }

    /** `handleToggleSubtitles`. Turning on starts and shows the scheduler,
        hides native captions and starts a translation (`translationStarted`:
        the caller runs `StartTranslation` next); turning off hides the
        scheduler, shows native captions and stops the coordinator. */
    method HandleToggleSubtitles(enabled: bool) returns (translationStarted: bool)
      requires Valid()
      modifies this, scheduler, coordinator, pipeline
      ensures Valid()
      ensures translationStarted == enabled
      ensures scheduler == old(scheduler) && coordinator == old(coordinator) && pipeline == old(pipeline)
      ensures originalSubtitles == old(originalSubtitles) && processedFragments == old(processedFragments)
      ensures cachedVideoId == old(cachedVideoId) && position == old(position) && toasts == old(toasts)
      ensures scheduler != null ==>
        scheduler.isActive == enabled && scheduler.visible == enabled
        && scheduler.currentState == old(scheduler.currentState) && scheduler.subtitles == old(scheduler.subtitles)
      ensures enabled ==>
        isNativeSubtitlesHidden && hideStylePresent
        && hideStyleInsertions == old(hideStyleInsertions) + (if old(hideStylePresent) then 0 else 1)
        && (coordinator != null ==> coordinator.listening == old(coordinator.listening))
      ensures !enabled ==>
        !isNativeSubtitlesHidden && hideStyleInsertions == old(hideStyleInsertions)
        && hideStylePresent == (old(hideStylePresent) && !old(isNativeSubtitlesHidden))
        && (coordinator != null ==> coordinator.listening == (old(coordinator.listening) && scheduler == null))
        && (pipeline != null ==> pipeline.stopped == (old(pipeline.stopped) || (coordinator != null && scheduler != null)))
    {
      if enabled {
        if scheduler != null {
          scheduler.Start();
          scheduler.Show();
        }
        HideNativeSubtitles();
        translationStarted := true;
      } else {
        if scheduler != null {
          scheduler.Hide();
        }
        ShowNativeSubtitles();
        StopCoordinator();
        translationStarted := false;
      }
    }

    /** The same-track branch of `startTranslation`: clear the failed starts
        of the coordinator and the pipeline so they are tried again, and
        resume the coordinator (`startPipeline`: it starts the pipeline's
        loop). */
    method ResumeSameTrack(timeMs: int) returns (startPipeline: bool)
      requires Valid()
      modifies scheduler, coordinator, pipeline
      ensures Valid()
      ensures startPipeline == (coordinator != null && scheduler != null && pipeline != null)
      ensures coordinator != null ==>
        coordinator.failedStarts == {} && coordinator.translatedStarts == old(coordinator.translatedStarts)
        && coordinator.listening == (scheduler != null || old(coordinator.listening))
        && coordinator.videoContext == old(coordinator.videoContext)
      ensures pipeline != null ==>
        pipeline.aiSegmentFailedRawStarts == {}
        && pipeline.segmentedRawStarts == old(pipeline.segmentedRawStarts) - old(pipeline.aiSegmentFailedRawStarts)
        && pipeline.processedFragments == old(pipeline.processedFragments)
      ensures coordinator != null && (scheduler == null || old(coordinator.isTranslating)) ==>
        coordinator.isTranslating == old(coordinator.isTranslating) && coordinator.inFlight == old(coordinator.inFlight)
        && coordinator.translatingStarts == old(coordinator.translatingStarts) && coordinator.events == old(coordinator.events)
      ensures coordinator != null && scheduler != null && !old(coordinator.isTranslating) ==>
        var batch := SelectBatch(CurrentFragments(), timeMs, old(coordinator.translatedStarts), coordinator.lookAheadMs, coordinator.batchSize);
        var reported := NearbyEvents(CurrentFragments(), timeMs, batch, old(coordinator.translatedStarts));
        coordinator.events == old(coordinator.events) + reported
        && scheduler.currentState == StateAfter(old(scheduler.currentState), reported)
        && (batch == [] ==> !coordinator.isTranslating)
        && (batch != [] ==> coordinator.isTranslating && coordinator.inFlight == batch && coordinator.translatingStarts == Starts(batch))
      ensures scheduler != null ==> Shown(scheduler) == old(Shown(scheduler))
    {
      startPipeline := false;
      if coordinator != null {
        coordinator.ClearFailed();
      }
      if pipeline != null {
        pipeline.ClearFailedStarts();
      }
      if coordinator != null {
        var from := |coordinator.events|;
        startPipeline := Resume(coordinator, scheduler != null, timeMs, CurrentFragments(), StartedPipelineView());
        if scheduler != null {
          ghost var shown := Shown(scheduler);
          Replay(scheduler, coordinator.events[from..], timeMs);
          ShownAfterStateChangesOnly(shown, coordinator.events[from..], timeMs);
        }
      }
    }

    /** The other branch of `startTranslation` up to the fetch: stop and
        drop the coordinator and the pipeline, forget the plain fragments and
        reset the scheduler to 'fetching'. */
    method DropForFetch()
      requires Valid()
      modifies this, scheduler, coordinator, pipeline
      ensures Valid()
      ensures coordinator == null && pipeline == null && processedFragments == []
      ensures Fields() == old(Fields()).(coordinator := null, pipeline := null, processedFragments := [])
      ensures old(coordinator) != null ==> old(coordinator).listening == (old(coordinator.listening) && scheduler == null)
      ensures old(pipeline) != null ==> old(pipeline).stopped == (old(pipeline.stopped) || (old(coordinator) != null && scheduler != null))
      ensures scheduler != null ==>
        scheduler.currentState == StateData(Fetching, None) && scheduler.subtitles == []
        && scheduler.currentIndex == -1 && scheduler.currentSubtitle.None?
    {
      StopCoordinator();
      coordinator := null;
      processedFragments := [];
      pipeline := null;
      if scheduler != null {
        scheduler.Reset();
        scheduler.SetState(Fetching, None);
      }
    }

    /** `startTranslation` up to the fetch. `currentVideoId` is what
        `getVideoId` returns and `currentHash` what the fetcher's track hash
        is now. The same track resumes (`ResumeSameTrack`); otherwise
        everything is dropped (`DropForFetch`) and `fetchNeeded` says the
        fetch is awaited. */
    method StartTranslation(currentVideoId: Option<string>, currentHash: Option<string>, timeMs: int)
      returns (fetchNeeded: bool, startPipeline: bool)
      requires Valid()
      modifies this, scheduler, coordinator, pipeline
      ensures Valid()
      ensures cachedVideoId == Some(currentVideoId.GetOr(""))
      ensures !VideoIdChanged(currentVideoId)
      ensures fetchNeeded <==> !fetcher.ShouldUseSameTrack(currentHash)
      ensures scheduler == old(scheduler) && originalSubtitles == old(originalSubtitles)
      ensures isNativeSubtitlesHidden == old(isNativeSubtitlesHidden) && hideStylePresent == old(hideStylePresent)
      ensures position == old(position) && toasts == old(toasts)
      ensures !fetchNeeded ==>
        coordinator == old(coordinator) && pipeline == old(pipeline) && processedFragments == old(processedFragments)
        && startPipeline == (coordinator != null && scheduler != null && pipeline != null)
        && (coordinator != null ==>
              coordinator.failedStarts == {} && coordinator.translatedStarts == old(coordinator.translatedStarts)
              && coordinator.listening == (scheduler != null || old(coordinator.listening))
              && coordinator.videoContext == old(coordinator.videoContext))
        && (pipeline != null ==>
              pipeline.aiSegmentFailedRawStarts == {}
              && pipeline.segmentedRawStarts == old(pipeline.segmentedRawStarts) - old(pipeline.aiSegmentFailedRawStarts)
              && pipeline.processedFragments == old(pipeline.processedFragments))
      ensures fetchNeeded ==>
        coordinator == null && pipeline == null && processedFragments == [] && !startPipeline
        && (old(coordinator) != null ==> old(coordinator).listening == (old(coordinator.listening) && scheduler == null))
        && (old(pipeline) != null ==> old(pipeline).stopped == (old(pipeline.stopped) || (old(coordinator) != null && scheduler != null)))
        && (scheduler != null ==>
              scheduler.currentState == StateData(Fetching, None) && scheduler.subtitles == []
              && scheduler.currentIndex == -1 && scheduler.currentSubtitle.None?)
    {
      cachedVideoId := Some(currentVideoId.GetOr(""));
      fetchNeeded := !fetcher.ShouldUseSameTrack(currentHash);
      if !fetchNeeded {
        startPipeline := ResumeSameTrack(timeMs);
      } else {
        startPipeline := false;
        DropForFetch();
      }
    }

    /** The rest of `startTranslation`, once the fetch settles with
        `fetched`: a toast error is toasted and any other error shown as the
        scheduler's error state; an empty list shows 'no subtitles found';
        a non-empty list is processed (`ProcessSubtitles`). */
    method CompleteFetch(fetched: Result<seq<Fragment>, FetchFailure>, aiSegmentation: Option<bool>, title: string, timeMs: int)
      returns (startPipeline: bool)
      requires Valid()
      modifies this, scheduler
      ensures Valid()
      ensures scheduler == old(scheduler) && cachedVideoId == old(cachedVideoId)
      ensures isNativeSubtitlesHidden == old(isNativeSubtitlesHidden) && hideStylePresent == old(hideStylePresent)
      ensures fetched.Failure? ==>
        !startPipeline && Fields() == old(Fields()).(toasts := toasts)
        && (fetched.error.isToast ==> toasts == old(toasts) + [fetched.error.message]
                                      && (scheduler != null ==> scheduler.currentState == old(scheduler.currentState)))
        && (!fetched.error.isToast ==> toasts == old(toasts)
                                       && (scheduler != null ==> scheduler.currentState == StateData(Error, Some(fetched.error.message))))
      ensures fetched.Success? ==> originalSubtitles == fetched.value && toasts == old(toasts)
      ensures fetched.Success? && fetched.value == [] ==>
        !startPipeline && coordinator == old(coordinator) && pipeline == old(pipeline)
        && (scheduler != null ==> scheduler.currentState == StateData(Error, Some(Localized(NoSubtitlesFoundKey))))
      ensures fetched.Success? && fetched.value != [] ==>
        coordinator != null && fresh(coordinator)
        && coordinator.videoContext == VideoContext(title, ConcatTexts(fetched.value))
        && coordinator.listening == (scheduler != null) && coordinator.translatedStarts == {} && coordinator.failedStarts == {}
        && (aiSegmentation == Some(true) ==>
              pipeline != null && fresh(pipeline) && pipeline.rawFragments == fetched.value
              && pipeline.processLookAheadMs == processLookAheadMs && pipeline.segmentedRawStarts == {}
              && processedFragments == old(processedFragments))
        && (aiSegmentation != Some(true) ==> pipeline == old(pipeline) && processedFragments == fetched.value)
        && startPipeline == (scheduler != null && pipeline != null)
        && (scheduler != null ==> scheduler.currentState == StateAfter(StateData(Processing, None), coordinator.events))
        && (scheduler != null ==> scheduler.currentState == StateData(Processing, None))
        && var batch := if scheduler != null then SelectBatch(CurrentFragments(), timeMs, {}, lookAheadMs, batchSize) else [];
           coordinator.events == NearbyEvents(CurrentFragments(), timeMs, batch, {})
           && (batch == [] ==> !coordinator.isTranslating)
           && (batch != [] ==> coordinator.isTranslating && coordinator.inFlight == batch && coordinator.translatingStarts == Starts(batch))
      ensures scheduler != null ==> Shown(scheduler) == old(Shown(scheduler))
    {
      startPipeline := false;
      if fetched.Failure? {
        if fetched.error.isToast {
          toasts := toasts + [fetched.error.message];
        } else if scheduler != null {
          scheduler.SetState(Error, Some(fetched.error.message));
        }
        return;
      }
      originalSubtitles := fetched.value;
      if scheduler != null {
        scheduler.SetState(FetchSuccess, None);
      }
      if |originalSubtitles| == 0 {
        if scheduler != null {
          scheduler.SetState(Error, Some(Localized(NoSubtitlesFoundKey)));
        }
        return;
      }
      startPipeline := ProcessSubtitles(aiSegmentation, title, timeMs);
    }

    /** `processSubtitles`: show 'processing', set up the pipeline (with AI
        segmentation) or the plain fragment list, and start a new
        coordinator with the title and the whole subtitle text as context. */
    method ProcessSubtitles(aiSegmentation: Option<bool>, title: string, timeMs: int)
      returns (startPipeline: bool)
      requires Valid()
      modifies this, scheduler
      ensures Valid()
      ensures scheduler == old(scheduler) && originalSubtitles == old(originalSubtitles) && cachedVideoId == old(cachedVideoId)
      ensures isNativeSubtitlesHidden == old(isNativeSubtitlesHidden) && hideStylePresent == old(hideStylePresent)
      ensures toasts == old(toasts)
      ensures coordinator != null && fresh(coordinator)
      ensures coordinator.videoContext == VideoContext(title, ConcatTexts(originalSubtitles))
      ensures coordinator.listening == (scheduler != null) && coordinator.translatedStarts == {} && coordinator.failedStarts == {}
      ensures aiSegmentation == Some(true) ==>
        pipeline != null && fresh(pipeline) && pipeline.rawFragments == originalSubtitles
        && pipeline.processLookAheadMs == processLookAheadMs && pipeline.segmentedRawStarts == {}
        && processedFragments == old(processedFragments)
      ensures aiSegmentation != Some(true) ==> pipeline == old(pipeline) && processedFragments == originalSubtitles
      ensures startPipeline == (scheduler != null && pipeline != null)
      ensures scheduler != null ==> scheduler.currentState == StateAfter(StateData(Processing, None), coordinator.events)
      ensures scheduler != null ==>
        scheduler.currentState == StateData(Processing, None) && Shown(scheduler) == old(Shown(scheduler))
      ensures var batch := if scheduler != null then SelectBatch(CurrentFragments(), timeMs, {}, lookAheadMs, batchSize) else [];
        coordinator.events == NearbyEvents(CurrentFragments(), timeMs, batch, {})
        && (batch == [] ==> !coordinator.isTranslating)
        && (batch != [] ==> coordinator.isTranslating && coordinator.inFlight == batch && coordinator.translatingStarts == Starts(batch))
    {
      if scheduler != null {
        scheduler.SetState(Processing, None);
      }
      SetUpFragments(aiSegmentation);
      startPipeline := StartCoordinator(VideoContext(title, ConcatTexts(originalSubtitles)), timeMs);
    }

    /** The fragment source of `processSubtitles`: a new pipeline over the
        fetched subtitles with AI segmentation, the subtitles themselves
        otherwise. */
    method SetUpFragments(aiSegmentation: Option<bool>)
      requires Valid()
      modifies this
      ensures Valid()
      ensures Fields() == old(Fields()).(pipeline := pipeline, processedFragments := processedFragments)
      ensures aiSegmentation == Some(true) ==>
        pipeline != null && fresh(pipeline) && pipeline.rawFragments == originalSubtitles
        && pipeline.processLookAheadMs == processLookAheadMs && pipeline.segmentedRawStarts == {}
        && pipeline.processedFragments == [] && processedFragments == old(processedFragments)
      ensures aiSegmentation != Some(true) ==> pipeline == old(pipeline) && processedFragments == originalSubtitles
    {
      if aiSegmentation == Some(true) {
        pipeline := new SegmentationPipeline(originalSubtitles, processLookAheadMs);
      } else {
        processedFragments := originalSubtitles;
      }
    }

    /** The end of `processSubtitles`, once 'processing' is shown: a new
        coordinator is started with `context` over the current fragments and
        its callbacks reach the scheduler. */
    method StartCoordinator(context: VideoContext, timeMs: int) returns (startPipeline: bool)
      requires Valid()
      requires scheduler != null ==> scheduler.currentState == StateData(Processing, None)
      modifies this, scheduler
      ensures Valid()
      ensures Fields() == old(Fields()).(coordinator := coordinator)
      ensures coordinator != null && fresh(coordinator)
      ensures coordinator.videoContext == context
      ensures coordinator.listening == (scheduler != null) && coordinator.translatedStarts == {} && coordinator.failedStarts == {}
      ensures startPipeline == (scheduler != null && pipeline != null)
      ensures scheduler != null ==>
        scheduler.currentState == StateData(Processing, None) && Shown(scheduler) == old(Shown(scheduler))
      ensures var batch := if scheduler != null then SelectBatch(CurrentFragments(), timeMs, {}, lookAheadMs, batchSize) else [];
        coordinator.events == NearbyEvents(CurrentFragments(), timeMs, batch, {})
        && (batch == [] ==> !coordinator.isTranslating)
        && (batch != [] ==> coordinator.isTranslating && coordinator.inFlight == batch && coordinator.translatingStarts == Starts(batch))
    {
      var fragments := CurrentFragments();
      var started;
      started, startPipeline := StartNew(lookAheadMs, batchSize, context, scheduler != null, timeMs, fragments, StartedPipelineView());
      coordinator := started;
      if scheduler != null {
        ghost var shown := Shown(scheduler);
        Replay(scheduler, coordinator.events, timeMs);
        ShownAfterStateChangesOnly(shown, coordinator.events, timeMs);
      }
    }
  }
  /** Turning translated subtitles on twice and then off: the hiding style
      is appended at most once, and afterwards no hiding style is left, even
      one the page held before. */
  method ToggleOnTwiceThenOff(stylePresent: bool) returns (hiddenWhileOn: bool, insertions: nat, styleLeft: bool)
    ensures hiddenWhileOn
    ensures insertions == (if stylePresent then 0 else 1)
    ensures !styleLeft
  {
    var fetcher := new YoutubeSubtitlesFetcher();
    var adapter := new UniversalVideoAdapter(fetcher, null, stylePresent, 1, 1, 1);
    var started := adapter.HandleToggleSubtitles(true);
    started := adapter.HandleToggleSubtitles(true);
    hiddenWhileOn := adapter.isNativeSubtitlesHidden;
    started := adapter.HandleToggleSubtitles(false);
    insertions := adapter.hideStyleInsertions;
    styleLeft := adapter.hideStylePresent;
  }

  /** The navigation check: nothing counts as a change before a translation
      has started; once one started for video "a", moving to "b" counts and
      staying on "a" does not; after the navigation reset nothing counts. */
  method NavigationDetection() returns (beforeStart: bool, toOther: bool, toSame: bool, afterReset: bool)
    ensures !beforeStart && toOther && !toSame && !afterReset
  {
    var fetcher := new YoutubeSubtitlesFetcher();
    var adapter := new UniversalVideoAdapter(fetcher, null, false, 1, 1, 1);
    beforeStart := adapter.VideoIdChanged(Some("b"));
    var fetchNeeded, startPipeline := adapter.StartTranslation(Some("a"), None, 0);
    toOther := adapter.VideoIdChanged(Some("b"));
    toSame := adapter.VideoIdChanged(Some("a"));
    adapter.ResetForNavigationStoppingFirst();
    afterReset := adapter.VideoIdChanged(Some("b"));
  }

  /** Navigating away after a translation started on a video: as written,
      the dropped coordinator is still listening to the video element; with
      the coordinator stopped before the scheduler is destroyed it is not. */
  method StaleListenersAfterReset() returns (listeningAsWritten: bool, listeningStoppingFirst: bool)
    ensures listeningAsWritten
    ensures !listeningStoppingFirst
  {
    var fetched: Result<seq<Fragment>, FetchFailure> := Success([Fragment(0, 1000, "hi", None)]);
    var fetcher := new YoutubeSubtitlesFetcher();
    var scheduler := new SubtitlesScheduler();
    var first := new UniversalVideoAdapter(fetcher, scheduler, false, 1, 1, 1);
    var startPipeline := first.CompleteFetch(fetched, None, "", 0);
    var stale := first.coordinator;
    first.ResetForNavigation();
    listeningAsWritten := stale.listening;
    fetcher := new YoutubeSubtitlesFetcher();
    scheduler := new SubtitlesScheduler();
    var second := new UniversalVideoAdapter(fetcher, scheduler, false, 1, 1, 1);
    startPipeline := second.CompleteFetch(fetched, None, "", 0);
    stale := second.coordinator;
    second.ResetForNavigationStoppingFirst();
    listeningStoppingFirst := stale.listening;
  }
}
