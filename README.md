# Read Frog subtitle pipeline, modelled in Dafny

Read Frog's subtitle overlay draws translated captions over a YouTube player. The pipeline has these parts:

- **Fetching.** The page finds the video id. The fetcher asks the page script for the player data, picks a caption track and builds the timed-text URL, carrying the proof-of-origin token (`pot`) when it has one. It fetches the captions with bounded retries. It filters noise annotations out of them and dispatches them to a parser for their format.
- **Segmentation.** When AI segmentation is on, a segmentation pipeline re-chunks the raw fragments around the playback cursor. It claims every chunk before awaiting the AI. On failure it falls back to the optimizer.
- **Translation.** A translation coordinator translates fragments near the cursor in batches. Only one batch is outstanding at a time. Each start time moves from *translating* to *translated* or *failed*.
- **Display.** A scheduler tracks the fragment under the video clock and merges translations into its list. It publishes the display state, and an error state reverts to idle after 5 s.
- **Page script.** It caches the timed-text URL the player requests, with one-shot waiters, and normalises the track lists it reports.
- **Adapter.** The universal adapter ties the parts together: it handles the translate toggle, the pausing and resuming of one track, and navigation to another video.

## How the model is built

There is one Dafny module per source file, plus shared helper modules:

| Module | Contents |
|---|---|
| `Wrappers` | `Option` and `Result` |
| `Strings` | JavaScript white space, `trim`, `includes`, `split`/`join`, decimal numbers |
| `Seqs` | `find`, `findIndex`, `filter` |
| `Urls` | `URLSearchParams` get/set on an ordered list of pairs |
| `SubtitleTypes` | Fragments, the half-open interval search, the stable sort by start |
| `YoutubeTypes` | The player-data records |

Conventions:

- **Time.** Times are whole milliseconds, written `video.currentTime * 1000` in the source. That source value can be fractional; the model takes it as an integer and does not model the fractional part, so comparisons with fragment bounds between two whole milliseconds are not captured. The video clock is a method parameter. Timers are deadlines on a clock that `AdvanceClock` moves forward.
- **Asynchronous operations** are split into a begin step and a completion step. The awaited outcome is a parameter of the completion step:
  - the AI reply;
  - the settled translation results;
  - the configuration read;
  - the fetch result;
  - each HTTP response of a retry run;
  - each player-data reply.
- **Objects whose fields the source updates** are Dafny classes with `modifies` frames: the scheduler, the coordinator, the pipeline, the fetcher, the timed-text observer and the adapter. Pure helpers are functions, with lemmas about them.
- **Callbacks and side effects.** A callback into another component (`onStateChange`, `onTranslated`) is logged as an event. A store write is a field.

## Model

| member | source | states |
|---|---|---|
| Strings.TrimSlice | src/utils/subtitles/processor/ai-segmentation.ts:9 | `trim` removes leading and trailing JavaScript white space only: the result is a slice of the input with all-space margins |
| Strings.TrimIdempotent | src/utils/subtitles/processor/ai-segmentation.ts:9 | trimming twice is trimming once |
| Strings.TrimEmpty | src/utils/subtitles/processor/ai-segmentation.ts:55 | `trim() === ''` exactly when the line is all white space |
| Strings.SplitJoin | src/utils/subtitles/fetchers/youtube/index.ts:144 | splitting a join on its separator gives back the pieces, when no piece contains the separator |
| Strings.DecimalRoundTrip | src/utils/subtitles/processor/ai-segmentation.ts:49-50 | `parseInt(_, 10)` of a number's decimal digits is that number |
| SubtitleTypes.FirstCovering | src/entrypoints/subtitles.content/subtitles-scheduler.ts:140-141 | the index of the first fragment with start <= t < end, or -1 exactly when no fragment covers t |
| SubtitleTypes.SortByStart | src/entrypoints/subtitles.content/subtitles-scheduler.ts:57 | the stable sort by start gives a sorted permutation of its input |
| SubtitleTypes.SortKeepsStarts | src/entrypoints/subtitles.content/segmentation-pipeline.ts:98 | sorting keeps the set of start times |
| SubtitleTypes.SortSortedIdentity | src/entrypoints/subtitles.content/segmentation-pipeline.ts:105 | sorting an already sorted list leaves it unchanged |
| Seqs.Find | src/utils/subtitles/fetchers/youtube/index.ts:249 | `find` returns the first element satisfying the predicate, or nothing when none does |
| Seqs.FilterConcat | src/entrypoints/subtitles.content/segmentation-pipeline.ts:94-96 | filtering keeps order: the filter of a concatenation is the concatenation of the filters |
| Urls.GetSetSame | src/utils/subtitles/fetchers/youtube/url-builder.ts:30 | after `set(k, v)`, `get(k)` is `v` |
| Urls.GetSetOther | src/utils/subtitles/fetchers/youtube/url-builder.ts:30 | `set(k, v)` does not change `get` of any other name |
| Urls.SetKeepsOthers | src/utils/subtitles/fetchers/youtube/url-builder.ts:30 | `set(k, v)` keeps every pair with another name, in order |
| Urls.SetKeepsOutside | src/utils/subtitles/fetchers/youtube/url-builder.ts:29-53 | setting a managed name keeps every unmanaged pair, in order |
| SubtitlesSchedulers.ExistingMapUnique | src/entrypoints/subtitles.content/subtitles-scheduler.ts:32 | without repeated starts, the start-to-fragment map sends each fragment's start to that fragment |
| SubtitlesSchedulers.Merged | src/entrypoints/subtitles.content/subtitles-scheduler.ts:36-55 | the merge loop never shortens the list and adds at most one fragment per incoming fragment |
| SubtitlesSchedulers.LatestTranslationSource | src/entrypoints/subtitles.content/subtitles-scheduler.ts:44-48 | a kept fragment's translation changes only to the last non-empty incoming translation for its start |
| SubtitlesSchedulers.MergedShape | src/entrypoints/subtitles.content/subtitles-scheduler.ts:36-55 | with distinct starts, every fragment keeps its place, start, end and text and takes its latest translation; new starts are appended in order |
| SubtitlesSchedulers.SupplementedContents | src/entrypoints/subtitles.content/subtitles-scheduler.ts:32-57 | when the live list has no repeated starts: after the sort, the list is sorted and holds exactly the old fragments (only their translations updated) plus the incoming fragments with new starts; none is lost |
| SubtitlesSchedulers.PublishedState | src/entrypoints/subtitles.content/subtitles-scheduler.ts:154-157 | the state store holds nothing for idle and the state itself otherwise |
| SubtitlesSchedulers.SubtitlesScheduler.constructor | src/entrypoints/subtitles.content/subtitles-scheduler.ts:8-20 | the listeners are attached; the list is empty, the index is -1 and the state is idle; the scheduler's own copy of the store values starts at their initial values |
| SubtitlesSchedulers.SubtitlesScheduler.Start | src/entrypoints/subtitles.content/subtitles-scheduler.ts:22-25 | active and visible; nothing else changes |
| SubtitlesSchedulers.SubtitlesScheduler.Stop | src/entrypoints/subtitles.content/subtitles-scheduler.ts:70-74 | inactive, invisible and listeners detached; nothing else changes |
| SubtitlesSchedulers.SubtitlesScheduler.Show | src/entrypoints/subtitles.content/subtitles-scheduler.ts:76-79 | active and visible; nothing else changes |
| SubtitlesSchedulers.SubtitlesScheduler.Hide | src/entrypoints/subtitles.content/subtitles-scheduler.ts:81-84 | inactive and invisible; the listeners stay attached |
| SubtitlesSchedulers.SubtitlesScheduler.UpdateCurrentSubtitle | src/entrypoints/subtitles.content/subtitles-scheduler.ts:149-152 | one write of the fragment at the current index, or of null at -1 |
| SubtitlesSchedulers.SubtitlesScheduler.UpdateSubtitles | src/entrypoints/subtitles.content/subtitles-scheduler.ts:136-147 | the time is published; the index becomes the first covering fragment; the current subtitle is written exactly when the index moved |
| SubtitlesSchedulers.SubtitlesScheduler.OnVideoTime | src/entrypoints/subtitles.content/subtitles-scheduler.ts:120-134 | a `timeupdate`/`seeking` event changes nothing unless the listeners are attached and the scheduler is active; otherwise it is `updateSubtitles` |
| SubtitlesSchedulers.SubtitlesScheduler.SupplementSubtitles | src/entrypoints/subtitles.content/subtitles-scheduler.ts:27-64 | an empty input changes nothing; otherwise the list is the sorted merge, the index is the covering one, and the current subtitle is rewritten when the index moved or its translation was replaced |
| SubtitlesSchedulers.SubtitlesScheduler.MergeAndSort | src/entrypoints/subtitles.content/subtitles-scheduler.ts:32-57 | the list becomes the sorted merge; the flag is whether the on-screen fragment got a new translation |
| SubtitlesSchedulers.SubtitlesScheduler.MergeIncoming | src/entrypoints/subtitles.content/subtitles-scheduler.ts:33-55 | the loop's list is the reference merge, and its flag is whether the on-screen fragment was touched |
| SubtitlesSchedulers.MergeAll | src/entrypoints/subtitles.content/subtitles-scheduler.ts:36-55 | the loop over the incoming fragments computes the reference merge, and its flag is whether any step hit the on-screen fragment |
| SubtitlesSchedulers.MergeOne | src/entrypoints/subtitles.content/subtitles-scheduler.ts:37-54 | one incoming fragment: a new start is appended, a known start with a translation has only that translation replaced, anything else changes nothing |
| SubtitlesSchedulers.SubtitlesScheduler.SetState | src/entrypoints/subtitles.content/subtitles-scheduler.ts:86-101 | the pending auto-hide is cancelled; the state is published; an error starts a fresh 5000 ms deadline and any other state leaves none |
| SubtitlesSchedulers.SubtitlesScheduler.AdvanceClock | src/entrypoints/subtitles.content/subtitles-scheduler.ts:94-99 | a reached auto-hide deadline fires once and returns an error state to idle; an unreached one stays pending |
| SubtitlesSchedulers.SubtitlesScheduler.Reset | src/entrypoints/subtitles.content/subtitles-scheduler.ts:103-108 | idle, an empty list, index -1, no on-screen fragment and no pending timer |
| SubtitlesSchedulers.ErrorAutoHides | src/entrypoints/subtitles.content/subtitles-scheduler.ts:4 | an error shown at 0 ms is still shown at 4999 ms and gone at 5000 ms |
| SubtitlesSchedulers.LaterStateCancelsAutoHide | src/entrypoints/subtitles.content/subtitles-scheduler.ts:87 | a state set before the deadline is not reverted when the old deadline passes |
| TranslationCoordinators.Eligible | src/entrypoints/subtitles.content/translation-coordinator.ts:104-109 | exactly the fragments, in order, whose start is in none of the three sets and lies in [t-5000, t+look-ahead] |
| TranslationCoordinators.EligibleConcat | src/entrypoints/subtitles.content/translation-coordinator.ts:104-109 | the filter keeps the fragments' order |
| TranslationCoordinators.SelectBatch | src/entrypoints/subtitles.content/translation-coordinator.ts:104-110 | exactly the first `batchSize` eligible fragments in order, or all of them when fewer are eligible (`filter(...).slice(0, batchSize)`) |
| TranslationCoordinators.SelectedStartsFree | src/entrypoints/subtitles.content/translation-coordinator.ts:104-110 | a selected batch's starts are in none of the excluded sets |
| TranslationCoordinators.TextAsTranslation | src/entrypoints/subtitles.content/translation-coordinator.ts:142 | the fallback batch keeps each fragment with its own text as translation |
| TranslationCoordinators.TranslationCoordinator.constructor | src/entrypoints/subtitles.content/translation-coordinator.ts:17-35 | empty sets, no batch, a blank context, no listeners, nothing logged |
| TranslationCoordinators.TranslationCoordinator.Reset | src/entrypoints/subtitles.content/translation-coordinator.ts:67-73 | all three sets empty, the guard cleared, the context blank |
| TranslationCoordinators.TranslationCoordinator.ClearFailed | src/entrypoints/subtitles.content/translation-coordinator.ts:75-77 | only the failed set changes, and it becomes empty |
| TranslationCoordinators.TranslationCoordinator.Start | src/entrypoints/subtitles.content/translation-coordinator.ts:37-55 | a given context is taken; without a video nothing else happens; with a video the listeners are attached, the pipeline (if any) is started, and the first tick logs the heartbeat's 'segmenting' and the selection's 'processing' exactly as `HandleTranslationTick` does, puts the first eligible batch in flight unless one already is, and marks its starts translating |
| TranslationCoordinators.TranslationCoordinator.Stop | src/entrypoints/subtitles.content/translation-coordinator.ts:57-65 | with a video the listeners are detached and the pipeline stopped; nothing else changes |
| TranslationCoordinators.TranslationCoordinator.Heartbeat | src/entrypoints/subtitles.content/translation-coordinator.ts:84-94 | a restart exactly when the pipeline is idle with chunks left; 'segmenting' is logged then only if no translated fragment covers the time |
| TranslationCoordinators.TranslationCoordinator.HandleTranslationTick | src/entrypoints/subtitles.content/translation-coordinator.ts:79-99 | nothing without a video; otherwise the log grows by exactly the heartbeat's 'segmenting' (when it restarts the pipeline and the fragment on screen is untranslated) and then, unless a batch is outstanding, the selection's 'processing' (when a batch is chosen and the fragment on screen is untranslated); an outstanding batch is kept, otherwise the eligible batch goes in flight with its starts translating |
| TranslationCoordinators.TranslationCoordinator.TranslateNearby | src/entrypoints/subtitles.content/translation-coordinator.ts:101-122 | an empty batch changes nothing; otherwise 'processing' is logged iff an untranslated fragment covers the time, the guard is set and the batch's starts become translating; the sets stay disjoint |
| TranslationCoordinators.TranslationCoordinator.CompleteTranslation | src/entrypoints/subtitles.content/translation-coordinator.ts:124-151 | the translator's outcome decides success or failure; either way the guard is cleared and the sets stay disjoint |
| TranslationCoordinators.TranslationCoordinator.CompleteSuccess | src/entrypoints/subtitles.content/translation-coordinator.ts:125-131 | the returned starts move from translating to translated; the fragments are delivered and then 'idle' is logged |
| TranslationCoordinators.TranslationCoordinator.CompleteFailure | src/entrypoints/subtitles.content/translation-coordinator.ts:133-148 | the batch's starts move from translating to failed; in translation-only mode the batch is delivered with its text as translation; then 'error' with the message |
| SegmentationPipelines.AnyUnclaimed | src/entrypoints/subtitles.content/segmentation-pipeline.ts:34-36 | true exactly when some raw fragment's start is unclaimed |
| SegmentationPipelines.FirstUnclaimed | src/entrypoints/subtitles.content/segmentation-pipeline.ts:112-115 | the first unclaimed raw fragment starting at or after the search start, or -1 |
| SegmentationPipelines.Window | src/entrypoints/subtitles.content/segmentation-pipeline.ts:120-123 | the unclaimed raw fragments, in raw order, with start in [lo, hi) |
| SegmentationPipelines.NextChunk | src/entrypoints/subtitles.content/segmentation-pipeline.ts:111-124 | empty exactly when no unclaimed fragment starts at or after max(0, t-10000); otherwise the window of the look-ahead after the first such fragment |
| SegmentationPipelines.NextChunkStartsAtFirst | src/entrypoints/subtitles.content/segmentation-pipeline.ts:113-123 | a non-empty chunk starts with the fragment the search found |
| SegmentationPipelines.ChunkStartsFresh | src/entrypoints/subtitles.content/segmentation-pipeline.ts:82-86 | every chunk start is a raw start that is not claimed yet |
| SegmentationPipelines.Outside | src/entrypoints/subtitles.content/segmentation-pipeline.ts:94-96 | the kept fragments: in order, exactly those starting before the chunk's start or after its end |
| SegmentationPipelines.Replaced | src/entrypoints/subtitles.content/segmentation-pipeline.ts:92-98 | the processed list after replacement is sorted and is a permutation of the fragments outside the chunk's span plus the AI's: the same multiset, hence the same length |
| SegmentationPipelines.ClaimShrinks | src/entrypoints/subtitles.content/segmentation-pipeline.ts:86 | claiming a non-empty chunk leaves strictly fewer unclaimed starts |
| SegmentationPipelines.SegmentationPipeline.constructor | src/entrypoints/subtitles.content/segmentation-pipeline.ts:9-28 | nothing processed, claimed or failed; neither running nor stopped |
| SegmentationPipelines.SegmentationPipeline.HasUnprocessedChunks | src/entrypoints/subtitles.content/segmentation-pipeline.ts:34-36 | true exactly when some raw fragment's start is not claimed |
| SegmentationPipelines.SegmentationPipeline.Stop | src/entrypoints/subtitles.content/segmentation-pipeline.ts:43-45 | the stop flag is set; nothing else changes |
| SegmentationPipelines.SegmentationPipeline.ClearFailedStarts | src/entrypoints/subtitles.content/segmentation-pipeline.ts:51-56 | the failed starts are removed from the claimed set and the failed set empties |
| SegmentationPipelines.SegmentationPipeline.BeginChunk | src/entrypoints/subtitles.content/segmentation-pipeline.ts:81-86 | the chunk is the next one; its starts are all claimed before any reply; work is done exactly when it is non-empty |
| SegmentationPipelines.SegmentationPipeline.ClaimStarts | src/entrypoints/subtitles.content/segmentation-pipeline.ts:86 | the claimed set grows by exactly the chunk's starts |
| SegmentationPipelines.SegmentationPipeline.CompleteChunk | src/entrypoints/subtitles.content/segmentation-pipeline.ts:88-106 | without configuration nothing is added; AI success replaces the chunk's span; AI failure records the failed starts and appends the optimizer's output; the list stays sorted and failed ⊆ claimed |
| SegmentationPipelines.SegmentationPipeline.MarkFailed | src/entrypoints/subtitles.content/segmentation-pipeline.ts:102 | the failed set grows by exactly the chunk's starts |
| SegmentationPipelines.SegmentationPipeline.RunLoop | src/entrypoints/subtitles.content/segmentation-pipeline.ts:58-79 | a no-op while running or without a video; otherwise it runs at most one iteration per raw fragment and ends stopped, with nothing unclaimed, or on an empty chunk; running is cleared on exit |
| SegmentationPipelines.SegmentationPipeline.ProcessNextChunk | src/entrypoints/subtitles.content/segmentation-pipeline.ts:81-109 | work is done exactly when a chunk is found near the time; without one nothing changes; with one at least one new raw start is claimed, so the unclaimed set shrinks |
| SegmentationPipelines.SegmentationPipeline.Start | src/entrypoints/subtitles.content/segmentation-pipeline.ts:38-41 | the stop flag is cleared and the loop runs |
| SegmentationPipelines.SegmentationPipeline.Restart | src/entrypoints/subtitles.content/segmentation-pipeline.ts:47-49 | the loop runs with the stop flag kept, so a stopped pipeline does nothing |
| Translator.StatusKey | src/utils/subtitles/processor/translator.ts:14-24 | 429 maps to rate-limited, 401/403 to auth-failed and 500/502/503 to service-unavailable; every other status maps to no key |
| Translator.ToFriendlyErrorMessage | src/utils/subtitles/processor/translator.ts:12-34 | a recognised API status wins; otherwise 'No Response'/'Empty response' maps to no-response; otherwise the message itself |
| Translator.UnknownStatusUsesMessage | src/utils/subtitles/processor/translator.ts:13-27 | an unrecognised status falls through to the message rules |
| Translator.TranslateSingleSubtitle | src/utils/subtitles/processor/translator.ts:41-65 | the title and context are sent only with AI content awareness on, else '' |
| Translator.Requests | src/utils/subtitles/processor/translator.ts:82-89 | one request per fragment, in order |
| Translator.BlankTranslations | src/utils/subtitles/processor/translator.ts:72-80 | each fragment with translation '' |
| Translator.MergeResults | src/utils/subtitles/processor/translator.ts:97-103 | fragment i keeps start, end and text and takes result i's value, or '' if it was rejected |
| Translator.TranslateSubtitles | src/utils/subtitles/processor/translator.ts:67-104 | no config or no provider gives blank translations; it fails exactly with a non-empty input and every request rejected, with the first rejection's message; otherwise the merge |
| Translator.TranslateSubtitlesShape | src/utils/subtitles/processor/translator.ts:67-104 | a success lists the input's fragments in order, each translation '' or a fulfilled value |
| Translator.EmptyInputNeverThrows | src/utils/subtitles/processor/translator.ts:93 | an empty input returns [] |
| Translator.MergeIgnoresOldTranslations | src/utils/subtitles/processor/translator.ts:97-103 | the merge ignores the translations the fragments already had |
| Translator.TranslateSubtitlesStarts | src/utils/subtitles/processor/translator.ts:97-103 | a success keeps exactly the input's start times |
| AiSegmentation.CollapseSpaces | src/utils/subtitles/processor/ai-segmentation.ts:9 | empty only for empty input; starts with white space exactly when the input does; every white-space character left is a plain space followed by no other |
| AiSegmentation.CollapseKeepsWord | src/utils/subtitles/processor/ai-segmentation.ts:9 | a run of characters other than white space is copied unchanged |
| AiSegmentation.CollapseRun | src/utils/subtitles/processor/ai-segmentation.ts:9 | a maximal white-space run becomes exactly one space; with `CollapseKeepsWord` this fixes the result on every input |
| AiSegmentation.CleanText | src/utils/subtitles/processor/ai-segmentation.ts:9 | the cleaned text is empty or in clean form: no line break, no margin, single spaces |
| AiSegmentation.CleanFragmentsForAi | src/utils/subtitles/processor/ai-segmentation.ts:5-12 | start, end and order are kept; every output text is non-empty, with no line break, no margin and no double white space |
| AiSegmentation.CleanOne | src/utils/subtitles/processor/ai-segmentation.ts:7-11 | a fragment is kept, with its times, exactly when its cleaned text is non-empty |
| AiSegmentation.CleanConcat | src/utils/subtitles/processor/ai-segmentation.ts:6-11 | fragments are cleaned one by one, in order |
| AiSegmentation.CleanTextIdempotent | src/utils/subtitles/processor/ai-segmentation.ts:9 | cleaning cleaned text changes nothing |
| AiSegmentation.MatchTimestampSound | src/utils/subtitles/processor/ai-segmentation.ts:47-50 | a match means the line is, in full, digits, optional white space, `-->`, optional white space, digits, and the values are the two numbers |
| AiSegmentation.MatchTimestampExact | src/utils/subtitles/processor/ai-segmentation.ts:47-50 | every line of that shape matches with its two numbers, so every other line fails to match |
| AiSegmentation.TimestampLineMatches | src/utils/subtitles/processor/ai-segmentation.ts:47-50 | a line `a --> b` matches with values a and b |
| AiSegmentation.ParseSimplifiedVttToFragments | src/utils/subtitles/processor/ai-segmentation.ts:33-74 | the loop implementation gives exactly the reference parse of the trimmed, split reply |
| AiSegmentation.SkipHeader | src/utils/subtitles/processor/ai-segmentation.ts:39-41 | the header loop stops at the first line holding '-->' |
| AiSegmentation.ReadCue | src/utils/subtitles/processor/ai-segmentation.ts:44-70 | one turn of the outer loop reads what the reference step reads and moves past it |
| AiSegmentation.CollectTextLines | src/utils/subtitles/processor/ai-segmentation.ts:53-58 | the trimmed text lines up to a blank or '-->' line, and where they stop |
| AiSegmentation.HeaderIgnored | src/utils/subtitles/processor/ai-segmentation.ts:38-41 | whatever precedes the first '-->' line is ignored |
| AiSegmentation.CuesAtTimestamp | src/utils/subtitles/processor/ai-segmentation.ts:48-66 | at a timestamp line: one fragment when text lines follow, or none, and parsing resumes at the line that ended the cue |
| AiSegmentation.CuesAtOther | src/utils/subtitles/processor/ai-segmentation.ts:68-70 | any other line is skipped |
| AiSegmentation.CueTextNonEmpty | src/utils/subtitles/processor/ai-segmentation.ts:60-62 | a cue's joined text is never empty |
| AiSegmentation.ParseRoundTrip | src/utils/subtitles/processor/ai-segmentation.ts:22-74 | a reply in the documented format parses back to one fragment per cue, with its times and its text lines joined by line breaks |
| AiSegmentation.AiSegmentBlock | src/utils/subtitles/processor/ai-segmentation.ts:79-107 | empty input, or input with nothing left after cleaning, is returned unchanged; otherwise the result is the parsed reply, never empty; a failed or empty reply is an error |
| NoiseFilter.CloseIndex | src/utils/subtitles/fetchers/youtube/noise-filter.ts:8-12 | the position of the first closing mark or line terminator |
| NoiseFilter.FilterNoiseText | src/utils/subtitles/fetchers/youtube/noise-filter.ts:15-21 | the pattern loop equals applying the five patterns in order |
| NoiseFilter.RemoveSpansNoMatch | src/utils/subtitles/fetchers/youtube/noise-filter.ts:18 | after one pattern's replace, no span of that pattern is left |
| NoiseFilter.RemoveSpansKeepsNoMatch | src/utils/subtitles/fetchers/youtube/noise-filter.ts:17-19 | a later replace never recreates an earlier pattern's span |
| NoiseFilter.FilterNoiseClean | src/utils/subtitles/fetchers/youtube/noise-filter.ts:7-21 | filtered text has no bracket, paren, ♪, 🎵 or 🎶 span left on any line |
| NoiseFilter.FilterNoiseIdempotent | src/utils/subtitles/fetchers/youtube/noise-filter.ts:15-21 | filtering text twice is filtering it once |
| NoiseFilter.RemoveSpansBetween | src/utils/subtitles/fetchers/youtube/noise-filter.ts:18 | an annotation between plain text is removed and the text around it is kept exactly |
| NoiseFilter.BracketsRemovedInMiddle | src/utils/subtitles/__tests__/noise-filter.test.ts:35-60 | the bracket pattern alone turns 'Hello [Music] World' into 'Hello  World' |
| NoiseFilter.MiddleAnnotationRemoved | src/utils/subtitles/fetchers/youtube/noise-filter.ts:7-21 | 'Hello [Music] World' filters to 'Hello  World' |
| NoiseFilter.FilterSegsOne | src/utils/subtitles/fetchers/youtube/noise-filter.ts:28-33 | a segment is dropped exactly when its filtered text is white space only; a kept one keeps its offset |
| NoiseFilter.FilterSegsConcat | src/utils/subtitles/fetchers/youtube/noise-filter.ts:28-33 | segments are filtered one by one, in order |
| NoiseFilter.FilterNoiseFromEvents | src/utils/subtitles/fetchers/youtube/noise-filter.ts:23-37 | the same events in the same order with their times; an event without segments is unchanged |
| NoiseFilter.FilterNoiseFromEventsIdempotent | src/utils/subtitles/fetchers/youtube/noise-filter.ts:23-37 | filtering events twice is filtering them once |
| PotTokens.MatchAudioTrack | src/utils/subtitles/fetchers/youtube/pot-token.ts:14-34 | no track is consulted exactly when there are no audio tracks; otherwise one of them is |
| PotTokens.ExtractPotToken | src/utils/subtitles/fetchers/youtube/pot-token.ts:8-56 | the consulted track's non-empty `pot` wins, then the observed URL's, else none; `pot` is non-empty or null, and a null `pot` means a null `potc` |
| PotTokens.OnlyConsultedTrackMatters | src/utils/subtitles/fetchers/youtube/pot-token.ts:36-53 | changing any audio track other than the consulted one changes nothing |
| PotTokens.FallsBackToFirstAudioTrack | src/utils/subtitles/fetchers/youtube/pot-token.ts:32-34 | with no id or language match the first audio track is consulted |
| PotTokens.PrefersSameVssId | src/utils/subtitles/fetchers/youtube/pot-token.ts:15-16 | the first track with the same `vssId` is consulted whenever there is one |
| PotTokens.PrefersSameLanguageAndKind | src/utils/subtitles/fetchers/youtube/pot-token.ts:19-24 | without a `vssId` match, the first track with the same language and kind is consulted |
| PotTokens.PrefersSameLanguage | src/utils/subtitles/fetchers/youtube/pot-token.ts:26-30 | without a `vssId` or a language-and-kind match, the first track with the same language is consulted |
| UrlBuilder.FixedParamsDistinct | src/utils/subtitles/fetchers/youtube/url-builder.ts:13-20 | the six fixed names are distinct |
| UrlBuilder.BuildSubtitleUrl | src/utils/subtitles/fetchers/youtube/url-builder.ts:22-56 | every name ends with the value of the last step that sets it; every other pair of the base URL is kept in order |
| UrlBuilder.SetFixedParams | src/utils/subtitles/fetchers/youtube/url-builder.ts:29-31 | each fixed name gets its fixed value; other names are unchanged |
| UrlBuilder.SetDeviceParams | src/utils/subtitles/fetchers/youtube/url-builder.ts:33-41 | a device name is set only when the device string gives it a non-empty value |
| UrlBuilder.FixedParamsWin | src/utils/subtitles/fetchers/youtube/url-builder.ts:29-53 | no later step overwrites a fixed parameter |
| UrlBuilder.NoTokenKeepsBase | src/utils/subtitles/fetchers/youtube/url-builder.ts:47-53 | without a token the base URL's own `pot`/`potc` stay |
| YoutubeFetchers.SelectTrack | src/utils/subtitles/fetchers/youtube/index.ts:243-271 | null exactly for an empty list; otherwise an element of the list |
| YoutubeFetchers.SelectTrackIsFirstBest | src/utils/subtitles/fetchers/youtube/index.ts:243-271 | the chosen track is the first of least rank: selected language, then unnamed human, then human, then speech recognition |
| YoutubeFetchers.SelectedLanguageWins | src/utils/subtitles/fetchers/youtube/index.ts:248-252 | the first track in the selected language wins whenever there is one |
| YoutubeFetchers.UnnamedHumanTrackPreferred | src/utils/subtitles/fetchers/youtube/index.ts:254-258 | [speech recognition, named, unnamed] gives the unnamed track |
| YoutubeFetchers.TrackKeyFields | src/utils/subtitles/fetchers/youtube/index.ts:144 | the key splits back into its four fields when none contains ':' |
| YoutubeFetchers.TrackKeyInjective | src/utils/subtitles/fetchers/youtube/index.ts:144 | with colon-free fields, equal keys mean the same video and track identity |
| YoutubeFetchers.ComputeTrackHash | src/utils/subtitles/fetchers/youtube/index.ts:128-145 | null exactly without a video id, a reply or a track; otherwise the non-empty key of the track `selectTrack` picks |
| YoutubeFetchers.Classify | src/utils/subtitles/fetchers/youtube/index.ts:280-311 | 403/404/429 are permanent with their own messages; every other failure is retryable; a well-formed OK ends the run |
| YoutubeFetchers.RequestsMade | src/utils/subtitles/fetchers/youtube/index.ts:276-316 | between one and the number of attempts |
| YoutubeFetchers.FirstDecisiveWins | src/utils/subtitles/fetchers/youtube/index.ts:276-316 | the first attempt that is not retried decides, after exactly the requests up to it |
| YoutubeFetchers.PermanentAfterOneRequest | src/utils/subtitles/fetchers/youtube/index.ts:282-289 | a first 403, 404 or 429 fails after one request with that error |
| YoutubeFetchers.AllRetryableFails | src/utils/subtitles/fetchers/youtube/index.ts:311-318 | when every attempt is retried, all are made and the error is the last one's |
| YoutubeFetchers.SuccessFromOkAttempt | src/utils/subtitles/fetchers/youtube/index.ts:298-304 | a success carries the events of a well-formed response |
| YoutubeFetchers.FetchWithRetry | src/utils/subtitles/fetchers/youtube/index.ts:273-319 | the loop gives the reference outcome of the first five attempts, with between 1 and 5 requests and a 1000 ms sleep between consecutive ones |
| YoutubeFetchers.WaitForPlayerState | src/utils/subtitles/fetchers/youtube/index.ts:147-157 | it stops at the first ready reply or after 20 polls, sleeping 300 ms after each reply that is not ready |
| YoutubeFetchers.RawEventsRoute | src/utils/subtitles/fetchers/youtube/index.ts:322-340 | karaoke always goes to the karaoke parser; otherwise AI segmentation gives the standard parser unoptimised; otherwise the format's parser followed by the optimizer |
| YoutubeFetchers.PrefilteredEventsSameResult | src/utils/subtitles/fetchers/youtube/index.ts:325 | events already filtered give the same result |
| YoutubeFetchers.YoutubeSubtitlesFetcher.constructor | src/utils/subtitles/fetchers/youtube/index.ts:66-68 | empty cache, empty language, no key |
| YoutubeFetchers.YoutubeSubtitlesFetcher.ShouldUseSameTrack | src/utils/subtitles/fetchers/youtube/index.ts:114-126 | true exactly when `fetch` would return the cached list |
| YoutubeFetchers.YoutubeSubtitlesFetcher.Cleanup | src/utils/subtitles/fetchers/youtube/index.ts:108-112 | the cache, language and key are cleared, and then no key matches |
| YoutubeFetchers.YoutubeSubtitlesFetcher.Fetch | src/utils/subtitles/fetchers/youtube/index.ts:70-102 | no video id: video-not-found; a matching key with a non-empty cache: the cache; no player data: timeout; no track: no-subtitles-found; otherwise the request is made, to the URL `buildSubtitleUrl` gives for the selected track and its token, and the retry outcome decides; on success the cache, language and key are updated; failures change nothing |
| YoutubeFetchers.FixedParamsWinFmt | src/utils/subtitles/fetchers/youtube/url-builder.ts:14 | the caption request always carries `fmt=json3` |
| TimedtextObservers.CacheKey | src/entrypoints/interceptor.content/timedtext-observer.ts:5-9 | a URL is cached exactly when it is a timed-text URL with non-empty `v` and `pot`, and under that `v` |
| TimedtextObservers.RemoveAt | src/entrypoints/interceptor.content/timedtext-observer.ts:37 | the list without the element at k, the others in order |
| TimedtextObservers.TimedtextObserver.constructor | src/entrypoints/interceptor.content/timedtext-observer.ts:1-2 | empty cache, no waiters |
| TimedtextObservers.TimedtextObserver.GetCachedTimedtextUrl | src/entrypoints/interceptor.content/timedtext-observer.ts:62-64 | the URL cached for the video, or null |
| TimedtextObservers.TimedtextObserver.Resolve | src/entrypoints/interceptor.content/timedtext-observer.ts:14 | a waiter is resolved at most once |
| TimedtextObservers.TimedtextObserver.CacheTimedtextUrl | src/entrypoints/interceptor.content/timedtext-observer.ts:4-19 | a qualifying URL is cached under its id, and that video's waiters are all resolved with it and removed; any other URL changes nothing |
| TimedtextObservers.TimedtextObserver.ResolveAll | src/entrypoints/interceptor.content/timedtext-observer.ts:14 | every listed waiter is resolved with the URL and nothing else changes |
| TimedtextObservers.TimedtextObserver.WaitForTimedtextUrl | src/entrypoints/interceptor.content/timedtext-observer.ts:21-31 | a cached URL returns at once with no waiter; otherwise a fresh waiter is appended to the video's list |
| TimedtextObservers.TimedtextObserver.Timeout | src/entrypoints/interceptor.content/timedtext-observer.ts:32-41 | a still-listed waiter alone is removed and resolved with the cached URL or null; otherwise nothing happens |
| TimedtextObservers.TimeoutKeepsSound | src/entrypoints/interceptor.content/timedtext-observer.ts:32-41 | taking a waiter off its list and resolving it keeps every listed waiter unresolved, handed out and listed once |
| InterceptorUtils.ErrorResponse | src/entrypoints/interceptor.content/utils.ts:12-19 | a failed player-data reply echoing the request id and the error |
| InterceptorUtils.AbsoluteUrl | src/entrypoints/interceptor.content/utils.ts:24 | a URL with '://' is kept, any other gets the origin prefixed |
| InterceptorUtils.NormalizeTracks | src/entrypoints/interceptor.content/utils.ts:21-26 | the same tracks in order, each with only its URL made absolute |
| InterceptorUtils.AbsoluteUrlHasScheme | src/entrypoints/interceptor.content/utils.ts:24 | with an origin that has a scheme, every result has one |
| InterceptorUtils.NormalizeTracksIdempotent | src/entrypoints/interceptor.content/utils.ts:21-26 | with an origin that has a scheme (contains '://'), normalising twice is normalising once |
| InterceptorUtils.AudioTrackOf | src/entrypoints/interceptor.content/utils.ts:31-36 | URL, id and kind copied; the language is the URL's `lang` |
| InterceptorUtils.ParseAudioTracks | src/entrypoints/interceptor.content/utils.ts:28-42 | a missing list reads as empty; tracks whose URL does not parse are dropped |
| InterceptorUtils.ParseTracksConcat | src/entrypoints/interceptor.content/utils.ts:29 | the parse of a concatenation is the concatenation of the parses |
| InterceptorUtils.ParseTracksMembers | src/entrypoints/interceptor.content/utils.ts:29-41 | each output comes from an input whose URL parses, and each such input yields its track |
| InterceptorUtils.ParseTracksAllParse | src/entrypoints/interceptor.content/utils.ts:29-41 | when every URL parses, track i becomes output i |
| VideoIds.RunLength | src/utils/subtitles/video-id/youtube.ts:7 | the length of the maximal run of characters other than '/' and '?' |
| VideoIds.FirstEmbed | src/utils/subtitles/video-id/youtube.ts:7 | the leftmost match of `/embed/` followed by a segment character, or -1 |
| VideoIds.GetYoutubeVideoId | src/utils/subtitles/video-id/youtube.ts:1-18 | a non-empty `v` wins; then the first embed segment; then, on youtu.be, the first path segment; else null; a path result contains no '/' or '?' |
| VideoIds.EmbedPathExample | src/utils/subtitles/video-id/youtube.ts:7-9 | '/embed/ab/cd' gives 'ab' |
| UniversalAdapters.ConcatTextsAppend | src/entrypoints/subtitles.content/universal-adapter.ts:235 | the context of two lists is the concatenation of their contexts |
| UniversalAdapters.ConcatTextsHoldsEveryText | src/entrypoints/subtitles.content/universal-adapter.ts:233-236 | every fragment's text occurs in the subtitle context |
| UniversalAdapters.StateAfter | src/entrypoints/subtitles.content/universal-adapter.ts:256 | the replayed state is the initial one or one the coordinator reported, and the initial one when none was |
| UniversalAdapters.StateAfterLastReport | src/entrypoints/subtitles.content/universal-adapter.ts:256 | the last reported state decides |
| UniversalAdapters.ShownAfterStateChangesOnly | src/entrypoints/subtitles.content/universal-adapter.ts:256 | state changes alone leave the scheduler's list, index and on-screen subtitle as they were |
| UniversalAdapters.ShownAfterConcat | src/entrypoints/subtitles.content/universal-adapter.ts:255-256 | replaying two runs of callbacks one after the other is replaying them at once |
| UniversalAdapters.Replay | src/entrypoints/subtitles.content/universal-adapter.ts:255-256 | the scheduler, receiving the callbacks in order, ends in the last reported state and with the subtitles `ShownAfter` gives; visibility unchanged |
| UniversalAdapters.StartNew | src/entrypoints/subtitles.content/universal-adapter.ts:249-258 | a new coordinator started with a context: nothing translated or failed, and with a video the first `batchSize` fragments near the time in flight, with 'processing' logged iff one of them is not yet translated and covers the time |
| UniversalAdapters.Resume | src/entrypoints/subtitles.content/translation-coordinator.ts:37-55 | restarting a coordinator with no failed starts: with a video and no batch outstanding, the batch excludes only the translated starts |
| UniversalAdapters.UniversalVideoAdapter.constructor | src/entrypoints/subtitles.content/universal-adapter.ts:17-49 | no coordinator or pipeline, empty lists, no cached id, captions not hidden, the default position |
| UniversalAdapters.UniversalVideoAdapter.VideoIdChanged | src/entrypoints/subtitles.content/universal-adapter.ts:32-35 | a change only when a non-empty cached id and a different non-empty current id both exist |
| UniversalAdapters.UniversalVideoAdapter.CurrentFragments | src/entrypoints/subtitles.content/universal-adapter.ts:244-246 | the pipeline's processed fragments when there is a pipeline, else the plain list |
| UniversalAdapters.UniversalVideoAdapter.StartedPipelineView | src/entrypoints/subtitles.content/segmentation-pipeline.ts:38-41 | right after the pipeline is started, the first tick never asks for a restart |
| UniversalAdapters.UniversalVideoAdapter.HideNativeSubtitles | src/entrypoints/subtitles.content/universal-adapter.ts:158-180 | captions hidden and the style present; a style element is appended only when none is in the document; nothing else changes |
| UniversalAdapters.UniversalVideoAdapter.ShowNativeSubtitles | src/entrypoints/subtitles.content/universal-adapter.ts:148-156 | captions shown; the style is removed only if the adapter had hidden them |
| UniversalAdapters.UniversalVideoAdapter.DestroyScheduler | src/entrypoints/subtitles.content/universal-adapter.ts:67-71 | the old scheduler is reset to idle and stopped, and dropped |
| UniversalAdapters.UniversalVideoAdapter.StopCoordinator | src/entrypoints/subtitles.content/translation-coordinator.ts:57-65 | while the adapter holds a scheduler (the coordinator's only source of a video element, src/entrypoints/subtitles.content/universal-adapter.ts:253) the listeners are detached and the pipeline stopped; without one nothing changes; the sets and lists are unchanged |
| UniversalAdapters.UniversalVideoAdapter.ForwardEvents | src/entrypoints/subtitles.content/universal-adapter.ts:255-256 | the scheduler ends in the last state the coordinator reported, and its list, index, clock, on-screen subtitle and store writes are those of `supplementSubtitles` applied to each translated batch in order (`ShownAfter`); its visibility is unchanged |
| UniversalAdapters.UniversalVideoAdapter.ResetForNavigation | src/entrypoints/subtitles.content/universal-adapter.ts:54-65 | every component dropped, the scheduler destroyed first, so the coordinator's `stop` finds no video: the dropped coordinator keeps its listeners and its pipeline is not stopped; the fetcher's cache cleared so no key matches, captions shown, the default position, and no id counts as a change |
| UniversalAdapters.UniversalVideoAdapter.ResetForNavigationStoppingFirst | src/entrypoints/subtitles.content/universal-adapter.ts:54-65 | the same reset with the coordinator stopped before the scheduler is destroyed: the dropped coordinator no longer listens and its pipeline is stopped whenever there was a video |
| UniversalAdapters.UniversalVideoAdapter.DropAllButScheduler | src/entrypoints/subtitles.content/universal-adapter.ts:57-64 | coordinator, pipeline, lists and cached id cleared, the fetcher's cache cleared, captions shown, the default position; the scheduler kept |
| UniversalAdapters.UniversalVideoAdapter.HandleToggleSubtitles | src/entrypoints/subtitles.content/universal-adapter.ts:134-146 | on: the scheduler active and visible, captions hidden, a translation started; off: the scheduler hidden, captions shown, and the coordinator stopped exactly when a scheduler hands it the video |
| UniversalAdapters.UniversalVideoAdapter.ResumeSameTrack | src/entrypoints/subtitles.content/universal-adapter.ts:190-196 | the failed starts of the coordinator and the pipeline are cleared and the coordinator resumes with its old context, attaching its listeners and starting the pipeline only while a scheduler holds the video; with a video and no batch outstanding, the first eligible batch, which may now hold the formerly failed starts, goes in flight, and the scheduler ends in the state that tick reports ('processing' or none, keeping the old state) while its subtitle list is unchanged |
| UniversalAdapters.UniversalVideoAdapter.DropForFetch | src/entrypoints/subtitles.content/universal-adapter.ts:198-203 | the coordinator stopped (only while a scheduler holds the video) and dropped, the pipeline and plain list dropped, the scheduler reset to 'fetching' |
| UniversalAdapters.UniversalVideoAdapter.StartTranslation | src/entrypoints/subtitles.content/universal-adapter.ts:182-203 | the id is cached; the same track resumes without a fetch; any other track drops everything and awaits a fetch |
| UniversalAdapters.UniversalVideoAdapter.CompleteFetch | src/entrypoints/subtitles.content/universal-adapter.ts:205-225 | a toast error is toasted; any other error becomes the error state; an empty list shows no-subtitles-found; a non-empty list is processed: a fresh coordinator with the title and text as context, 'processing' shown, and with a video the first batch of the fragments near the time in flight |
| UniversalAdapters.UniversalVideoAdapter.ProcessSubtitles | src/entrypoints/subtitles.content/universal-adapter.ts:227-259 | 'processing' is shown and stays shown after the first tick; a pipeline is set up with AI segmentation, else the plain list; a fresh coordinator starts with the title and the whole subtitle text as context, and with a video its first batch is the first `batchSize` fragments near the time, in flight with their starts translating; the scheduler's subtitle list is unchanged |
| UniversalAdapters.UniversalVideoAdapter.SetUpFragments | src/entrypoints/subtitles.content/universal-adapter.ts:229-247 | with AI segmentation a new pipeline over the fetched subtitles with nothing claimed or processed; otherwise the plain list is the fetched subtitles; nothing else changes |
| UniversalAdapters.UniversalVideoAdapter.StartCoordinator | src/entrypoints/subtitles.content/universal-adapter.ts:249-258 | a fresh coordinator with the given context is started over the current fragments; 'processing' stays shown; its first batch is in flight and the subtitle list is unchanged |
| UniversalAdapters.ToggleOnTwiceThenOff | src/entrypoints/subtitles.content/universal-adapter.ts:148-180 | turning on twice appends at most one style; turning off leaves none |
| UniversalAdapters.NavigationDetection | src/entrypoints/subtitles.content/universal-adapter.ts:32-35 | no change before a start; after starting on "a", "b" is a change and "a" is not; after the reset nothing is |
| UniversalAdapters.StaleListenersAfterReset | src/entrypoints/subtitles.content/universal-adapter.ts:54-57 | after a translation started on a video, the reset as written leaves the dropped coordinator listening; stopping it first does not |

## Left out

- I/O and timing:
  - The DOM, `postMessage` between the page and the content script, `fetch` and URL string parsing are left out. Their results are parameters: player-data replies, HTTP responses and parsed URLs.
  - Serialising a URL back to a string is not modelled.
- Opaque dependencies:
  - The format detector, the karaoke, standard and scrolling-ASR parsers and `optimizeSubtitles` are function parameters, because they are not part of this model.
  - The AI request of `aiSegmentBlock` and the translation requests are settled outcomes passed in.
  - `getLocalConfig` is an `Option` passed in. Its rejection is not modelled.
- JavaScript concurrency: interleavings of awaits inside one operation are not modelled.
  - The pipeline's loop finishes its chunks before a `stop` takes effect.
  - A coordinator `reset` while a batch is in flight abandons that batch.
  - A second `startTranslation` begun during the first's fetch is not modelled.
- SubtitlesSchedulers.SubtitlesScheduler.constructor: the stores (current time, current subtitle, state, visibility) are fields of each scheduler, while the source keeps them in the module-wide `subtitlesStore`, which the constructor does not touch. A scheduler created after a navigation therefore starts, in the source, with the previous one's time and visibility. The model starts it from the initial values and does not capture that sharing.
- `UniversalAdapters.UniversalVideoAdapter.StopCoordinator`: it stops the adapter's current pipeline, not the one the coordinator captured at construction. The two are the same unless two translations interleave.
- Left out of the fetcher:
  - `getPlayerDataWithPot`, `ensureSubtitlesEnabled`, `hasPotInAudioTracks` and `requestPlayerData`: their result is the `playerData` argument of `Fetch`, `None` when they throw.
  - `getSourceLanguage`: it is the `sourceLanguage` field.
- Adapter wiring:
  - `initialize`, `initializeScheduler`'s wait for the video element, `renderTranslateButton`, `setupNavigationListener` and its 1000 ms timer, and `handleNavigation` are left out. `VideoIdChanged` and `ResetForNavigation` are the parts of them that decide anything.
  - Toasts are logged as messages.
  - Which fetch errors are `ToastSubtitlesError`: src/utils/subtitles/errors.ts is not part of this model, so `FetchFailure.isToast` is an input. The YouTube fetcher raises only `OverlaySubtitlesError` and `Error`.
  - The fetch outcome is passed to `CompleteFetch`, and `YoutubeSubtitlesFetcher.Fetch` models how it is produced.
- Started loops: starting the pipeline's loop from the coordinator or the adapter, and the pipeline restart the heartbeat requests, are returned as flags. `SegmentationPipeline.Start` and `Restart` model what the caller then runs.
- `handleSeek` of the coordinator, restarting the pipeline after a seek, is the same `Restart`; its listener is not modelled.
- `setupTimedtextObserver`, which patches `XMLHttpRequest`, is left out. What it calls is `CacheTimedtextUrl` with the request URL.
- `formatFragmentsToJson` and its JSON encoding are left out. The AI request body they build is not modelled.
- `SubtitlesSchedulers.MergedShape`: the closed form of the merge requires a live list without repeated starts. With repeated starts the source copies the last duplicate's fields into the first one's index. `Merged` still models that case step by step.
- `SubtitlesSchedulers.SupplementedContents`: it is proved only for a live list without repeated starts. Repeated starts can arise, since two incoming fragments with the same new start are both appended. With them, a translation update writes the last duplicate (its end, text and translation) over the first duplicate's index, so the first duplicate's end and text are overwritten and that fragment is lost. `Merged` models this step by step.
- `SubtitleTypes.SortByStart`: it is specified as the stable insertion sort. `Array.prototype.sort` is required to be stable, so the two agree on every input, but V8's algorithm itself is not modelled.
- Numeric widths: JavaScript numbers are modelled as unbounded integers; millisecond times never approach 2^53.

## Findings

| source | as written | input that shows it | evidently intended | confidence | as-written member | corrected member |
|---|---|---|---|---|---|---|
| src/entrypoints/subtitles.content/universal-adapter.ts:54-57 | `resetForNavigation` calls `destroyScheduler()` and only then `translationCoordinator?.stop()`; `stop` gets its video through the scheduler (universal-adapter.ts:253), finds none and returns at translation-coordinator.ts:58-60 | start a translation on a video, then navigate to another video id: the old coordinator's `timeupdate`/`seeked` listeners stay on the reused video element and its segmentation pipeline is not stopped | stop the coordinator while the scheduler still hands it the video, then destroy the scheduler | not executed; medium (whether the player reuses the element is outside the code) | UniversalAdapters.UniversalVideoAdapter.ResetForNavigation, UniversalAdapters.StaleListenersAfterReset | UniversalAdapters.UniversalVideoAdapter.ResetForNavigationStoppingFirst |
