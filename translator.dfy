/** The subtitle translator (src/utils/subtitles/processor/translator.ts):
    classification of translation errors into user-facing messages, the
    request sent per fragment, and the merging of the settled per-fragment
    results into the translated list. The configuration read and the
    translation requests are inputs: the configuration comes in already
    read, and each request's outcome comes in as a settled result. */
module Translator {
  import opened Wrappers
  import opened Strings
  import opened SubtitleTypes

  /** What a translation request can reject with: an `APICallError` (with
      its optional HTTP status), another `Error`, or a non-`Error` value
      given by its `String(...)` rendering. */
  datatype Rejection =
    | ApiCallError(statusCode: Option<int>, message: string)
    | ErrorObject(message: string)
    | OtherValue(text: string)

  /** `error instanceof Error ? error.message : String(error)`. */
  function RejectionMessage(e: Rejection): string {
    match e
    case ApiCallError(_, m) => m
    case ErrorObject(m) => m
    case OtherValue(t) => t
  }

  const RateLimitedKey := "subtitles.errors.aiRateLimited"
  const AuthFailedKey := "subtitles.errors.aiAuthFailed"
  const ServiceUnavailableKey := "subtitles.errors.aiServiceUnavailable"
  const NoResponseKey := "subtitles.errors.aiNoResponse"

  /** The localised-message key an API status selects, if any. */
  function StatusKey(status: int): (r: Option<string>)
    ensures r == Some(RateLimitedKey) <==> status == 429
    ensures r == Some(AuthFailedKey) <==> status == 401 || status == 403
    ensures r == Some(ServiceUnavailableKey) <==> status in {500, 502, 503}
    ensures r.None? <==> status !in {401, 403, 429, 500, 502, 503}
  {
    if status == 429 then Some(RateLimitedKey)
    else if status == 401 || status == 403 then Some(AuthFailedKey)
    else if status == 500 || status == 502 || status == 503 then Some(ServiceUnavailableKey)
    else None
  }

  /** `toFriendlyErrorMessage`: a recognised API status first, then the
      no-response wording of the message, else the message itself. */
  function ToFriendlyErrorMessage(e: Rejection): (r: Message)
    ensures e.ApiCallError? && e.statusCode.Some? && StatusKey(e.statusCode.value).Some? ==>
      r == Localized(StatusKey(e.statusCode.value).value)
    ensures !(e.ApiCallError? && e.statusCode.Some? && StatusKey(e.statusCode.value).Some?) ==>
      (r == Localized(NoResponseKey) <==>
        Contains(RejectionMessage(e), "No Response") || Contains(RejectionMessage(e), "Empty response"))
    ensures r.Literal? <==>
      !(e.ApiCallError? && e.statusCode.Some? && StatusKey(e.statusCode.value).Some?)
      && !Contains(RejectionMessage(e), "No Response") && !Contains(RejectionMessage(e), "Empty response")
    ensures r.Literal? ==> r.text == RejectionMessage(e)
  {
    if e.ApiCallError? && e.statusCode.Some? && StatusKey(e.statusCode.value).Some? then
      Localized(StatusKey(e.statusCode.value).value)
    else
      var message := RejectionMessage(e);
      if Contains(message, "No Response") || Contains(message, "Empty response") then Localized(NoResponseKey)
      else Literal(message)
  }

  /** A status the switch does not name falls through to the message rules,
      exactly as an error without a status does. */
  lemma UnknownStatusUsesMessage(status: int, message: string)
    requires status !in {401, 403, 429, 500, 502, 503}
    ensures ToFriendlyErrorMessage(ApiCallError(Some(status), message)) == ToFriendlyErrorMessage(ErrorObject(message))
  {
  }

  datatype VideoContext = VideoContext(videoTitle: string, subtitlesTextContent: string)

  /** The part of the configuration the translator reads: whether the
      configured provider id resolves to a provider configuration, and the
      optional `enableAIContentAware` flag. */
  datatype TranslateConfig = TranslateConfig(providerFound: bool, enableAIContentAware: Option<bool>)

  /** The context fields of the message `translateSingleSubtitle` sends. */
  datatype TranslateRequest = TranslateRequest(text: string, videoTitle: string, subtitlesContext: string)

  /** The request for one fragment's text: the video title and subtitle
      context travel only when AI content awareness is on. */
  function TranslateSingleSubtitle(text: string, enableAIContentAware: bool, ctx: VideoContext): (r: TranslateRequest)
    ensures r.text == text
    ensures enableAIContentAware ==> r.videoTitle == ctx.videoTitle && r.subtitlesContext == ctx.subtitlesTextContent
    ensures !enableAIContentAware ==> r.videoTitle == "" && r.subtitlesContext == ""
  {
    TranslateRequest(text,
      if enableAIContentAware then ctx.videoTitle else "",
      if enableAIContentAware then ctx.subtitlesTextContent else "")
  }

  /** `!!config.translate.enableAIContentAware`. */
  function ContentAware(config: TranslateConfig): bool {
    config.enableAIContentAware == Some(true)
  }

  /** The requests `translateSubtitles` issues: one per fragment, in order. */
  function Requests(fragments: seq<Fragment>, config: TranslateConfig, ctx: VideoContext): (r: seq<TranslateRequest>)
    ensures |r| == |fragments|
    ensures forall i :: 0 <= i < |r| ==> r[i] == TranslateSingleSubtitle(fragments[i].text, ContentAware(config), ctx)
    decreases |fragments|
  {
    if |fragments| == 0 then []
    else [TranslateSingleSubtitle(fragments[0].text, ContentAware(config), ctx)] + Requests(fragments[1..], config, ctx)
  }

  /** One outcome of `Promise.allSettled`. */
  datatype Settled = Fulfilled(value: string) | Rejected(reason: Rejection)

  /** `fragments.map(f => ({ ...f, translation: '' }))`. */
  function BlankTranslations(fragments: seq<Fragment>): (r: seq<Fragment>)
    ensures |r| == |fragments|
    ensures forall i :: 0 <= i < |r| ==> r[i] == fragments[i].(translation := Some(""))
    decreases |fragments|
  {
    if |fragments| == 0 then []
    else [fragments[0].(translation := Some(""))] + BlankTranslations(fragments[1..])
  }

  /** The translation a settled result yields: its value, or '' when rejected. */
  function Translation(s: Settled): string {
    if s.Fulfilled? then s.value else ""
  }

  /** The final `fragments.map((fragment, index) => ...)`: fragment i keeps its
      times and text and takes result i's translation. */
  function MergeResults(fragments: seq<Fragment>, results: seq<Settled>): (r: seq<Fragment>)
    requires |results| == |fragments|
    ensures |r| == |fragments|
    ensures forall i :: 0 <= i < |r| ==>
      r[i].start == fragments[i].start && r[i].end == fragments[i].end && r[i].text == fragments[i].text
    ensures forall i :: 0 <= i < |r| ==>
      r[i].translation == Some(if results[i].Fulfilled? then results[i].value else "")
    decreases |fragments|
  {
    if |fragments| == 0 then []
    else [fragments[0].(translation := Some(Translation(results[0])))] + MergeResults(fragments[1..], results[1..])
  }

  predicate AllRejected(results: seq<Settled>) {
    forall i :: 0 <= i < |results| ==> results[i].Rejected?
  }

  /** `translateSubtitles`: `config` is what `getLocalConfig` returned and
      `results` the settled outcomes of the requests in `Requests` order. The
      failure is the error it throws. */
  function TranslateSubtitles(fragments: seq<Fragment>, config: Option<TranslateConfig>, results: seq<Settled>): (r: Result<seq<Fragment>, Message>)
    requires |results| == |fragments|
    ensures (config.None? || !config.value.providerFound) ==> r == Success(BlankTranslations(fragments))
    ensures r.Failure? <==> config.Some? && config.value.providerFound && |fragments| > 0 && AllRejected(results)
    ensures r.Failure? ==> r.error == ToFriendlyErrorMessage(results[0].reason)
    ensures config.Some? && config.value.providerFound && r.Success? ==> r.value == MergeResults(fragments, results)
  {
    if config.None? then Success(BlankTranslations(fragments))
    else if !config.value.providerFound then Success(BlankTranslations(fragments))
    else if AllRejected(results) && |results| > 0 then Failure(ToFriendlyErrorMessage(results[0].reason))
    else Success(MergeResults(fragments, results))
  }

  /** Whatever the outcome, a successful result lists the input's fragments
      with their times and text, in order, each with a translation that is
      '' or a fulfilled value. */
  lemma {:induction false} TranslateSubtitlesShape(fragments: seq<Fragment>, config: Option<TranslateConfig>, results: seq<Settled>)
    requires |results| == |fragments|
    requires TranslateSubtitles(fragments, config, results).Success?
    ensures var r := TranslateSubtitles(fragments, config, results).value;
      |r| == |fragments|
      && forall i :: 0 <= i < |r| ==>
        r[i].start == fragments[i].start && r[i].end == fragments[i].end && r[i].text == fragments[i].text
        && r[i].translation.Some?
        && (r[i].translation.value == "" || results[i] == Fulfilled(r[i].translation.value))
  {
    var r := TranslateSubtitles(fragments, config, results).value;
    if config.None? || !config.value.providerFound {
      assert r == BlankTranslations(fragments);
    } else {
      assert r == MergeResults(fragments, results);
    }
  }

  /** An empty input never throws and comes back empty. */
  lemma EmptyInputNeverThrows(config: Option<TranslateConfig>)
    ensures TranslateSubtitles([], config, []) == Success([])
  {
  }

  /** The merge reads only times, text and results: whatever translation a
      fragment carried before is overwritten. */
  lemma {:induction false} MergeIgnoresOldTranslations(fragments: seq<Fragment>, other: seq<Fragment>, results: seq<Settled>)
    requires |results| == |fragments| == |other|
    requires forall i :: 0 <= i < |fragments| ==>
      fragments[i].start == other[i].start && fragments[i].end == other[i].end && fragments[i].text == other[i].text
    ensures MergeResults(fragments, results) == MergeResults(other, results)
  {
    var a := MergeResults(fragments, results);
    var b := MergeResults(other, results);
    forall i | 0 <= i < |a| ensures a[i] == b[i] {
    }
  }

  /** A successful result has exactly the input's start times. */
  lemma {:induction false} TranslateSubtitlesStarts(fragments: seq<Fragment>, config: Option<TranslateConfig>, results: seq<Settled>)
    requires |results| == |fragments|
    requires TranslateSubtitles(fragments, config, results).Success?
    ensures Starts(TranslateSubtitles(fragments, config, results).value) == Starts(fragments)
  {
    var r := TranslateSubtitles(fragments, config, results).value;
    TranslateSubtitlesShape(fragments, config, results);
    forall s | s in Starts(fragments) ensures s in Starts(r) {
      var i :| 0 <= i < |fragments| && fragments[i].start == s;
      assert r[i].start == s;
    }
  }
}
