/** The YouTube subtitles fetcher (src/utils/subtitles/fetchers/youtube/index.ts):
    priority-based caption-track selection, the track key that identifies
    what was fetched, the bounded retry of the caption download, the wait for
    a ready player, the dispatch of raw events to a parser, and the
    per-track cache shared by `fetch`, `cleanup` and `shouldUseSameTrack`.
    Every reply from the page (player data, caption responses) is an input;
    a player-data reply that failed, timed out or carried no data is `None`. */
module YoutubeFetchers {
  import opened Wrappers
  import opened Strings
  import opened Seqs
  import opened Urls
  import opened SubtitleTypes
  import opened YoutubeTypes
  import opened PotTokens
  import opened UrlBuilder
  import opened NoiseFilter

  const MaxFetchRetries := 5
  const FetchRetryDelayMs := 1000
  const MaxStateWaitAttempts := 20
  const StateWaitIntervalMs := 300

  const VideoNotFoundKey := "subtitles.errors.videoNotFound"
  const NoSubtitlesFoundKey := "subtitles.errors.noSubtitlesFound"
  const FetchSubTimeoutKey := "subtitles.errors.fetchSubTimeout"
  const Http403Key := "subtitles.errors.http403"
  const Http404Key := "subtitles.errors.http404"
  const Http429Key := "subtitles.errors.http429"
  const Http500Key := "subtitles.errors.http500"
  const HttpUnknownKey := "subtitles.errors.httpUnknown"
  const InvalidFormatMessage := "Invalid response format"

  // ---- track selection ----

  predicate IsAsr(t: CaptionTrack) {
    t.kind == Some("asr")
  }

  /** A human track without a name. */
  predicate IsHumanExact(t: CaptionTrack) {
    !IsAsr(t) && t.name.None?
  }

  predicate IsHuman(t: CaptionTrack) {
    !IsAsr(t)
  }

  function HasLanguage(code: string): CaptionTrack -> bool {
    (t: CaptionTrack) => t.languageCode == code
  }

  /** The preference class of a track: 0 for the language the player has
      selected, 1 for a human track without a name, 2 for another human
      track, 3 for a speech-recognition track. Lower is preferred. */
  function Rank(t: CaptionTrack, selectedLanguageCode: Option<string>): nat {
    if Truthy(selectedLanguageCode) && t.languageCode == selectedLanguageCode.value then 0
    else if IsHumanExact(t) then 1
    else if IsHuman(t) then 2
    else 3
  }

  /** `selectTrack`: the player's selected language first, then a human
      track without a name, then any human track, then a speech-recognition
      track. The source's last resort, the first track, is unreachable:
      every track is either a speech-recognition track or not. */
  function SelectTrack(tracks: seq<CaptionTrack>, selectedLanguageCode: Option<string>): (r: Option<CaptionTrack>)
    ensures r.None? <==> |tracks| == 0
    ensures r.Some? ==> r.value in tracks
  {
    if |tracks| == 0 then None
    else
      var selected := if Truthy(selectedLanguageCode) then Find(tracks, HasLanguage(selectedLanguageCode.value)) else None;
      if selected.Some? then selected
      else
        var humanExact := Find(tracks, IsHumanExact);
        if humanExact.Some? then humanExact
        else
          var humanWithName := Find(tracks, IsHuman);
          if humanWithName.Some? then humanWithName
          else
            var asr := Find(tracks, IsAsr);
            if asr.Some? then asr
            else assert false; None
  }

  /** The first track of a non-empty list whose rank is the least in it. */
  predicate FirstOfLeastRank(tracks: seq<CaptionTrack>, selectedLanguageCode: Option<string>, k: int) {
    0 <= k < |tracks|
    && (forall j :: 0 <= j < k ==> Rank(tracks[j], selectedLanguageCode) > Rank(tracks[k], selectedLanguageCode))
    && (forall j :: k < j < |tracks| ==> Rank(tracks[j], selectedLanguageCode) >= Rank(tracks[k], selectedLanguageCode))
  }

  /** A track every earlier track outranks, and no track outranks, is the first of least rank. */
  lemma FirstOfRank(tracks: seq<CaptionTrack>, sel: Option<string>, k: int)
    requires 0 <= k < |tracks|
    requires forall j :: 0 <= j < k ==> Rank(tracks[j], sel) > Rank(tracks[k], sel)
    requires forall j :: 0 <= j < |tracks| ==> Rank(tracks[j], sel) >= Rank(tracks[k], sel)
    ensures FirstOfLeastRank(tracks, sel, k)
  {
  }

  lemma SelectedCase(tracks: seq<CaptionTrack>, sel: Option<string>)
    requires Truthy(sel) && FindIndex(tracks, HasLanguage(sel.value)) >= 0
    ensures var k := FindIndex(tracks, HasLanguage(sel.value));
      FirstOfLeastRank(tracks, sel, k) && SelectTrack(tracks, sel) == Some(tracks[k])
  {
    var k := FindIndex(tracks, HasLanguage(sel.value));
    assert forall j :: 0 <= j < k ==> !HasLanguage(sel.value)(tracks[j]);
    FirstOfRank(tracks, sel, k);
  }

  lemma HumanExactCase(tracks: seq<CaptionTrack>, sel: Option<string>)
    requires !Truthy(sel) || FindIndex(tracks, HasLanguage(sel.value)) < 0
    requires FindIndex(tracks, IsHumanExact) >= 0
    ensures var k := FindIndex(tracks, IsHumanExact);
      FirstOfLeastRank(tracks, sel, k) && SelectTrack(tracks, sel) == Some(tracks[k])
  {
    var k := FindIndex(tracks, IsHumanExact);
    assert Truthy(sel) ==> forall j :: 0 <= j < |tracks| ==> !HasLanguage(sel.value)(tracks[j]);
    FirstOfRank(tracks, sel, k);
  }

  lemma HumanCase(tracks: seq<CaptionTrack>, sel: Option<string>)
    requires !Truthy(sel) || FindIndex(tracks, HasLanguage(sel.value)) < 0
    requires FindIndex(tracks, IsHumanExact) < 0 && FindIndex(tracks, IsHuman) >= 0
    ensures var k := FindIndex(tracks, IsHuman);
      FirstOfLeastRank(tracks, sel, k) && SelectTrack(tracks, sel) == Some(tracks[k])
  {
    var k := FindIndex(tracks, IsHuman);
    assert Truthy(sel) ==> forall j :: 0 <= j < |tracks| ==> !HasLanguage(sel.value)(tracks[j]);
    FirstOfRank(tracks, sel, k);
  }

  lemma AsrCase(tracks: seq<CaptionTrack>, sel: Option<string>)
    requires |tracks| > 0
    requires !Truthy(sel) || FindIndex(tracks, HasLanguage(sel.value)) < 0
    requires FindIndex(tracks, IsHumanExact) < 0 && FindIndex(tracks, IsHuman) < 0
    ensures var k := FindIndex(tracks, IsAsr);
      0 <= k && FirstOfLeastRank(tracks, sel, k) && SelectTrack(tracks, sel) == Some(tracks[k])
  {
    assert !IsHuman(tracks[0]);
    var k := FindIndex(tracks, IsAsr);
    assert Truthy(sel) ==> forall j :: 0 <= j < |tracks| ==> !HasLanguage(sel.value)(tracks[j]);
    FirstOfRank(tracks, sel, k);
  }

  /** The selected track is the first track of least rank: the priority
      list is exactly "best class first, earliest within a class". */
  lemma SelectTrackIsFirstBest(tracks: seq<CaptionTrack>, sel: Option<string>)
    requires |tracks| > 0
    ensures exists k :: FirstOfLeastRank(tracks, sel, k) && SelectTrack(tracks, sel) == Some(tracks[k])
  {
    if Truthy(sel) && FindIndex(tracks, HasLanguage(sel.value)) >= 0 {
      SelectedCase(tracks, sel);
    } else if FindIndex(tracks, IsHumanExact) >= 0 {
      HumanExactCase(tracks, sel);
    } else if FindIndex(tracks, IsHuman) >= 0 {
      HumanCase(tracks, sel);
    } else {
      AsrCase(tracks, sel);
    }
  }

  /** The player's selected language wins whenever some track has it. */
  lemma SelectedLanguageWins(tracks: seq<CaptionTrack>, code: string, k: nat)
    requires code != "" && k < |tracks| && tracks[k].languageCode == code
    requires forall j :: 0 <= j < k ==> tracks[j].languageCode != code
    ensures SelectTrack(tracks, Some(code)) == Some(tracks[k])
  {
    var p := (t: CaptionTrack) => t.languageCode == code;
    assert p(tracks[k]);
    assert FindIndex(tracks, p) == k;
  }

  /** A speech-recognition track, a named track and an unnamed track, with no
      language selected: the unnamed human track is chosen. */
  lemma UnnamedHumanTrackPreferred(asr: CaptionTrack, named: CaptionTrack, plain: CaptionTrack)
    requires asr.kind == Some("asr")
    requires named.kind.None? && named.name.Some?
    requires plain.kind.None? && plain.name.None?
    ensures SelectTrack([asr, named, plain], None) == Some(plain)
  {
    var tracks := [asr, named, plain];
    assert IsHumanExact(tracks[2]) && !IsHumanExact(tracks[0]) && !IsHumanExact(tracks[1]);
    assert FindIndex(tracks, IsHumanExact) == 2;
  }

  // ---- track key ----

  /** The track key: `videoId:languageCode:(kind or ''):vssId`. */
  function TrackKey(videoId: string, t: CaptionTrack): string {
    videoId + ":" + t.languageCode + ":" + t.kind.GetOr("") + ":" + t.vssId
  }

  /** The key splits back into its four fields when none contains ':'. */
  lemma TrackKeyFields(videoId: string, t: CaptionTrack)
    requires ':' !in videoId && ':' !in t.languageCode && ':' !in t.kind.GetOr("") && ':' !in t.vssId
    ensures Split(TrackKey(videoId, t), ':') == [videoId, t.languageCode, t.kind.GetOr(""), t.vssId]
  {
    var pieces := [videoId, t.languageCode, t.kind.GetOr(""), t.vssId];
    assert Join(pieces, ':') == TrackKey(videoId, t) by {
      assert pieces[1..][1..][1..] == [t.vssId];
      assert Join(pieces[1..][1..], ':') == t.kind.GetOr("") + ":" + t.vssId;
    }
    SplitJoin(pieces, ':');
  }

  /** With colon-free fields, equal keys mean the same video and the same
      language, kind and `vssId`. */
  lemma TrackKeyInjective(v1: string, t1: CaptionTrack, v2: string, t2: CaptionTrack)
    requires ':' !in v1 && ':' !in t1.languageCode && ':' !in t1.kind.GetOr("") && ':' !in t1.vssId
    requires ':' !in v2 && ':' !in t2.languageCode && ':' !in t2.kind.GetOr("") && ':' !in t2.vssId
    requires TrackKey(v1, t1) == TrackKey(v2, t2)
    ensures v1 == v2 && t1.languageCode == t2.languageCode && t1.kind.GetOr("") == t2.kind.GetOr("") && t1.vssId == t2.vssId
  {
    TrackKeyFields(v1, t1);
    TrackKeyFields(v2, t2);
  }

  /** `computeTrackHash`: the key of the track `selectTrack` picks from the
      player's reply, or null without a video id, a reply or a track. */
  function ComputeTrackHash(videoId: Option<string>, response: Option<PlayerData>): (r: Option<string>)
    ensures r.Some? <==> Truthy(videoId) && response.Some? && |response.value.captionTracks| > 0
    ensures r.Some? ==>
      r.value == TrackKey(videoId.value, SelectTrack(response.value.captionTracks, response.value.selectedTrackLanguageCode).value)
    ensures r.Some? ==> r.value != ""
  {
    if !Truthy(videoId) || response.None? then None
    else
      var track := SelectTrack(response.value.captionTracks, response.value.selectedTrackLanguageCode);
      if track.None? then None else Some(TrackKey(videoId.value, track.value))
  }

  // ---- caption download with retry ----

  /** What one request of `fetchWithRetry` met: a non-OK status, a thrown
      error (its message), a body failing the schema, or well-formed events. */
  datatype Attempt = NotOk(status: int) | Threw(message: string) | Malformed | Ok(events: seq<TimedTextEvent>)

  /** How an attempt ends: with the events, with an error that stops the
      retries, or with an error that is retried. */
  datatype Verdict = Done(events: seq<TimedTextEvent>) | Permanent(error: Message) | Retryable(error: Message)

  function Classify(a: Attempt): (r: Verdict)
    ensures r.Permanent? <==> a.NotOk? && a.status in {403, 404, 429}
    ensures r.Done? <==> a.Ok?
  {
    match a
    case NotOk(status) =>
      if status == 403 then Permanent(Localized(Http403Key))
      else if status == 404 then Permanent(Localized(Http404Key))
      else if status == 429 then Permanent(Localized(Http429Key))
      else if status == 500 then Retryable(Localized(Http500Key))
      else Retryable(LocalizedStatus(HttpUnknownKey, status))
    case Threw(m) => Retryable(Literal(m))
    case Malformed => Retryable(Literal(InvalidFormatMessage))
    case Ok(events) => Done(events)
  }

  /** The reference outcome of a run of attempts: the first attempt that is
      not retryable decides, else the last error. */
  function RetryOutcome(attempts: seq<Attempt>): (r: Result<seq<TimedTextEvent>, Message>)
    requires |attempts| >= 1
    decreases |attempts|
  {
    match Classify(attempts[0])
    case Done(events) => Success(events)
    case Permanent(e) => Failure(e)
    case Retryable(e) => if |attempts| == 1 then Failure(e) else RetryOutcome(attempts[1..])
  }

  /** The number of requests the reference run makes. */
  function RequestsMade(attempts: seq<Attempt>): (n: nat)
    requires |attempts| >= 1
    ensures 1 <= n <= |attempts|
    decreases |attempts|
  {
    if !Classify(attempts[0]).Retryable? || |attempts| == 1 then 1 else 1 + RequestsMade(attempts[1..])
  }

  predicate RetryableUpTo(attempts: seq<Attempt>, k: int)
    requires k <= |attempts|
  {
    forall j :: 0 <= j < k ==> Classify(attempts[j]).Retryable?
  }

  /** The first attempt that is not retried decides the outcome, after
      exactly as many requests as attempts up to it. */
  lemma {:induction false} FirstDecisiveWins(attempts: seq<Attempt>, k: nat)
    requires k < |attempts| && RetryableUpTo(attempts, k) && !Classify(attempts[k]).Retryable?
    ensures RequestsMade(attempts) == k + 1
    ensures Classify(attempts[k]).Done? ==> RetryOutcome(attempts) == Success(attempts[k].events)
    ensures Classify(attempts[k]).Permanent? ==> RetryOutcome(attempts) == Failure(Classify(attempts[k]).error)
    decreases k
  {
    if k > 0 {
      assert RetryableUpTo(attempts[1..], k - 1) by {
        forall j | 0 <= j < k - 1 ensures Classify(attempts[1..][j]).Retryable? {
          assert attempts[1..][j] == attempts[j + 1];
        }
      }
      FirstDecisiveWins(attempts[1..], k - 1);
    }
  }

  /** A 403, 404 or 429 on the first request fails at once with that status's error. */
  lemma PermanentAfterOneRequest(attempts: seq<Attempt>)
    requires |attempts| >= 1 && attempts[0].NotOk? && attempts[0].status in {403, 404, 429}
    ensures RequestsMade(attempts) == 1
    ensures RetryOutcome(attempts) == Failure(Localized(
      if attempts[0].status == 403 then Http403Key else if attempts[0].status == 404 then Http404Key else Http429Key))
  {
    FirstDecisiveWins(attempts, 0);
  }

  /** When every attempt is retried, all of them are made and the error is
      the last one's. */
  lemma {:induction false} AllRetryableFails(attempts: seq<Attempt>)
    requires |attempts| >= 1 && RetryableUpTo(attempts, |attempts|)
    ensures RequestsMade(attempts) == |attempts|
    ensures RetryOutcome(attempts) == Failure(Classify(attempts[|attempts| - 1]).error)
    decreases |attempts|
  {
    if |attempts| > 1 {
      assert RetryableUpTo(attempts[1..], |attempts| - 1) by {
        forall j | 0 <= j < |attempts| - 1 ensures Classify(attempts[1..][j]).Retryable? {
          assert attempts[1..][j] == attempts[j + 1];
        }
      }
      AllRetryableFails(attempts[1..]);
      assert attempts[1..][|attempts| - 2] == attempts[|attempts| - 1];
    }
  }

  /** A success carries the events of a well-formed response among the attempts. */
  lemma {:induction false} SuccessFromOkAttempt(attempts: seq<Attempt>)
    requires |attempts| >= 1 && RetryOutcome(attempts).Success?
    ensures exists j :: 0 <= j < |attempts| && attempts[j] == Ok(RetryOutcome(attempts).value)
    decreases |attempts|
  {
    if !Classify(attempts[0]).Done? {
      SuccessFromOkAttempt(attempts[1..]);
      var j :| 0 <= j < |attempts| - 1 && attempts[1..][j] == Ok(RetryOutcome(attempts).value);
      assert attempts[j + 1] == attempts[1..][j];
    }
  }

  /** `fetchWithRetry`: request `attempts[i]` is the i-th response. At most
      `MaxFetchRetries` requests, a sleep only between two of them, and the
      outcome of the reference run over the first `MaxFetchRetries` attempts. */
  method FetchWithRetry(attempts: seq<Attempt>) returns (r: Result<seq<TimedTextEvent>, Message>, requests: nat, sleptMs: nat)
    requires |attempts| >= MaxFetchRetries
    ensures r == RetryOutcome(attempts[..MaxFetchRetries])
    ensures requests == RequestsMade(attempts[..MaxFetchRetries])
    ensures 1 <= requests <= MaxFetchRetries
    ensures sleptMs == (requests - 1) * FetchRetryDelayMs
  {
    ghost var run := attempts[..MaxFetchRetries];
    var i := 0;
    var lastError: Option<Message> := None;
    requests := 0;
    sleptMs := 0;
    while i < MaxFetchRetries
      invariant 0 <= i <= MaxFetchRetries && requests == i
      invariant RetryableUpTo(run, i)
      invariant sleptMs == (if i == MaxFetchRetries then i - 1 else i) * FetchRetryDelayMs
      invariant i < MaxFetchRetries ==> RetryOutcome(run) == RetryOutcome(run[i..]) && RequestsMade(run) == i + RequestsMade(run[i..])
      invariant i == MaxFetchRetries ==> lastError.Some? && RetryOutcome(run) == Failure(lastError.value) && RequestsMade(run) == i
    {
      requests := requests + 1;
      assert run[i..][0] == attempts[i];
      match Classify(attempts[i])
      case Done(events) =>
        return Success(events), requests, sleptMs;
      case Permanent(e) =>
        return Failure(e), requests, sleptMs;
      case Retryable(e) =>
        lastError := Some(e);
        if i < MaxFetchRetries - 1 {
          sleptMs := sleptMs + FetchRetryDelayMs;
          assert run[i..][1..] == run[i + 1..];
        }
      i := i + 1;
    }
    r := Failure(if lastError.Some? then lastError.value else Localized(FetchSubTimeoutKey));
  }

  // ---- waiting for the player ----

  /** A player-data reply that reports a ready player (`playerState >= 1`). */
  predicate Ready(response: Option<PlayerData>) {
    response.Some? && response.value.playerState >= 1
  }

  /** `waitForPlayerState`: poll until a reply reports a ready player, at
      most `MaxStateWaitAttempts` times, sleeping after every reply that
      does not; it never fails. */
  method WaitForPlayerState(responses: seq<Option<PlayerData>>) returns (requests: nat, sleptMs: nat)
    requires |responses| >= MaxStateWaitAttempts
    ensures 1 <= requests <= MaxStateWaitAttempts
    ensures forall j :: 0 <= j < requests - 1 ==> !Ready(responses[j])
    ensures Ready(responses[requests - 1]) ==> sleptMs == (requests - 1) * StateWaitIntervalMs
    ensures !Ready(responses[requests - 1]) ==> requests == MaxStateWaitAttempts && sleptMs == requests * StateWaitIntervalMs
  {
    var i := 0;
    sleptMs := 0;
    while i < MaxStateWaitAttempts
      invariant 0 <= i <= MaxStateWaitAttempts
      invariant forall j :: 0 <= j < i ==> !Ready(responses[j])
      invariant sleptMs == i * StateWaitIntervalMs
    {
      if Ready(responses[i]) {
        return i + 1, sleptMs;
      }
      sleptMs := sleptMs + StateWaitIntervalMs;
      i := i + 1;
    }
    requests := MaxStateWaitAttempts;
  }

  // ---- raw event dispatch ----

  /** What `detectFormat` reports. */
  datatype SubtitleFormat = KaraokeFormat | ScrollingAsrFormat | StandardFormat

  /** Which parser `processRawEvents` hands the filtered events to, and
      whether the optimizer runs on its output. */
  datatype Route = KaraokeParse | StandardParse | ScrollingAsrOptimized | StandardOptimized

  /** The dispatch of `processRawEvents`; `aiSegmentation` is the optional
      configuration flag (absent when there is no configuration). */
  function RawEventsRoute(format: SubtitleFormat, aiSegmentation: Option<bool>): (r: Route)
    ensures r.KaraokeParse? <==> format.KaraokeFormat?
    ensures r.StandardParse? <==> !format.KaraokeFormat? && aiSegmentation == Some(true)
    ensures r.ScrollingAsrOptimized? <==> format.ScrollingAsrFormat? && aiSegmentation != Some(true)
    ensures r.StandardOptimized? <==> format.StandardFormat? && aiSegmentation != Some(true)
  {
    match format
    case KaraokeFormat => KaraokeParse
    case _ =>
      if aiSegmentation == Some(true) then StandardParse
      else if format.ScrollingAsrFormat? then ScrollingAsrOptimized
      else StandardOptimized
  }

  /** The format detector, the three parsers and the optimizer, which are
      not part of this model. */
  datatype Parsers = Parsers(
    detectFormat: seq<TimedTextEvent> -> SubtitleFormat,
    parseKaraoke: seq<TimedTextEvent> -> seq<Fragment>,
    parseStandard: seq<TimedTextEvent> -> seq<Fragment>,
    parseScrollingAsr: (seq<TimedTextEvent>, string) -> seq<Fragment>,
    optimize: (seq<Fragment>, string) -> seq<Fragment>)

  /** `processRawEvents`: filter the noise, detect the format and dispatch. */
  function ProcessRawEvents(events: seq<TimedTextEvent>, aiSegmentation: Option<bool>, sourceLanguage: string, p: Parsers): seq<Fragment> {
    var filtered := FilterNoiseFromEvents(events);
    match RawEventsRoute(p.detectFormat(filtered), aiSegmentation)
    case KaraokeParse => p.parseKaraoke(filtered)
    case StandardParse => p.parseStandard(filtered)
    case ScrollingAsrOptimized => p.optimize(p.parseScrollingAsr(filtered, sourceLanguage), sourceLanguage)
    case StandardOptimized => p.optimize(p.parseStandard(filtered), sourceLanguage)
  }

  /** Noise already filtered out changes nothing: the outcome depends only on
      the filtered events. */
  lemma PrefilteredEventsSameResult(events: seq<TimedTextEvent>, aiSegmentation: Option<bool>, sourceLanguage: string, p: Parsers)
    ensures ProcessRawEvents(FilterNoiseFromEvents(events), aiSegmentation, sourceLanguage, p)
         == ProcessRawEvents(events, aiSegmentation, sourceLanguage, p)
  {
    FilterNoiseFromEventsIdempotent(events);
  }

  // ---- the fetcher ----

  /** The fetcher's cache: the fragments of the last fetched track, its
      language, and its key. */
  class YoutubeSubtitlesFetcher {
    var subtitles: seq<Fragment>
    var sourceLanguage: string
    var cachedTrackHash: Option<string>

    constructor()
      ensures subtitles == [] && sourceLanguage == "" && cachedTrackHash.None?
    {
      subtitles := [];
      sourceLanguage := "";
      cachedTrackHash := None;
    }

    /** The condition under which `fetch` returns the cached list. */
    predicate CacheHit(currentHash: Option<string>)
      reads this
    {
      Truthy(currentHash) && |subtitles| > 0 && cachedTrackHash == currentHash
    }

    /** `shouldUseSameTrack`, given what `computeTrackHash` returns now
        (`None` also for a failed computation): exactly when `fetch` would
        return the cached list. */
    function ShouldUseSameTrack(currentHash: Option<string>): (r: bool)
      reads this
      ensures r <==> CacheHit(currentHash)
    {
      if |subtitles| == 0 || !Truthy(cachedTrackHash) then false
      else currentHash.Some? && cachedTrackHash == currentHash
    }

    /** `cleanup`: afterwards no key matches the cache. */
    method Cleanup()
      modifies this
      ensures subtitles == [] && sourceLanguage == "" && cachedTrackHash.None?
      ensures forall h :: !ShouldUseSameTrack(h)
    {
      subtitles := [];
      sourceLanguage := "";
      cachedTrackHash := None;
    }

    /** `fetch`. `videoId` is the page's video id; `hashResponse` the player
        data `computeTrackHash` receives; `stateResponses` the polls of
        `waitForPlayerState`; `playerData` what `getPlayerDataWithPot`
        returns (`None` when it throws); `parseUrl` reads a track's URL string;
        `attempts` the caption responses; `aiSegmentation` the configuration
        flag. Also returns the caption request URL, when one was built. */
    method Fetch(videoId: Option<string>, hashResponse: Option<PlayerData>, stateResponses: seq<Option<PlayerData>>,
                 playerData: Option<PlayerData>, parseUrl: string -> Url, attempts: seq<Attempt>,
                 aiSegmentation: Option<bool>, parsers: Parsers)
      returns (r: Result<seq<Fragment>, Message>, requestUrl: Option<Url>)
      requires |stateResponses| >= MaxStateWaitAttempts && |attempts| >= MaxFetchRetries
      modifies this
      ensures !Truthy(videoId) ==> r == Failure(Localized(VideoNotFoundKey)) && requestUrl.None?
      ensures Truthy(videoId) && old(CacheHit(ComputeTrackHash(videoId, hashResponse))) ==>
        r == Success(old(subtitles)) && requestUrl.None?
      ensures Truthy(videoId) && !old(CacheHit(ComputeTrackHash(videoId, hashResponse))) && playerData.None? ==>
        r == Failure(Localized(FetchSubTimeoutKey)) && requestUrl.None?
      ensures Truthy(videoId) && !old(CacheHit(ComputeTrackHash(videoId, hashResponse)))
        && playerData.Some? && |playerData.value.captionTracks| == 0
        ==> r == Failure(Localized(NoSubtitlesFoundKey)) && requestUrl.None?
      ensures Truthy(videoId) && !old(CacheHit(ComputeTrackHash(videoId, hashResponse)))
        && playerData.Some? && |playerData.value.captionTracks| > 0
        ==> requestUrl.Some?
      ensures requestUrl.Some? ==>
        playerData.Some? && |playerData.value.captionTracks| > 0
        && (var track := SelectTrack(playerData.value.captionTracks, playerData.value.selectedTrackLanguageCode).value;
            requestUrl.value.base == parseUrl(track.baseUrl).base
            && forall key :: Get(requestUrl.value.params, key)
                 == Expected(parseUrl(track.baseUrl).params, playerData.value, ExtractPotToken(track, playerData.value), key))
        && var track := SelectTrack(playerData.value.captionTracks, playerData.value.selectedTrackLanguageCode).value;
          Get(requestUrl.value.params, "fmt") == Some("json3")
          && (var outcome := RetryOutcome(attempts[..MaxFetchRetries]);
            && (outcome.Failure? ==> r == Failure(outcome.error))
            && (outcome.Success? ==>
                  r == Success(subtitles)
                  && sourceLanguage == track.languageCode
                  && subtitles == ProcessRawEvents(outcome.value, aiSegmentation, track.languageCode, parsers)
                  && cachedTrackHash == ComputeTrackHash(videoId, hashResponse)))
      ensures r.Failure? ==> unchanged(this)
      ensures r.Success? && requestUrl.None? ==> unchanged(this)
    {
      requestUrl := None;
      if !Truthy(videoId) {
        return Failure(Localized(VideoNotFoundKey)), requestUrl;
      }
      var currentHash := ComputeTrackHash(videoId, hashResponse);
      if Truthy(currentHash) && |subtitles| > 0 && cachedTrackHash == currentHash {
        return Success(subtitles), requestUrl;
      }
      var _, _ := WaitForPlayerState(stateResponses);
      if playerData.None? {
        return Failure(Localized(FetchSubTimeoutKey)), requestUrl;
      }
      var data := playerData.value;
      var track := SelectTrack(data.captionTracks, data.selectedTrackLanguageCode);
      if track.None? {
        return Failure(Localized(NoSubtitlesFoundKey)), requestUrl;
      }
      var potToken := ExtractPotToken(track.value, data);
      var url := BuildSubtitleUrl(parseUrl(track.value.baseUrl), data, potToken);
      requestUrl := Some(url);
      FixedParamsWinFmt(parseUrl(track.value.baseUrl).params, data, potToken, url);
      var outcome, _, _ := FetchWithRetry(attempts);
      if outcome.Failure? {
        return Failure(outcome.error), requestUrl;
      }
      sourceLanguage := track.value.languageCode;
      subtitles := ProcessRawEvents(outcome.value, aiSegmentation, sourceLanguage, parsers);
      cachedTrackHash := currentHash;
      r := Success(subtitles);
    }
  }

  /** The caption request always asks for the JSON timed-text format. */
  lemma FixedParamsWinFmt(baseParams: seq<Param>, playerData: PlayerData, potToken: PotToken, url: Url)
    requires forall key :: Get(url.params, key) == Expected(baseParams, playerData, potToken, key)
    ensures Get(url.params, "fmt") == Some("json3")
  {
    assert FixedKeys[0] == "fmt";
    FixedParamsWin(baseParams, playerData, potToken, "fmt");
    FixedParamsDistinct(0);
  }
}
