/** The page-world helpers of the interceptor (src/entrypoints/interceptor.content/utils.ts):
    the error reply to a player-data request, the normalisation of caption
    track URLs to absolute ones, and the reading of audio caption tracks. */
module InterceptorUtils {
  import opened Wrappers
  import opened Strings
  import opened Urls
  import opened YoutubeTypes

  const PlayerDataResponseType := "READ_FROG_PLAYER_DATA"

  /** The reply to a player-data request. */
  datatype PlayerDataResponse = PlayerDataResponse(
    responseType: string,
    requestId: string,
    success: bool,
    error: Option<string>,
    data: Option<PlayerData>)

  /** `errorResponse`: a failed reply echoing the request id and the error. */
  function ErrorResponse(requestId: string, error: string): (r: PlayerDataResponse)
    ensures !r.success && r.data.None?
    ensures r.requestId == requestId && r.error == Some(error)
    ensures r.responseType == PlayerDataResponseType
  {
    PlayerDataResponse(PlayerDataResponseType, requestId, false, Some(error), None)
  }

  /** A track URL made absolute against the page origin unless it already
      holds a scheme separator. */
  function AbsoluteUrl(baseUrl: string, origin: string): (r: string)
    ensures Contains(baseUrl, "://") ==> r == baseUrl
    ensures !Contains(baseUrl, "://") ==> r == origin + baseUrl
  {
    if Contains(baseUrl, "://") then baseUrl else origin + baseUrl
  }

  /** `normalizeTracks`: the same tracks in the same order, each with only
      its `baseUrl` made absolute. */
  function NormalizeTracks(tracks: seq<CaptionTrack>, origin: string): (r: seq<CaptionTrack>)
    ensures |r| == |tracks|
    ensures forall i :: 0 <= i < |r| ==> r[i] == tracks[i].(baseUrl := AbsoluteUrl(tracks[i].baseUrl, origin))
    decreases |tracks|
  {
    if |tracks| == 0 then []
    else [tracks[0].(baseUrl := AbsoluteUrl(tracks[0].baseUrl, origin))] + NormalizeTracks(tracks[1..], origin)
  }

  /** With an origin that has a scheme, every normalised URL has one. */
  lemma AbsoluteUrlHasScheme(baseUrl: string, origin: string)
    requires Contains(origin, "://")
    ensures Contains(AbsoluteUrl(baseUrl, origin), "://")
  {
    if !Contains(baseUrl, "://") {
      ContainsAppend(origin, baseUrl, "://");
    }
  }

  /** Normalising twice is normalising once, when the origin has a scheme. */
  lemma NormalizeTracksIdempotent(tracks: seq<CaptionTrack>, origin: string)
    requires Contains(origin, "://")
    ensures NormalizeTracks(NormalizeTracks(tracks, origin), origin) == NormalizeTracks(tracks, origin)
  {
    var once := NormalizeTracks(tracks, origin);
    var twice := NormalizeTracks(once, origin);
    forall i | 0 <= i < |tracks| ensures twice[i] == once[i] {
      AbsoluteUrlHasScheme(tracks[i].baseUrl, origin);
    }
  }

  /** An audio caption track as the player lists it, before its URL is read. */
  datatype RawAudioTrack = RawAudioTrack(url: string, vssId: string, kind: Option<string>)

  /** The track built from a raw track whose URL parses. */
  function AudioTrackOf(t: RawAudioTrack, url: Url): (r: AudioCaptionTrack)
    ensures r.url == url && r.vssId == t.vssId && r.kind == t.kind
    ensures r.languageCode == Get(url.params, "lang")
  {
    AudioCaptionTrack(url, t.vssId, t.kind, Get(url.params, "lang"))
  }

  function ParseTracks(tracks: seq<RawAudioTrack>, parseUrl: string -> Option<Url>): (r: seq<AudioCaptionTrack>)
    ensures |r| <= |tracks|
    decreases |tracks|
  {
    if |tracks| == 0 then []
    else
      var url := parseUrl(tracks[0].url);
      (if url.Some? then [AudioTrackOf(tracks[0], url.value)] else []) + ParseTracks(tracks[1..], parseUrl)
  }

  /** `parseAudioTracks`: a missing list reads as empty; `parseUrl` is the
      URL constructor, `None` where it throws. */
  function ParseAudioTracks(tracks: Option<seq<RawAudioTrack>>, parseUrl: string -> Option<Url>): (r: seq<AudioCaptionTrack>)
    ensures tracks.None? ==> r == []
  {
    if tracks.None? then [] else ParseTracks(tracks.value, parseUrl)
  }

  /** Parsing keeps the order: the parse of a concatenation is the
      concatenation of the parses. */
  lemma {:induction false} ParseTracksConcat(a: seq<RawAudioTrack>, b: seq<RawAudioTrack>, parseUrl: string -> Option<Url>)
    ensures ParseTracks(a + b, parseUrl) == ParseTracks(a, parseUrl) + ParseTracks(b, parseUrl)
    decreases |a|
  {
    if |a| == 0 {
      assert a + b == b;
    } else {
      var url := parseUrl(a[0].url);
      var head := if url.Some? then [AudioTrackOf(a[0], url.value)] else [];
      assert (a + b)[1..] == a[1..] + b;
      assert (a + b)[0] == a[0];
      assert ParseTracks(a + b, parseUrl) == head + ParseTracks(a[1..] + b, parseUrl);
      ParseTracksConcat(a[1..], b, parseUrl);
      assert ParseTracks(a, parseUrl) == head + ParseTracks(a[1..], parseUrl);
    }
  }

  /** Exactly the tracks whose URL parses are kept: each output track comes
      from an input whose URL parses, and each such input yields its track. */
  lemma {:induction false} ParseTracksMembers(tracks: seq<RawAudioTrack>, parseUrl: string -> Option<Url>)
    ensures forall t :: t in ParseTracks(tracks, parseUrl) <==>
      exists i :: 0 <= i < |tracks| && parseUrl(tracks[i].url).Some? && t == AudioTrackOf(tracks[i], parseUrl(tracks[i].url).value)
    decreases |tracks|
  {
    if |tracks| > 0 {
      ParseTracksMembers(tracks[1..], parseUrl);
      forall t ensures t in ParseTracks(tracks, parseUrl) <==>
        exists i :: 0 <= i < |tracks| && parseUrl(tracks[i].url).Some? && t == AudioTrackOf(tracks[i], parseUrl(tracks[i].url).value)
      {
        if t in ParseTracks(tracks[1..], parseUrl) {
          var i :| 0 <= i < |tracks[1..]| && parseUrl(tracks[1..][i].url).Some?
            && t == AudioTrackOf(tracks[1..][i], parseUrl(tracks[1..][i].url).value);
          assert tracks[1..][i] == tracks[i + 1];
        }
        if exists i :: 0 <= i < |tracks| && parseUrl(tracks[i].url).Some? && t == AudioTrackOf(tracks[i], parseUrl(tracks[i].url).value) {
          var i :| 0 <= i < |tracks| && parseUrl(tracks[i].url).Some? && t == AudioTrackOf(tracks[i], parseUrl(tracks[i].url).value);
          if i > 0 {
            assert tracks[1..][i - 1] == tracks[i];
          }
        }
      }
    }
  }

  /** When every URL parses, track i becomes output track i. */
  lemma {:induction false} ParseTracksAllParse(tracks: seq<RawAudioTrack>, parseUrl: string -> Option<Url>)
    requires forall i :: 0 <= i < |tracks| ==> parseUrl(tracks[i].url).Some?
    ensures |ParseTracks(tracks, parseUrl)| == |tracks|
    ensures forall i :: 0 <= i < |tracks| ==>
      ParseTracks(tracks, parseUrl)[i] == AudioTrackOf(tracks[i], parseUrl(tracks[i].url).value)
    decreases |tracks|
  {
    if |tracks| > 0 {
      ParseTracksAllParse(tracks[1..], parseUrl);
    }
  }
}
