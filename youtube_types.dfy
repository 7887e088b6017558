/** The YouTube player data and timed-text shapes the fetcher consumes. */
module YoutubeTypes {
  import opened Wrappers
  import opened Urls

  /** A caption track as the player lists it; `name` is the text of the
      optional `name: { simpleText }` object. */
  datatype CaptionTrack = CaptionTrack(
    baseUrl: string,
    languageCode: string,
    kind: Option<string>,
    vssId: string,
    name: Option<string>,
    trackName: Option<string>)

  /** An audio caption track; its URL string always parses (tracks whose URL
      does not parse are dropped when the list is built), so it is held parsed. */
  datatype AudioCaptionTrack = AudioCaptionTrack(
    url: Url,
    vssId: string,
    kind: Option<string>,
    languageCode: Option<string>)

  /** Player data; `device` is the device string read as query parameters,
      `cachedTimedtextUrl` an observed caption request URL (always parsed). */
  datatype PlayerData = PlayerData(
    videoId: string,
    captionTracks: seq<CaptionTrack>,
    audioCaptionTracks: seq<AudioCaptionTrack>,
    device: Option<seq<Param>>,
    cver: Option<string>,
    playerState: int,
    selectedTrackLanguageCode: Option<string>,
    cachedTimedtextUrl: Option<Url>)

  datatype TimedTextSeg = TimedTextSeg(utf8: string, tOffsetMs: Option<int>)

  datatype TimedTextEvent = TimedTextEvent(
    tStartMs: int,
    dDurationMs: Option<int>,
    aAppend: Option<int>,
    segs: Option<seq<TimedTextSeg>>,
    wpWinPosId: Option<int>,
    wWinId: Option<int>)
}
