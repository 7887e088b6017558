/** Extraction of the anti-abuse token (`pot`, with its companion `potc`)
    the caption CDN requires: from the URL of the one audio caption track
    matching the selected caption track, else from an observed timed-text
    request URL. */
module PotTokens {
  import opened Wrappers
  import opened Urls
  import opened Seqs
  import opened YoutubeTypes
  import opened SubtitleTypes

  datatype PotToken = PotToken(pot: Option<string>, potc: Option<string>)

  /** The audio track consulted for the selected caption track: the first
      with the same `vssId`, else the first with the same language and kind,
      else the first with the same language, else the first of all. */
  function MatchAudioTrack(selected: CaptionTrack, audio: seq<AudioCaptionTrack>): (r: Option<AudioCaptionTrack>)
    ensures r.None? <==> |audio| == 0
    ensures r.Some? ==> r.value in audio
  {
    var byVss := Find(audio, (t: AudioCaptionTrack) => t.vssId == selected.vssId);
    if byVss.Some? then byVss
    else
      var byLangKind := Find(audio, (t: AudioCaptionTrack) =>
        t.languageCode == Some(selected.languageCode) && t.kind == selected.kind);
      if byLangKind.Some? then byLangKind
      else
        var byLang := Find(audio, (t: AudioCaptionTrack) => t.languageCode == Some(selected.languageCode));
        if byLang.Some? then byLang
        else if |audio| > 0 then Some(audio[0])
        else None
  }

  /** The `pot`/`potc` pair of a URL when its `pot` is non-empty. */
  function TokenOf(url: Url): Option<PotToken> {
    var pot := Get(url.params, "pot");
    if Truthy(pot) then Some(PotToken(pot, Get(url.params, "potc"))) else None
  }

  function ExtractPotToken(selected: CaptionTrack, playerData: PlayerData): (r: PotToken)
    ensures r.pot.None? || r.pot.value != ""
    ensures r.pot.None? ==> r.potc.None?
    ensures var m := MatchAudioTrack(selected, playerData.audioCaptionTracks);
      && (m.Some? && TokenOf(m.value.url).Some? ==> r == TokenOf(m.value.url).value)
      && ((m.None? || TokenOf(m.value.url).None?) && playerData.cachedTimedtextUrl.Some?
          && TokenOf(playerData.cachedTimedtextUrl.value).Some?
          ==> r == TokenOf(playerData.cachedTimedtextUrl.value).value)
      && ((m.None? || TokenOf(m.value.url).None?)
          && (playerData.cachedTimedtextUrl.None? || TokenOf(playerData.cachedTimedtextUrl.value).None?)
          ==> r == PotToken(None, None))
  {
    var m := MatchAudioTrack(selected, playerData.audioCaptionTracks);
    if m.Some? && TokenOf(m.value.url).Some? then TokenOf(m.value.url).value
    else if playerData.cachedTimedtextUrl.Some? && TokenOf(playerData.cachedTimedtextUrl.value).Some? then
      TokenOf(playerData.cachedTimedtextUrl.value).value
    else PotToken(None, None)
  }

  /** Only the consulted audio track matters: other audio tracks carrying a
      token are never used. Replacing every other track changes nothing. */
  lemma OnlyConsultedTrackMatters(selected: CaptionTrack, playerData: PlayerData, other: PlayerData)
    requires MatchAudioTrack(selected, playerData.audioCaptionTracks) == MatchAudioTrack(selected, other.audioCaptionTracks)
    requires playerData.cachedTimedtextUrl == other.cachedTimedtextUrl
    ensures ExtractPotToken(selected, playerData) == ExtractPotToken(selected, other)
  {
  }

  /** The first audio track is consulted when no track matches by id or language. */
  lemma {:induction false} FallsBackToFirstAudioTrack(selected: CaptionTrack, audio: seq<AudioCaptionTrack>)
    requires |audio| > 0
    requires forall i :: 0 <= i < |audio| ==> audio[i].vssId != selected.vssId && audio[i].languageCode != Some(selected.languageCode)
    ensures MatchAudioTrack(selected, audio) == Some(audio[0])
  {
    var byVss := Find(audio, (t: AudioCaptionTrack) => t.vssId == selected.vssId);
    assert byVss.None?;
    var byLangKind := Find(audio, (t: AudioCaptionTrack) =>
      t.languageCode == Some(selected.languageCode) && t.kind == selected.kind);
    assert byLangKind.None?;
    var byLang := Find(audio, (t: AudioCaptionTrack) => t.languageCode == Some(selected.languageCode));
    assert byLang.None?;
  }

  /** The track with the selected track's `vssId`, when there is one, is the first such. */
  lemma {:induction false} PrefersSameVssId(selected: CaptionTrack, audio: seq<AudioCaptionTrack>, k: nat)
    requires k < |audio| && audio[k].vssId == selected.vssId
    requires forall i :: 0 <= i < k ==> audio[i].vssId != selected.vssId
    ensures MatchAudioTrack(selected, audio) == Some(audio[k])
  {
    var p := (t: AudioCaptionTrack) => t.vssId == selected.vssId;
    var j := FindIndex(audio, p);
    assert p(audio[k]);
  }

  /** With no track of the same `vssId`, the first track with the selected
      track's language and kind is consulted. */
  lemma {:induction false} PrefersSameLanguageAndKind(selected: CaptionTrack, audio: seq<AudioCaptionTrack>, k: nat)
    requires forall i :: 0 <= i < |audio| ==> audio[i].vssId != selected.vssId
    requires k < |audio| && audio[k].languageCode == Some(selected.languageCode) && audio[k].kind == selected.kind
    requires forall i :: 0 <= i < k ==> !(audio[i].languageCode == Some(selected.languageCode) && audio[i].kind == selected.kind)
    ensures MatchAudioTrack(selected, audio) == Some(audio[k])
  {
    var byVss := Find(audio, (t: AudioCaptionTrack) => t.vssId == selected.vssId);
    assert byVss.None?;
    var p := (t: AudioCaptionTrack) => t.languageCode == Some(selected.languageCode) && t.kind == selected.kind;
    var j := FindIndex(audio, p);
    assert p(audio[k]);
  }

  /** With no track of the same `vssId` and none of the same language and
      kind, the first track with the selected track's language is consulted. */
  lemma {:induction false} PrefersSameLanguage(selected: CaptionTrack, audio: seq<AudioCaptionTrack>, k: nat)
    requires forall i :: 0 <= i < |audio| ==> audio[i].vssId != selected.vssId
    requires forall i :: 0 <= i < |audio| ==> !(audio[i].languageCode == Some(selected.languageCode) && audio[i].kind == selected.kind)
    requires k < |audio| && audio[k].languageCode == Some(selected.languageCode)
    requires forall i :: 0 <= i < k ==> audio[i].languageCode != Some(selected.languageCode)
    ensures MatchAudioTrack(selected, audio) == Some(audio[k])
  {
    var byVss := Find(audio, (t: AudioCaptionTrack) => t.vssId == selected.vssId);
    assert byVss.None?;
    var byLangKind := Find(audio, (t: AudioCaptionTrack) =>
      t.languageCode == Some(selected.languageCode) && t.kind == selected.kind);
    assert byLangKind.None?;
    var p := (t: AudioCaptionTrack) => t.languageCode == Some(selected.languageCode);
    var j := FindIndex(audio, p);
    assert p(audio[k]);
  }
}
