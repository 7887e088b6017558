/** The YouTube video id of the current page (src/utils/subtitles/video-id/youtube.ts):
    the `v` query parameter, else the segment after `/embed/` in the path,
    else the first path segment on the short-link host. The location comes
    in as its query parameters, path and host name. */
module VideoIds {
  import opened Wrappers
  import opened Urls
  import opened SubtitleTypes

  const EmbedMarker := "/embed/"
  const ShortLinkHost := "youtu.be"

  /** A character the pattern `[^/?]` accepts. */
  predicate SegmentChar(c: char) {
    c != '/' && c != '?'
  }

  /** The length of the longest run of segment characters starting at `k`. */
  function RunLength(s: string, k: nat): (n: nat)
    requires k <= |s|
    ensures k + n <= |s|
    ensures forall j :: k <= j < k + n ==> SegmentChar(s[j])
    ensures k + n == |s| || !SegmentChar(s[k + n])
    decreases |s| - k
  {
    if k == |s| || !SegmentChar(s[k]) then 0 else 1 + RunLength(s, k + 1)
  }

  /** The greedy capture `([^/?]+)` at `k`. */
  function Segment(s: string, k: nat): string
    requires k <= |s|
  {
    s[k..k + RunLength(s, k)]
  }

  /** The pattern `\/embed\/([^/?]+)` matches at index `i`. */
  predicate EmbedAt(path: string, i: int) {
    0 <= i && i + |EmbedMarker| < |path| && path[i..i + |EmbedMarker|] == EmbedMarker && SegmentChar(path[i + |EmbedMarker|])
  }

  /** The leftmost index from `from` on where the embed pattern matches, or -1. */
  function FirstEmbed(path: string, from: nat): (r: int)
    ensures r == -1 || (from <= r && EmbedAt(path, r))
    ensures forall j :: from <= j && (r == -1 || j < r) ==> !EmbedAt(path, j)
    decreases |path| - from
  {
    if from + |EmbedMarker| >= |path| then -1
    else if EmbedAt(path, from) then from
    else FirstEmbed(path, from + 1)
  }

  /** `getYoutubeVideoId`. */
  function GetYoutubeVideoId(search: seq<Param>, pathname: string, hostname: string): (r: Option<string>)
    ensures Truthy(Get(search, "v")) ==> r == Get(search, "v")
    ensures !Truthy(Get(search, "v")) ==> forall k :: EmbedAt(pathname, k) && (forall j :: 0 <= j < k ==> !EmbedAt(pathname, j)) ==>
      r == Some(Segment(pathname, k + |EmbedMarker|))
    ensures !Truthy(Get(search, "v")) && (forall k :: !EmbedAt(pathname, k)) ==>
      (r.Some? <==> hostname == ShortLinkHost && |pathname| >= 2 && pathname[0] == '/' && SegmentChar(pathname[1]))
    ensures !Truthy(Get(search, "v")) && (forall k :: !EmbedAt(pathname, k)) && r.Some? ==> r.value == Segment(pathname, 1)
    ensures r.Some? ==> r.value != ""
    ensures r.Some? && !Truthy(Get(search, "v")) ==> forall i :: 0 <= i < |r.value| ==> SegmentChar(r.value[i])
  {
    var v := Get(search, "v");
    if Truthy(v) then v
    else
      var k := FirstEmbed(pathname, 0);
      if k >= 0 then Some(Segment(pathname, k + |EmbedMarker|))
      else if hostname == ShortLinkHost && |pathname| >= 2 && pathname[0] == '/' && SegmentChar(pathname[1]) then
        Some(Segment(pathname, 1))
      else None
  }

  /** An embed path with a further segment: the id stops at the next '/'. */
  lemma EmbedPathExample()
    ensures GetYoutubeVideoId([], "/embed/ab/cd", "www.youtube.com") == Some("ab")
  {
    var path := "/embed/ab/cd";
    assert Get([], "v").None?;
    assert path[0..7] == EmbedMarker;
    assert EmbedAt(path, 0);
    assert FirstEmbed(path, 0) == 0;
    assert path[9] == '/';
    assert RunLength(path, 9) == 0;
    assert RunLength(path, 7) == 2;
    assert path[7..9] == "ab";
  }
}
