/** Removal of noise annotations such as `[Music]`, `(Applause)` or
    `♪ la la ♪` from timed-text segments. Each pattern is an opening mark,
    the shortest run of non-line-terminator characters, and a closing mark;
    a global replace removes every match, scanning left to right. */
module NoiseFilter {
  import opened Wrappers
  import opened Strings
  import opened YoutubeTypes

  datatype NoisePattern = NoisePattern(open: char, close: char)

  /** `NOISE_PATTERNS`, in order. The two emoji are single code points here;
      on well-formed UTF-16 the source's code-unit matching agrees. */
  const NoisePatterns: seq<NoisePattern> := [
    NoisePattern('[', ']'),
    NoisePattern('(', ')'),
    NoisePattern('\U{266A}', '\U{266A}'),
    NoisePattern('\U{1F3B5}', '\U{1F3B5}'),
    NoisePattern('\U{1F3B6}', '\U{1F3B6}')]

  /** Neither mark is a line terminator (which `.` could never span). */
  predicate ValidPattern(p: NoisePattern) {
    !IsLineTerminator(p.open) && !IsLineTerminator(p.close)
  }

  lemma NoisePatternsValid(k: int)
    requires 0 <= k < |NoisePatterns|
    ensures ValidPattern(NoisePatterns[k])
  {
  }

  /** `.*?c` matches a prefix of `t`: `c` occurs before any line terminator. */
  predicate MatchFrom(t: string, c: char)
    decreases |t|
  {
    |t| > 0 && (t[0] == c || (!IsLineTerminator(t[0]) && MatchFrom(t[1..], c)))
  }

  /** Position of the first `c` or line terminator in `t`, `|t|` when there is none. */
  function CloseIndex(t: string, c: char): (r: nat)
    ensures r <= |t|
    ensures forall i :: 0 <= i < r ==> t[i] != c && !IsLineTerminator(t[i])
    ensures r < |t| ==> t[r] == c || IsLineTerminator(t[r])
    ensures MatchFrom(t, c) <==> r < |t| && t[r] == c
    decreases |t|
  {
    if |t| == 0 || t[0] == c || IsLineTerminator(t[0]) then 0
    else
      var r := CloseIndex(t[1..], c);
      assert forall i :: 1 <= i < |t| ==> t[i] == t[1..][i - 1];
      1 + r
  }

  /** `text.replace(pattern, '')` for one pattern with the `g` flag: at each
      position, an opening mark whose shortest match exists is removed
      together with that match; otherwise the character is kept. */
  function RemoveSpans(s: string, p: NoisePattern): string
    decreases |s|
  {
    if |s| == 0 then []
    else if s[0] == p.open && MatchFrom(s[1..], p.close) then
      RemoveSpans(s[1 + CloseIndex(s[1..], p.close) + 1..], p)
    else [s[0]] + RemoveSpans(s[1..], p)
  }

  /** The patterns of `pats` applied one after the other, left to right. */
  function ApplyPatterns(s: string, pats: seq<NoisePattern>): string
    decreases |pats|
  {
    if |pats| == 0 then s else RemoveSpans(ApplyPatterns(s, pats[..|pats| - 1]), pats[|pats| - 1])
  }

  function FilterNoise(s: string): string {
    ApplyPatterns(s, NoisePatterns)
  }

  /** `filterNoiseText`: the loop over the patterns, reassigning the result. */
  method FilterNoiseText(text: string) returns (result: string)
    ensures result == FilterNoise(text)
    ensures forall k :: 0 <= k < |NoisePatterns| ==> NoMatch(result, NoisePatterns[k])
  {
    result := text;
    for k := 0 to |NoisePatterns|
      invariant result == ApplyPatterns(text, NoisePatterns[..k])
    {
      assert NoisePatterns[..k + 1][..k] == NoisePatterns[..k];
      result := RemoveSpans(result, NoisePatterns[k]);
    }
    assert NoisePatterns[..|NoisePatterns|] == NoisePatterns;
    FilterNoiseClean(text);
  }

  /** No opening mark of `p` is followed, on the same line, by its closing mark. */
  predicate NoMatch(s: string, p: NoisePattern) {
    forall i :: 0 <= i < |s| && s[i] == p.open ==> !MatchFrom(s[i + 1..], p.close)
  }

  lemma {:induction false} NoMatchSuffix(s: string, p: NoisePattern, k: nat)
    requires k <= |s|
    requires NoMatch(s, p)
    ensures NoMatch(s[k..], p)
  {
    forall i | 0 <= i < |s| - k && s[k..][i] == p.open
      ensures !MatchFrom(s[k..][i + 1..], p.close)
    {
      assert s[k..][i + 1..] == s[k + i + 1..];
    }
  }

  /** `c` occurs in a line-terminator-free prefix, or after it. */
  lemma {:induction false} MatchFromConcat(a: string, b: string, c: char)
    requires NoLineTerminator(a)
    requires c in a || MatchFrom(b, c)
    ensures MatchFrom(a + b, c)
    decreases |a|
  {
    if |a| == 0 {
      assert a + b == b;
    } else if a[0] != c {
      assert (a + b)[1..] == a[1..] + b;
      if c in a {
        var k :| 0 <= k < |a| && a[k] == c;
        assert a[1..][k - 1] == c;
      }
      MatchFromConcat(a[1..], b, c);
    }
  }

  /** Removing spans never creates a match for another closing mark: the
      removed spans hold no line terminator. */
  lemma {:induction false} MatchAfterRemoval(t: string, p: NoisePattern, c: char)
    requires ValidPattern(p)
    requires MatchFrom(RemoveSpans(t, p), c)
    ensures MatchFrom(t, c)
    decreases |t|
  {
    if |t| == 0 {
    } else if t[0] == p.open && MatchFrom(t[1..], p.close) {
      var j := 1 + CloseIndex(t[1..], p.close) + 1;
      MatchAfterRemoval(t[j..], p, c);
      assert t[..j] == [t[0]] + t[1..][..j - 1];
      assert NoLineTerminator(t[..j]);
      assert t == t[..j] + t[j..];
      MatchFromConcat(t[..j], t[j..], c);
    } else {
      var r := RemoveSpans(t[1..], p);
      assert RemoveSpans(t, p) == [t[0]] + r;
      if t[0] != c {
        assert ([t[0]] + r)[1..] == r;
        MatchAfterRemoval(t[1..], p, c);
      }
    }
  }

  /** After one pattern's replace, that pattern matches nowhere. */
  lemma {:induction false} RemoveSpansNoMatch(s: string, p: NoisePattern)
    requires ValidPattern(p)
    ensures NoMatch(RemoveSpans(s, p), p)
    decreases |s|
  {
    if |s| == 0 {
    } else if s[0] == p.open && MatchFrom(s[1..], p.close) {
      RemoveSpansNoMatch(s[1 + CloseIndex(s[1..], p.close) + 1..], p);
    } else {
      KeptHeadNoMatch(s, p, p);
    }
  }

  /** The case of a kept first character, shared by the two lemmas above and below. */
  lemma {:induction false} KeptHeadNoMatch(s: string, p: NoisePattern, q: NoisePattern)
    requires ValidPattern(p)
    requires |s| > 0 && !(s[0] == p.open && MatchFrom(s[1..], p.close))
    requires p == q || NoMatch(s, q)
    ensures NoMatch(RemoveSpans(s, p), q)
    decreases |s|, 0
  {
    var r := RemoveSpans(s[1..], p);
    assert RemoveSpans(s, p) == [s[0]] + r;
    if p == q {
      RemoveSpansNoMatch(s[1..], p);
    } else {
      NoMatchSuffix(s, q, 1);
      RemoveSpansKeepsNoMatch(s[1..], p, q);
    }
    if s[0] == q.open && MatchFrom(r, q.close) {
      MatchAfterRemoval(s[1..], p, q.close);
    }
    ConsNoMatch(s[0], r, q);
  }

  /** A character in front of a string without matches adds none, unless it
      opens a match. */
  lemma {:induction false} ConsNoMatch(x: char, r: string, q: NoisePattern)
    requires NoMatch(r, q)
    requires x == q.open ==> !MatchFrom(r, q.close)
    ensures NoMatch([x] + r, q)
  {
    forall i | 0 <= i < |[x] + r| && ([x] + r)[i] == q.open
      ensures !MatchFrom(([x] + r)[i + 1..], q.close)
    {
      if i == 0 {
        assert ([x] + r)[1..] == r;
      } else {
        assert ([x] + r)[i + 1..] == r[i..];
      }
    }
  }

  /** One pattern's replace keeps another pattern's absence. */
  lemma {:induction false} RemoveSpansKeepsNoMatch(s: string, p: NoisePattern, q: NoisePattern)
    requires ValidPattern(p)
    requires NoMatch(s, q)
    ensures NoMatch(RemoveSpans(s, p), q)
    decreases |s|, 1
  {
    if |s| == 0 {
    } else if s[0] == p.open && MatchFrom(s[1..], p.close) {
      var j := 1 + CloseIndex(s[1..], p.close) + 1;
      NoMatchSuffix(s, q, j);
      RemoveSpansKeepsNoMatch(s[j..], p, q);
    } else {
      KeptHeadNoMatch(s, p, q);
    }
  }

  /** A replace with nothing to match is the identity. */
  lemma {:induction false} RemoveSpansIdentity(s: string, p: NoisePattern)
    requires NoMatch(s, p)
    ensures RemoveSpans(s, p) == s
    decreases |s|
  {
    if |s| > 0 {
      NoMatchSuffix(s, p, 1);
      RemoveSpansIdentity(s[1..], p);
    }
  }

  /** Filtered text has no complete annotation left for any pattern. */
  lemma {:induction false} ApplyPatternsClean(s: string, pats: seq<NoisePattern>)
    requires forall k :: 0 <= k < |pats| ==> ValidPattern(pats[k])
    ensures forall k :: 0 <= k < |pats| ==> NoMatch(ApplyPatterns(s, pats), pats[k])
    decreases |pats|
  {
    if |pats| > 0 {
      var init := pats[..|pats| - 1];
      var last := pats[|pats| - 1];
      ApplyPatternsClean(s, init);
      var t := ApplyPatterns(s, init);
      RemoveSpansNoMatch(t, last);
      forall k | 0 <= k < |init| ensures NoMatch(RemoveSpans(t, last), pats[k]) {
        assert pats[k] == init[k];
        RemoveSpansKeepsNoMatch(t, last, pats[k]);
      }
    }
  }

  lemma {:induction false} FilterNoiseClean(s: string)
    ensures forall k :: 0 <= k < |NoisePatterns| ==> NoMatch(FilterNoise(s), NoisePatterns[k])
  {
    forall k | 0 <= k < |NoisePatterns| ensures ValidPattern(NoisePatterns[k]) {
      NoisePatternsValid(k);
    }
    ApplyPatternsClean(s, NoisePatterns);
  }

  lemma {:induction false} ApplyPatternsIdentity(s: string, pats: seq<NoisePattern>)
    requires forall k :: 0 <= k < |pats| ==> NoMatch(s, pats[k])
    ensures ApplyPatterns(s, pats) == s
    decreases |pats|
  {
    if |pats| > 0 {
      var init := pats[..|pats| - 1];
      ApplyPatternsIdentity(s, init);
      RemoveSpansIdentity(s, pats[|pats| - 1]);
    }
  }

  /** Filtering text twice is filtering it once. */
  lemma {:induction false} FilterNoiseIdempotent(s: string)
    ensures FilterNoise(FilterNoise(s)) == FilterNoise(s)
  {
    FilterNoiseClean(s);
    ApplyPatternsIdentity(FilterNoise(s), NoisePatterns);
  }

  /** Text without opening marks is kept as it is, and so is what follows it. */
  lemma {:induction false} RemoveSpansKeepsPlain(a: string, b: string, p: NoisePattern)
    requires forall i :: 0 <= i < |a| ==> a[i] != p.open
    ensures RemoveSpans(a + b, p) == a + RemoveSpans(b, p)
    decreases |a|
  {
    if |a| == 0 {
      assert a + b == b;
    } else {
      assert (a + b)[0] == a[0];
      assert (a + b)[1..] == a[1..] + b;
      RemoveSpansKeepsPlain(a[1..], b, p);
      assert a == [a[0]] + a[1..];
    }
  }

  lemma {:induction false} RemoveSpansPlain(s: string, p: NoisePattern)
    requires forall i :: 0 <= i < |s| ==> s[i] != p.open
    ensures RemoveSpans(s, p) == s
  {
    RemoveSpansKeepsPlain(s, [], p);
    assert s + [] == s;
  }

  /** A complete annotation on one line is removed, marks included. */
  lemma {:induction false} RemoveSpansAnnotation(x: string, rest: string, p: NoisePattern)
    requires forall i :: 0 <= i < |x| ==> x[i] != p.close && !IsLineTerminator(x[i])
    ensures RemoveSpans([p.open] + x + [p.close] + rest, p) == RemoveSpans(rest, p)
  {
    var s := [p.open] + x + [p.close] + rest;
    assert s[1..] == x + ([p.close] + rest);
    assert CloseIndex(s[1..], p.close) == |x| by {
      assert s[1..][|x|] == p.close;
    }
    assert s[|x| + 2..] == rest;
  }

  lemma {:induction false} ApplyPatternsAppend(s: string, a: seq<NoisePattern>, b: seq<NoisePattern>)
    ensures ApplyPatterns(s, a + b) == ApplyPatterns(ApplyPatterns(s, a), b)
    decreases |b|
  {
    if |b| == 0 {
      assert a + b == a;
    } else {
      assert (a + b)[..|a + b| - 1] == a + b[..|b| - 1];
      ApplyPatternsAppend(s, a, b[..|b| - 1]);
    }
  }

  /** One annotation between plain text is removed and the text around it kept. */
  lemma {:induction false} RemoveSpansBetween(a: string, x: string, b: string, p: NoisePattern)
    requires forall i :: 0 <= i < |a| ==> a[i] != p.open
    requires forall i :: 0 <= i < |b| ==> b[i] != p.open
    requires forall i :: 0 <= i < |x| ==> x[i] != p.close && !IsLineTerminator(x[i])
    ensures RemoveSpans(a + ([p.open] + x + [p.close] + b), p) == a + b
  {
    var span := [p.open] + x + [p.close] + b;
    var r1 := RemoveSpans(span, p);
    var r2 := RemoveSpans(a + span, p);
    RemoveSpansKeepsPlain(a, span, p);
    assert r2 == a + r1;
    RemoveSpansAnnotation(x, b, p);
    assert r1 == RemoveSpans(b, p);
    RemoveSpansPlain(b, p);
  }

  /** The bracket pattern on 'Hello [Music] World' removes '[Music]' and
      keeps both spaces around it. */
  lemma BracketsRemovedInMiddle()
    ensures RemoveSpans("Hello [Music] World", NoisePatterns[0]) == "Hello  World"
  {
    var brackets := NoisePatterns[0];
    var a, x, b := "Hello ", "Music", " World";
    forall i | 0 <= i < |a| ensures a[i] != '[' { assert a[i] in "Hello "; }
    forall i | 0 <= i < |b| ensures b[i] != '[' { assert b[i] in " World"; }
    forall i | 0 <= i < |x| ensures x[i] != ']' && !IsLineTerminator(x[i]) { assert x[i] in "Music"; }
    RemoveSpansBetween(a, x, b, brackets);
    assert a + ([brackets.open] + x + [brackets.close] + b) == "Hello [Music] World";
    assert a + b == "Hello  World";
  }

  /** The result holds no opening mark of the later patterns. */
  lemma {:induction false} LaterPatternsAbsent(t: string)
    requires t == "Hello  World"
    ensures forall k :: 0 <= k < |NoisePatterns[1..]| ==> NoMatch(t, NoisePatterns[1..][k])
  {
    forall k, i | 0 <= k < |NoisePatterns[1..]| && 0 <= i < |t| ensures t[i] != NoisePatterns[1..][k].open {
      assert t[i] in "Hello  World";
    }
  }

  /** Surrounding text is kept exactly. */
  lemma MiddleAnnotationRemoved()
    ensures FilterNoise("Hello [Music] World") == "Hello  World"
  {
    var t := "Hello  World";
    BracketsRemovedInMiddle();
    assert NoisePatterns == [NoisePatterns[0]] + NoisePatterns[1..];
    ApplyPatternsAppend("Hello [Music] World", [NoisePatterns[0]], NoisePatterns[1..]);
    assert ApplyPatterns("Hello [Music] World", [NoisePatterns[0]]) == t by {
      assert [NoisePatterns[0]][..0] == [];
    }
    LaterPatternsAbsent(t);
    ApplyPatternsIdentity(t, NoisePatterns[1..]);
  }

  /** Keeps a segment when its filtered text is not white space only. */
  function FilterSegs(segs: seq<TimedTextSeg>): (r: seq<TimedTextSeg>)
    ensures |r| <= |segs|
    ensures forall i :: 0 <= i < |r| ==> |Trim(r[i].utf8)| > 0
    decreases |segs|
  {
    if |segs| == 0 then []
    else
      var seg := segs[0].(utf8 := FilterNoise(segs[0].utf8));
      if |Trim(seg.utf8)| > 0 then [seg] + FilterSegs(segs[1..]) else FilterSegs(segs[1..])
  }

  /** `filterNoiseFromEvents`. */
  function FilterNoiseFromEvents(events: seq<TimedTextEvent>): (r: seq<TimedTextEvent>)
    ensures |r| == |events|
    ensures forall i :: 0 <= i < |r| ==> (r[i].segs.None? <==> events[i].segs.None?)
    ensures forall i :: 0 <= i < |r| && events[i].segs.None? ==> r[i] == events[i]
    ensures forall i :: 0 <= i < |r| ==> r[i].(segs := None) == events[i].(segs := None)
    ensures forall i :: 0 <= i < |r| && events[i].segs.Some? ==> r[i].segs == Some(FilterSegs(events[i].segs.value))
  {
    seq(|events|, i requires 0 <= i < |events| =>
      if events[i].segs.None? then events[i] else events[i].(segs := Some(FilterSegs(events[i].segs.value))))
  }

  /** A segment is dropped exactly when its filtered text is white space only;
      a kept one keeps its offset and carries the filtered text. */
  lemma {:induction false} FilterSegsOne(seg: TimedTextSeg)
    ensures AllSpace(FilterNoise(seg.utf8)) ==> FilterSegs([seg]) == []
    ensures !AllSpace(FilterNoise(seg.utf8)) ==> FilterSegs([seg]) == [TimedTextSeg(FilterNoise(seg.utf8), seg.tOffsetMs)]
  {
    TrimEmpty(FilterNoise(seg.utf8));
    assert [seg][1..] == [];
  }

  /** Segments are filtered one by one, in order. */
  lemma {:induction false} FilterSegsConcat(a: seq<TimedTextSeg>, b: seq<TimedTextSeg>)
    ensures FilterSegs(a + b) == FilterSegs(a) + FilterSegs(b)
    decreases |a|
  {
    if |a| == 0 {
      assert a + b == b;
    } else {
      assert (a + b)[0] == a[0];
      assert (a + b)[1..] == a[1..] + b;
      FilterSegsConcat(a[1..], b);
    }
  }

  lemma {:induction false} FilterSegsIdempotent(segs: seq<TimedTextSeg>)
    ensures FilterSegs(FilterSegs(segs)) == FilterSegs(segs)
    decreases |segs|
  {
    if |segs| > 0 {
      var seg := segs[0].(utf8 := FilterNoise(segs[0].utf8));
      var rest := FilterSegs(segs[1..]);
      FilterSegsIdempotent(segs[1..]);
      if |Trim(seg.utf8)| > 0 {
        FilterNoiseIdempotent(segs[0].utf8);
        assert seg.(utf8 := FilterNoise(seg.utf8)) == seg;
        assert ([seg] + rest)[0] == seg;
        assert ([seg] + rest)[1..] == rest;
      }
    }
  }

  /** Filtering events twice is filtering them once. */
  lemma {:induction false} FilterNoiseFromEventsIdempotent(events: seq<TimedTextEvent>)
    ensures FilterNoiseFromEvents(FilterNoiseFromEvents(events)) == FilterNoiseFromEvents(events)
  {
    var once := FilterNoiseFromEvents(events);
    var twice := FilterNoiseFromEvents(once);
    forall i | 0 <= i < |events| ensures twice[i] == once[i] {
      if events[i].segs.Some? {
        FilterSegsIdempotent(events[i].segs.value);
      }
    }
  }
}
