/** AI re-segmentation of a block of caption fragments: cleanup of the
    input text, the parser of the simplified WebVTT the model replies with
    (`start --> end` in milliseconds, then text lines), and the
    empty-result contract of one segmentation request. */
module AiSegmentation {
  import opened Wrappers
  import opened Strings
  import opened SubtitleTypes

  // ---- cleanFragmentsForAi ----

  /** `text.replace(/\n/g, ' ')`. */
  function ReplaceNewlines(s: string): (r: string)
    ensures |r| == |s|
    ensures forall i :: 0 <= i < |s| ==> r[i] == (if s[i] == '\n' then ' ' else s[i])
  {
    seq(|s|, i requires 0 <= i < |s| => if s[i] == '\n' then ' ' else s[i])
  }

  /** Every white-space character is a plain space and none is followed by another. */
  predicate WellSpaced(s: string) {
    forall i :: 0 <= i < |s| && IsSpace(s[i]) ==> s[i] == ' ' && (i + 1 < |s| ==> !IsSpace(s[i + 1]))
  }

  /** `.replace(/\s+/g, ' ')`: each maximal white-space run becomes one space. */
  function CollapseSpaces(s: string): (r: string)
    ensures |r| == 0 <==> |s| == 0
    ensures |r| > 0 ==> (IsSpace(r[0]) <==> IsSpace(s[0]))
    ensures WellSpaced(r)
    decreases |s|
  {
    if |s| == 0 then []
    else if IsSpace(s[0]) then
      var rest := TrimStart(s[1..]);
      var r := [' '] + CollapseSpaces(rest);
      assert r[1..] == CollapseSpaces(rest);
      r
    else
      var r := [s[0]] + CollapseSpaces(s[1..]);
      assert r[1..] == CollapseSpaces(s[1..]);
      r
  }

  /** A word, a run of characters other than white space, is copied
      unchanged. */
  lemma {:induction false} CollapseKeepsWord(w: string, rest: string)
    requires forall i :: 0 <= i < |w| ==> !IsSpace(w[i])
    ensures CollapseSpaces(w + rest) == w + CollapseSpaces(rest)
    decreases |w|
  {
    if |w| == 0 {
      assert w + rest == rest;
    } else {
      assert (w + rest)[0] == w[0];
      assert (w + rest)[1..] == w[1..] + rest;
      CollapseKeepsWord(w[1..], rest);
      assert w == [w[0]] + w[1..];
    }
  }

  /** A maximal white-space run, one not followed by more white space,
      becomes exactly one space. With `CollapseKeepsWord` and the empty
      string this fixes the result on every input, since every string is
      words separated by such runs. */
  lemma {:induction false} CollapseRun(g: string, rest: string)
    requires |g| > 0 && AllSpace(g)
    requires rest == [] || !IsSpace(rest[0])
    ensures CollapseSpaces(g + rest) == " " + CollapseSpaces(rest)
  {
    assert (g + rest)[0] == g[0];
    assert (g + rest)[1..] == g[1..] + rest;
    TrimStartRun(g[1..], rest);
  }

  /** `TrimStart` removes exactly a leading white-space run. */
  lemma {:induction false} TrimStartRun(g: string, rest: string)
    requires AllSpace(g)
    requires rest == [] || !IsSpace(rest[0])
    ensures TrimStart(g + rest) == rest
    decreases |g|
  {
    if |g| == 0 {
      assert g + rest == rest;
    } else {
      assert IsSpace(g[0]);
      assert (g + rest)[0] == g[0];
      assert (g + rest)[1..] == g[1..] + rest;
      assert AllSpace(g[1..]) by {
        forall i | 0 <= i < |g| - 1 ensures IsSpace(g[1..][i]) {
          assert g[1..][i] == g[i + 1];
        }
      }
      TrimStartRun(g[1..], rest);
    }
  }

  lemma {:induction false} WellSpacedSlice(s: string, a: nat, b: nat)
    requires a <= b <= |s|
    requires WellSpaced(s)
    ensures WellSpaced(s[a..b])
  {
    forall i | 0 <= i < b - a && IsSpace(s[a..b][i])
      ensures s[a..b][i] == ' ' && (i + 1 < b - a ==> !IsSpace(s[a..b][i + 1]))
    {
      assert s[a..b][i] == s[a + i];
      if i + 1 < b - a {
        assert s[a..b][i + 1] == s[a + i + 1];
      }
    }
  }

  lemma {:induction false} WellSpacedNoNewline(s: string)
    requires WellSpaced(s)
    ensures '\n' !in s
  {
    if '\n' in s {
      var i :| 0 <= i < |s| && s[i] == '\n';
      assert IsSpace(s[i]);
    }
  }

  /** Trimming a well-spaced string keeps it well spaced. */
  lemma {:induction false} TrimWellSpaced(s: string)
    requires WellSpaced(s)
    ensures WellSpaced(Trim(s))
  {
    var t := TrimStart(s);
    TrimStartSlice(s);
    TrimEndSlice(t);
    WellSpacedSlice(s, |s| - |t|, |s|);
    WellSpacedSlice(t, 0, |TrimEnd(t)|);
  }

  /** Normalised caption text: non-empty, single plain spaces between words,
      no line break, nothing to trim. */
  predicate CleanForm(t: string) {
    t != [] && WellSpaced(t) && '\n' !in t && !IsSpace(t[0]) && !IsSpace(t[|t| - 1])
  }

  /** The text `cleanFragmentsForAi` gives a fragment. */
  function CleanText(s: string): (r: string)
    ensures r == [] || CleanForm(r)
  {
    var c := CollapseSpaces(ReplaceNewlines(s));
    TrimWellSpaced(c);
    WellSpacedNoNewline(Trim(c));
    Trim(c)
  }

  /** `cleanFragmentsForAi`: normalised text, and fragments left without text dropped. */
  function CleanFragmentsForAi(fragments: seq<Fragment>): (r: seq<Fragment>)
    ensures |r| <= |fragments|
    ensures forall i :: 0 <= i < |r| ==> CleanForm(r[i].text)
    decreases |fragments|
  {
    if |fragments| == 0 then []
    else
      var t := CleanText(fragments[0].text);
      var rest := CleanFragmentsForAi(fragments[1..]);
      if |t| > 0 then [fragments[0].(text := t)] + rest else rest
  }

  /** One fragment: kept, with start, end and translation, exactly when its
      cleaned text is non-empty. */
  lemma {:induction false} CleanOne(f: Fragment)
    ensures CleanText(f.text) == [] ==> CleanFragmentsForAi([f]) == []
    ensures CleanText(f.text) != [] ==>
      CleanFragmentsForAi([f]) == [Fragment(f.start, f.end, CleanText(f.text), f.translation)]
  {
    assert [f][1..] == [];
  }

  /** Fragments are cleaned one by one, in order. */
  lemma {:induction false} CleanConcat(a: seq<Fragment>, b: seq<Fragment>)
    ensures CleanFragmentsForAi(a + b) == CleanFragmentsForAi(a) + CleanFragmentsForAi(b)
    decreases |a|
  {
    if |a| == 0 {
      assert a + b == b;
    } else {
      assert (a + b)[0] == a[0];
      assert (a + b)[1..] == a[1..] + b;
      CleanConcat(a[1..], b);
    }
  }

  /** Cleaning is idempotent: cleaned text is already normalised. */
  lemma {:induction false} CleanTextIdempotent(s: string)
    ensures CleanText(CleanText(s)) == CleanText(s)
  {
    var t := CleanText(s);
    assert ReplaceNewlines(t) == t;
    CollapseWellSpaced(t);
    TrimUnchanged(t);
  }

  /** A well-spaced string is its own collapse. */
  lemma {:induction false} CollapseWellSpaced(s: string)
    requires WellSpaced(s)
    ensures CollapseSpaces(s) == s
    decreases |s|
  {
    if |s| > 0 {
      assert WellSpaced(s[1..]) by {
        WellSpacedSlice(s, 1, |s|);
      }
      if IsSpace(s[0]) {
        assert |s| == 1 || !IsSpace(s[1..][0]);
        assert TrimStart(s[1..]) == s[1..];
      }
      CollapseWellSpaced(s[1..]);
      assert s == [s[0]] + s[1..];
    }
  }

  // ---- parseSimplifiedVttToFragments ----

  /** Number of leading ASCII digits. */
  function DigitPrefixLen(s: string): (r: nat)
    ensures r <= |s|
    ensures AllDigits(s[..r])
    ensures r < |s| ==> !IsDigit(s[r])
    decreases |s|
  {
    if |s| > 0 && IsDigit(s[0]) then
      var r := 1 + DigitPrefixLen(s[1..]);
      assert s[..r] == [s[0]] + s[1..][..r - 1];
      r
    else 0
  }

  /** Number of leading white-space characters (the length `\s*` matches). */
  function SpacePrefixLen(s: string): (r: nat)
    ensures r <= |s|
    decreases |s|
  {
    if |s| > 0 && IsSpace(s[0]) then 1 + SpacePrefixLen(s[1..]) else 0
  }

  /** The white-space scan stops at the first character that is not white space. */
  lemma {:induction false} SpacePrefixLenStops(s: string)
    ensures AllSpace(s[..SpacePrefixLen(s)])
    ensures SpacePrefixLen(s) < |s| ==> !IsSpace(s[SpacePrefixLen(s)])
    decreases |s|
  {
    if |s| > 0 && IsSpace(s[0]) {
      SpacePrefixLenStops(s[1..]);
      assert s[..SpacePrefixLen(s)] == [s[0]] + s[1..][..SpacePrefixLen(s[1..])];
    }
  }

  /** `line` is `\d+\s*-->\s*\d+` in full: digits up to `a`, white space up
      to the arrow at `b`, white space again, and digits from `c` to the end. */
  predicate TimestampShape(line: string, a: nat, b: nat, c: nat) {
    0 < a <= b && b + 3 <= c < |line|
    && AllDigits(line[..a]) && AllSpace(line[a..b]) && line[b..b + 3] == "-->"
    && AllSpace(line[b + 3..c]) && AllDigits(line[c..])
  }

  /** `line.match(/^(\d+)\s*-->\s*(\d+)$/)` with both numbers read by
      `Number.parseInt(_, 10)`. The digit runs cannot give way to white
      space or to `-`, so the match, when there is one, is unique; it is
      found by one scan per part of the pattern. */
  function MatchTimestamp(line: string): Option<(nat, nat)> {
    MatchAfterDigits(line, DigitPrefixLen(line))
  }

  /** The match once the leading digits end at `a`. */
  function MatchAfterDigits(line: string, a: nat): Option<(nat, nat)>
    requires a <= |line|
    requires AllDigits(line[..a])
  {
    if a == 0 then None else MatchArrow(line, a, a + SpacePrefixLen(line[a..]))
  }

  /** The match once the white space before the arrow ends at `b`. */
  function MatchArrow(line: string, a: nat, b: nat): Option<(nat, nat)>
    requires a <= b <= |line|
    requires AllDigits(line[..a])
  {
    if !IsPrefix("-->", line[b..]) then None
    else MatchSecond(line, a, b + 3 + SpacePrefixLen(line[b + 3..]))
  }

  /** The end of the match: the rest of the line from `c` is one or more
      digits, and both numbers are read. */
  function MatchSecond(line: string, a: nat, c: nat): (r: Option<(nat, nat)>)
    requires a <= c <= |line|
    requires AllDigits(line[..a])
    ensures r.Some? <==> c < |line| && AllDigits(line[c..])
    ensures r.Some? ==> r.value == (DecimalValue(line[..a]), DecimalValue(line[c..]))
  {
    if c < |line| && AllDigits(line[c..]) then Some((DecimalValue(line[..a]), DecimalValue(line[c..]))) else None
  }

  /** A match means the line has the shape, and the values are its two numbers. */
  lemma {:induction false} MatchTimestampSound(line: string)
    ensures MatchTimestamp(line).Some? ==>
      (exists a: nat, b: nat, c: nat ::
         TimestampShape(line, a, b, c)
         && MatchTimestamp(line).value == (DecimalValue(line[..a]), DecimalValue(line[c..])))
  {
    var a := DigitPrefixLen(line);
    if a > 0 {
      var b := a + SpacePrefixLen(line[a..]);
      assert MatchTimestamp(line) == MatchArrow(line, a, b);
      if IsPrefix("-->", line[b..]) {
        var c := b + 3 + SpacePrefixLen(line[b + 3..]);
        assert MatchTimestamp(line) == MatchSecond(line, a, c);
        if MatchSecond(line, a, c).Some? {
          SpacePrefixLenStops(line[a..]);
          SpacePrefixLenStops(line[b + 3..]);
          assert line[a..][..b - a] == line[a..b];
          assert line[b..][..3] == line[b..b + 3];
          assert line[b + 3..][..c - b - 3] == line[b + 3..c];
          assert TimestampShape(line, a, b, c);
        }
      }
    }
  }

  /** The converse: every line of that shape matches, with its two numbers.
      So a line matches exactly when it has the shape. */
  lemma {:induction false} MatchTimestampExact(line: string, a: nat, b: nat, c: nat)
    requires TimestampShape(line, a, b, c)
    ensures MatchTimestamp(line) == Some((DecimalValue(line[..a]), DecimalValue(line[c..])))
  {
    ShapeLengths(line, a, b, c);
    assert IsPrefix("-->", line[b..]) by {
      assert line[b..][..3] == line[b..b + 3];
    }
    assert MatchTimestamp(line) == MatchAfterDigits(line, a) == MatchArrow(line, a, b);
    assert MatchArrow(line, a, b) == MatchSecond(line, a, c);
  }

  /** The three scans of `MatchTimestamp` stop where the shape says. */
  lemma {:induction false} ShapeLengths(line: string, a: nat, b: nat, c: nat)
    requires TimestampShape(line, a, b, c)
    ensures DigitPrefixLen(line) == a
    ensures SpacePrefixLen(line[a..]) == b - a
    ensures SpacePrefixLen(line[b + 3..]) == c - b - 3
  {
    var arrow := line[b..b + 3];
    assert line[b] == arrow[0] == '-';
    assert !IsDigit(line[a]) by {
      if a < b {
        assert line[a] == line[a..b][0];
        assert IsSpace(line[a]);
      }
    }
    DigitPrefixLenExact(line, a);
    assert line[a..][..b - a] == line[a..b];
    assert line[a..][b - a] == line[b];
    SpacePrefixLenExact(line[a..], b - a);
    assert IsDigit(line[c]) by {
      assert line[c] == line[c..][0];
    }
    assert line[b + 3..][..c - b - 3] == line[b + 3..c];
    assert line[b + 3..][c - b - 3] == line[c];
    SpacePrefixLenExact(line[b + 3..], c - b - 3);
  }

  lemma {:induction false} DigitPrefixLenExact(s: string, n: nat)
    requires n <= |s| && AllDigits(s[..n]) && (n < |s| ==> !IsDigit(s[n]))
    ensures DigitPrefixLen(s) == n
    decreases n
  {
    if n > 0 {
      assert s[..n][0] == s[0];
      assert s[1..][..n - 1] == s[..n][1..];
      if n < |s| {
        assert s[1..][n - 1] == s[n];
      }
      DigitPrefixLenExact(s[1..], n - 1);
    }
  }

  lemma {:induction false} SpacePrefixLenExact(s: string, n: nat)
    requires n <= |s| && AllSpace(s[..n]) && (n < |s| ==> !IsSpace(s[n]))
    ensures SpacePrefixLen(s) == n
    decreases n
  {
    if n > 0 {
      assert s[..n][0] == s[0];
      assert s[1..][..n - 1] == s[..n][1..];
      if n < |s| {
        assert s[1..][n - 1] == s[n];
      }
      SpacePrefixLenExact(s[1..], n - 1);
    }
  }

  /** Only white space. */
  predicate Blank(s: string)
    decreases |s|
  {
    |s| == 0 || (IsSpace(s[0]) && Blank(s[1..]))
  }

  /** `line.trim() === ''` is what Blank states. */
  lemma {:induction false} BlankTrim(s: string)
    ensures Blank(s) <==> Trim(s) == []
    decreases |s|
  {
    TrimEmpty(s);
    if |s| > 0 {
      TrimEmpty(s[1..]);
      BlankTrim(s[1..]);
      assert AllSpace(s) <==> IsSpace(s[0]) && AllSpace(s[1..]) by {
        if IsSpace(s[0]) && AllSpace(s[1..]) {
          forall i | 0 <= i < |s| ensures IsSpace(s[i]) {
            if i > 0 {
              assert s[i] == s[1..][i - 1];
            }
          }
        }
      }
    }
  }

  /** A text line ends the cue: blank once trimmed, or holding `-->`. */
  predicate EndsCue(line: string) {
    Blank(line) || Contains(line, "-->")
  }

  /** Number of leading lines that do not end the cue: its text lines. */
  function TextLen(lines: seq<string>): (r: nat)
    ensures r <= |lines|
    decreases |lines|
  {
    if |lines| == 0 || EndsCue(lines[0]) then 0 else 1 + TextLen(lines[1..])
  }

  /** Number of leading lines without `-->`: the header skip. */
  function HeaderLen(lines: seq<string>): (r: nat)
    ensures r <= |lines|
    decreases |lines|
  {
    if |lines| == 0 || Contains(lines[0], "-->") then 0 else 1 + HeaderLen(lines[1..])
  }

  /** Every line trimmed. */
  function TrimAll(lines: seq<string>): (r: seq<string>)
    ensures |r| == |lines|
    decreases |lines|
  {
    if |lines| == 0 then [] else [Trim(lines[0])] + TrimAll(lines[1..])
  }

  /** One step of the parser on the lines from the current one on: the
      fragment read there, if any, and how many lines it took. A timestamp
      line takes the text lines after it; any other line is skipped. */
  function CueAt(lines: seq<string>): (r: (Option<Fragment>, nat))
    requires |lines| > 0
    ensures 0 < r.1 <= |lines|
    ensures r.0.Some? ==> r.0.value.text != [] && r.0.value.translation == None
  {
    var m := MatchTimestamp(Trim(lines[0]));
    if m.None? then (None, 1)
    else
      var rest := lines[1..];
      var n := TextLen(rest);
      var texts := TrimAll(rest[..n]);
      if n > 0 then
        CueTextNonEmpty(rest);
        (Some(Fragment(m.value.0, m.value.1, Join(texts, '\n'), None)), 1 + n)
      else (None, 1)
  }

  /** The fragments read from a list of lines, first line on. */
  function Cues(lines: seq<string>): (r: seq<Fragment>)
    ensures forall n :: 0 <= n < |r| ==> r[n].text != [] && r[n].translation == None
    decreases |lines|
  {
    if |lines| == 0 then []
    else
      var step := CueAt(lines);
      var rest := Cues(lines[step.1..]);
      if step.0.Some? then
        var r := [step.0.value] + rest;
        assert forall n :: 1 <= n < |r| ==> r[n] == rest[n - 1];
        r
      else rest
  }

  /** The text lines of a cue, when there are any, join to non-empty text. */
  lemma {:induction false} CueTextNonEmpty(lines: seq<string>)
    requires TextLen(lines) > 0
    ensures Join(TrimAll(lines[..TextLen(lines)]), '\n') != []
  {
    var texts := TrimAll(lines[..TextLen(lines)]);
    assert lines[..TextLen(lines)][0] == lines[0];
    BlankTrim(lines[0]);
    JoinNonEmpty(texts, '\n');
  }

  /** The joined text of a cue with a non-empty first line is not empty. */
  lemma {:induction false} JoinNonEmpty(pieces: seq<string>, d: char)
    requires |pieces| > 0 && pieces[0] != []
    ensures Join(pieces, d) != []
  {
  }

  /** `vttContent.trim().split('\n')`. */
  function Lines(vtt: string): seq<string> {
    Split(Trim(vtt), '\n')
  }

  /** The fragments of a list of lines, header skipped. */
  function ParseLines(lines: seq<string>): seq<Fragment> {
    Cues(lines[HeaderLen(lines)..])
  }

  /** What `parseSimplifiedVttToFragments` returns. */
  function ParseSimplifiedVtt(vtt: string): seq<Fragment> {
    ParseLines(Lines(vtt))
  }

  /** `parseSimplifiedVttToFragments`: trim and split the reply into lines,
      then parse them. */
  method ParseSimplifiedVttToFragments(vtt: string) returns (fragments: seq<Fragment>)
    ensures fragments == ParseSimplifiedVtt(vtt)
  {
    var lines := Split(Trim(vtt), '\n');
    fragments := ParseVttLines(lines);
  }

  /** The two loops on the lines: skip the header, then read one cue (or
      skip one line) per turn of the outer loop. */
  method ParseVttLines(lines: seq<string>) returns (fragments: seq<Fragment>)
    ensures fragments == ParseLines(lines)
  {
    fragments := [];
    var lineIndex := SkipHeader(lines);
    ghost var total := Cues(lines[lineIndex..]);
    while lineIndex < |lines|
      invariant 0 <= lineIndex <= |lines|
      invariant fragments + Cues(lines[lineIndex..]) == total
      decreases |lines| - lineIndex
    {
      var cue, next := ReadCue(lines, lineIndex);
      ghost var later := Cues(lines[next..]);
      AppendAssoc(fragments, OptionSeq(cue), later);
      if cue.Some? {
        assert OptionSeq(cue) == [cue.value];
        fragments := fragments + [cue.value];
      } else {
        assert fragments + OptionSeq(cue) == fragments;
      }
      lineIndex := next;
    }
  }

  /** The header loop: the index of the first line holding `-->`. */
  method SkipHeader(lines: seq<string>) returns (lineIndex: nat)
    ensures lineIndex == HeaderLen(lines)
  {
    lineIndex := 0;
    while lineIndex < |lines| && !Contains(lines[lineIndex], "-->")
      invariant 0 <= lineIndex <= |lines|
      invariant HeaderLen(lines) == lineIndex + HeaderLen(lines[lineIndex..])
    {
      assert lines[lineIndex..][1..] == lines[lineIndex + 1..];
      lineIndex := lineIndex + 1;
    }
  }

  /** One turn of the outer loop at line `lineIndex`: a timestamp line with
      the text lines after it gives a fragment; the index moves past what
      was read. */
  method ReadCue(lines: seq<string>, lineIndex: nat) returns (cue: Option<Fragment>, next: nat)
    requires lineIndex < |lines|
    ensures lineIndex < next <= |lines|
    ensures Cues(lines[lineIndex..]) == OptionSeq(cue) + Cues(lines[next..])
  {
    var line := Trim(lines[lineIndex]);
    var m := MatchTimestamp(line);
    if m.Some? {
      var (start, end) := m.value;
      var textLines;
      textLines, next := CollectTextLines(lines, lineIndex + 1);
      if |textLines| > 0 {
        cue := Some(Fragment(start, end, Join(textLines, '\n'), None));
      } else {
        cue := None;
      }
      CuesAtTimestamp(lines, lineIndex, start, end, next, textLines);
    } else {
      cue, next := None, lineIndex + 1;
      CuesAtOther(lines, lineIndex);
    }
  }

  /** The parser at a timestamp line: one fragment when text lines follow,
      and parsing resumes at the line that ended the cue. */
  lemma {:induction false} CuesAtTimestamp(lines: seq<string>, i: nat, start: nat, end: nat, next: nat, texts: seq<string>)
    requires i < |lines|
    requires MatchTimestamp(Trim(lines[i])) == Some((start, end))
    requires next == i + 1 + TextLen(lines[i + 1..]) && texts == TrimAll(lines[i + 1..next])
    ensures Cues(lines[i..]) == (if |texts| > 0 then [Fragment(start, end, Join(texts, '\n'), None)] else []) + Cues(lines[next..])
  {
    CueAtTimestamp(lines, i, start, end, next, texts);
    CuesStep(lines, i);
  }

  /** The parser skips a line that is not a timestamp line. */
  lemma {:induction false} CuesAtOther(lines: seq<string>, i: nat)
    requires i < |lines|
    requires MatchTimestamp(Trim(lines[i])) == None
    ensures Cues(lines[i..]) == Cues(lines[i + 1..])
  {
    CueAtOther(lines, i);
    CuesStep(lines, i);
  }

  /** At a timestamp line, CueAt takes the text lines the inner loop collects. */
  lemma {:induction false} CueAtTimestamp(lines: seq<string>, i: nat, start: nat, end: nat, next: nat, texts: seq<string>)
    requires i < |lines|
    requires MatchTimestamp(Trim(lines[i])) == Some((start, end))
    requires next == i + 1 + TextLen(lines[i + 1..]) && texts == TrimAll(lines[i + 1..next])
    ensures CueAt(lines[i..]) == (if |texts| > 0 then Some(Fragment(start, end, Join(texts, '\n'), None)) else None, next - i)
  {
    var s := lines[i..];
    assert s[0] == lines[i];
    assert s[1..] == lines[i + 1..];
    assert s[1..][..next - i - 1] == lines[i + 1..next];
  }

  /** Any other line is skipped. */
  lemma {:induction false} CueAtOther(lines: seq<string>, i: nat)
    requires i < |lines|
    requires MatchTimestamp(Trim(lines[i])) == None
    ensures CueAt(lines[i..]) == (None, 1)
  {
    assert lines[i..][0] == lines[i];
  }

  /** The fragment read, as a sequence of zero or one. */
  function OptionSeq(cue: Option<Fragment>): (r: seq<Fragment>)
    ensures |r| <= 1
  {
    if cue.Some? then [cue.value] else []
  }

  lemma AppendAssoc<T>(a: seq<T>, b: seq<T>, c: seq<T>)
    ensures (a + b) + c == a + (b + c)
  {
  }

  /** The parser at line i reads what CueAt reads there and resumes after it. */
  lemma {:induction false} CuesStep(lines: seq<string>, i: nat)
    requires i < |lines|
    ensures var st := CueAt(lines[i..]);
      Cues(lines[i..]) == (if st.0.Some? then [st.0.value] else []) + Cues(lines[i + st.1..])
  {
    var st := CueAt(lines[i..]);
    assert lines[i..][st.1..] == lines[i + st.1..];
  }

  /** The inner loop: the trimmed text lines from `first` up to the line
      ending the cue, and the index of that line. */
  method CollectTextLines(lines: seq<string>, first: nat) returns (textLines: seq<string>, next: nat)
    requires first <= |lines|
    ensures next == first + TextLen(lines[first..])
    ensures textLines == TrimAll(lines[first..next])
  {
    textLines := [];
    next := first;
    while next < |lines| && Trim(lines[next]) != "" && !Contains(lines[next], "-->")
      invariant first <= next <= |lines|
      invariant first + TextLen(lines[first..]) == next + TextLen(lines[next..])
      invariant textLines == TrimAll(lines[first..next])
      decreases |lines| - next
    {
      BlankTrim(lines[next]);
      assert lines[next..][0] == lines[next];
      assert lines[next..][1..] == lines[next + 1..];
      TrimAllAppend(lines[first..next], lines[next]);
      assert lines[first..next + 1] == lines[first..next] + [lines[next]];
      textLines := textLines + [Trim(lines[next])];
      next := next + 1;
    }
    if next < |lines| {
      BlankTrim(lines[next]);
      assert lines[next..][0] == lines[next];
    }
  }

  lemma {:induction false} TrimAllAppend(a: seq<string>, x: string)
    ensures TrimAll(a + [x]) == TrimAll(a) + [Trim(x)]
    decreases |a|
  {
    if |a| == 0 {
      assert a + [x] == [x];
    } else {
      assert (a + [x])[1..] == a[1..] + [x];
      TrimAllAppend(a[1..], x);
    }
  }

  // ---- properties of the parser ----

  lemma {:induction false} HeaderLenConcat(header: seq<string>, rest: seq<string>)
    requires forall k :: 0 <= k < |header| ==> !Contains(header[k], "-->")
    ensures HeaderLen(header + rest) == |header| + HeaderLen(rest)
    decreases |header|
  {
    if |header| == 0 {
      assert header + rest == rest;
    } else {
      assert (header + rest)[0] == header[0];
      assert (header + rest)[1..] == header[1..] + rest;
      HeaderLenConcat(header[1..], rest);
    }
  }

  /** Every line before the first `-->` line is ignored, whatever it holds. */
  lemma {:induction false} HeaderIgnored(header: seq<string>, rest: seq<string>)
    requires forall k :: 0 <= k < |header| ==> !Contains(header[k], "-->")
    ensures ParseLines(header + rest) == ParseLines(rest)
  {
    HeaderLenConcat(header, rest);
    assert (header + rest)[|header| + HeaderLen(rest)..] == rest[HeaderLen(rest)..];
  }

  // ---- the documented reply format, and the round trip ----

  /** A cue as the reply format lays it out: times in milliseconds and text lines. */
  datatype Cue = Cue(start: nat, end: nat, textLines: seq<string>)

  /** A text line the parser reads back as it is: nothing to trim, no line
      break and no `-->`. */
  predicate GoodTextLine(l: string) {
    l != [] && !IsSpace(l[0]) && !IsSpace(l[|l| - 1]) && '\n' !in l && !Contains(l, "-->")
  }

  predicate GoodCue(c: Cue) {
    |c.textLines| > 0 && forall k :: 0 <= k < |c.textLines| ==> GoodTextLine(c.textLines[k])
  }

  function TimestampLine(start: nat, end: nat): string {
    NatToDecimal(start) + " --> " + NatToDecimal(end)
  }

  /** A blank line, the timestamp line, then the text lines. */
  function CueBlock(c: Cue): seq<string> {
    ["", TimestampLine(c.start, c.end)] + c.textLines
  }

  function CueLines(cues: seq<Cue>): seq<string>
    decreases |cues|
  {
    if |cues| == 0 then [] else CueBlock(cues[0]) + CueLines(cues[1..])
  }

  /** The reply text for a list of cues: the `WEBVTT` header, then each cue. */
  function Document(cues: seq<Cue>): string {
    Join(["WEBVTT"] + CueLines(cues), '\n')
  }

  /** The fragments the cues stand for. */
  function CueFragments(cues: seq<Cue>): (r: seq<Fragment>)
    ensures |r| == |cues|
  {
    seq(|cues|, i requires 0 <= i < |cues| => Fragment(cues[i].start, cues[i].end, Join(cues[i].textLines, '\n'), None))
  }

  lemma {:induction false} DigitPrefixLenConcat(a: string, b: string)
    requires AllDigits(a)
    requires |b| > 0 && !IsDigit(b[0])
    ensures DigitPrefixLen(a + b) == |a|
    decreases |a|
  {
    if |a| == 0 {
      assert a + b == b;
    } else {
      assert (a + b)[1..] == a[1..] + b;
      DigitPrefixLenConcat(a[1..], b);
    }
  }

  /** Two digit runs around ` --> ` match, with their values. */
  lemma {:induction false} TimestampMatches(d1: string, d2: string)
    requires |d1| > 0 && AllDigits(d1) && |d2| > 0 && AllDigits(d2)
    ensures MatchTimestamp(d1 + " --> " + d2) == Some((DecimalValue(d1), DecimalValue(d2)))
  {
    var rest := " --> " + d2;
    var line := d1 + " --> " + d2;
    assert line == d1 + rest;
    DigitPrefixLenConcat(d1, rest);
    assert line[..|d1|] == d1;
    assert line[|d1|..] == rest;
    ArrowSeparator(d2);
    assert line[|d1| + 1..] == rest[1..];
    assert line[|d1| + 4..] == rest[4..];
    assert line[|d1| + 5..] == rest[5..];
  }

  /** The separator ` --> `: one space, the arrow, one space. */
  lemma {:induction false} ArrowSeparator(d2: string)
    requires |d2| > 0 && AllDigits(d2)
    ensures var rest := " --> " + d2;
      SpacePrefixLen(rest) == 1 && IsPrefix("-->", rest[1..]) && SpacePrefixLen(rest[4..]) == 1 && rest[5..] == d2
  {
    var rest := " --> " + d2;
    assert rest[1..] == "--> " + d2;
    assert rest[4..] == " " + d2;
    assert rest[5..] == d2;
    assert (" " + d2)[1..] == d2;
  }

  /** A timestamp line of the documented form matches, with its two numbers. */
  lemma {:induction false} TimestampLineMatches(start: nat, end: nat)
    ensures MatchTimestamp(Trim(TimestampLine(start, end))) == Some((start, end))
  {
    var d1, d2 := NatToDecimal(start), NatToDecimal(end);
    var line := TimestampLine(start, end);
    assert line[0] == d1[0];
    assert line[|line| - 1] == d2[|d2| - 1];
    TrimUnchanged(line);
    DecimalRoundTrip(start);
    DecimalRoundTrip(end);
    TimestampMatches(d1, d2);
  }

  lemma {:induction false} TimestampLineShape(start: nat, end: nat)
    ensures Contains(TimestampLine(start, end), "-->")
    ensures '\n' !in TimestampLine(start, end)
  {
    var d1, d2 := NatToDecimal(start), NatToDecimal(end);
    var line := TimestampLine(start, end);
    assert line[|d1| + 1..|d1| + 4] == "-->";
    ContainsAt(line, "-->", |d1| + 1);
    forall i | 0 <= i < |line| ensures line[i] != '\n' {
      if i < |d1| {
        assert line[i] == d1[i];
      } else if i >= |d1| + 5 {
        assert line[i] == d2[i - |d1| - 5];
      }
    }
  }

  lemma {:induction false} EmptyLineIsNoTimestamp()
    ensures MatchTimestamp(Trim("")) == None
    ensures !Contains("", "-->")
    ensures EndsCue("")
  {
    NotContainsWithoutFirst("", "-->");
  }

  /** Good text lines are all text lines, up to a line that ends the cue. */
  lemma {:induction false} TextLenGood(a: seq<string>, b: seq<string>)
    requires forall k :: 0 <= k < |a| ==> GoodTextLine(a[k])
    requires |b| == 0 || EndsCue(b[0])
    ensures TextLen(a + b) == |a|
    decreases |a|
  {
    if |a| == 0 {
      assert a + b == b;
    } else {
      assert (a + b)[0] == a[0];
      assert (a + b)[1..] == a[1..] + b;
      TextLenGood(a[1..], b);
    }
  }

  /** Good text lines are read back as they are. */
  lemma {:induction false} TrimAllGood(a: seq<string>)
    requires forall k :: 0 <= k < |a| ==> GoodTextLine(a[k])
    ensures TrimAll(a) == a
    decreases |a|
  {
    if |a| > 0 {
      TrimUnchanged(a[0]);
      TrimAllGood(a[1..]);
      assert a == [a[0]] + a[1..];
    }
  }

  /** The cue lines start with a blank line, when there are any. */
  lemma {:induction false} CueLinesStart(cues: seq<Cue>)
    ensures |CueLines(cues)| == 0 || CueLines(cues)[0] == ""
  {
  }

  /** A blank first line is skipped. */
  lemma {:induction false} BlankLineSkipped(lines: seq<string>)
    requires |lines| > 0 && lines[0] == ""
    ensures Cues(lines) == Cues(lines[1..])
  {
    EmptyLineIsNoTimestamp();
  }

  /** A timestamp line followed by good text lines, and then a blank line or
      nothing, is read as one fragment. */
  lemma {:induction false} TimestampCueRead(c: Cue, rest: seq<string>)
    requires GoodCue(c)
    requires |rest| == 0 || rest[0] == ""
    ensures CueAt([TimestampLine(c.start, c.end)] + c.textLines + rest) == (Some(Fragment(c.start, c.end, Join(c.textLines, '\n'), None)), 1 + |c.textLines|)
  {
    var ts := TimestampLine(c.start, c.end);
    var lines := [ts] + c.textLines + rest;
    assert lines[0] == ts;
    assert lines[1..] == c.textLines + rest;
    assert (c.textLines + rest)[..|c.textLines|] == c.textLines;
    TimestampLineMatches(c.start, c.end);
    EmptyLineIsNoTimestamp();
    TextLenGood(c.textLines, rest);
    TrimAllGood(c.textLines);
  }

  /** One cue block, in front of more cue lines, is read as its fragment. */
  lemma {:induction false} CueBlockRead(c: Cue, rest: seq<string>)
    requires GoodCue(c)
    requires |rest| == 0 || rest[0] == ""
    ensures Cues(CueBlock(c) + rest) == [Fragment(c.start, c.end, Join(c.textLines, '\n'), None)] + Cues(rest)
  {
    var lines := CueBlock(c) + rest;
    var tail := [TimestampLine(c.start, c.end)] + c.textLines + rest;
    var f := Fragment(c.start, c.end, Join(c.textLines, '\n'), None);
    BlockTail("", TimestampLine(c.start, c.end), c.textLines, rest);
    BlankLineSkipped(lines);
    TimestampCueRead(c, rest);
    CuesUnfold(tail);
    assert tail[1 + |c.textLines|..] == rest;
    assert OptionSeq(Some(f)) == [f];
  }

  lemma BlockTail<T>(x: T, y: T, a: seq<T>, b: seq<T>)
    ensures (([x, y] + a) + b)[1..] == ([y] + a) + b
  {
  }

  /** One unfolding of Cues: what CueAt reads, then the rest. */
  lemma {:induction false} CuesUnfold(lines: seq<string>)
    requires |lines| > 0
    ensures Cues(lines) == OptionSeq(CueAt(lines).0) + Cues(lines[CueAt(lines).1..])
  {
    var st := CueAt(lines);
    if st.0.Some? {
      assert OptionSeq(st.0) == [st.0.value];
    } else {
      assert OptionSeq(st.0) + Cues(lines[st.1..]) == Cues(lines[st.1..]);
    }
  }

  /** The cue lines read back as the cues' fragments. */
  lemma {:induction false} CueLinesRoundTrip(cues: seq<Cue>)
    requires forall k :: 0 <= k < |cues| ==> GoodCue(cues[k])
    ensures Cues(CueLines(cues)) == CueFragments(cues)
    decreases |cues|
  {
    if |cues| > 0 {
      CueLinesStart(cues[1..]);
      assert GoodCue(cues[0]);
      CueBlockRead(cues[0], CueLines(cues[1..]));
      CueLinesRoundTrip(cues[1..]);
      assert CueFragments(cues) == [CueFragments(cues)[0]] + CueFragments(cues[1..]);
    }
  }

  lemma {:induction false} CueLinesNoNewline(cues: seq<Cue>)
    requires forall k :: 0 <= k < |cues| ==> GoodCue(cues[k])
    ensures forall k :: 0 <= k < |CueLines(cues)| ==> '\n' !in CueLines(cues)[k]
    decreases |cues|
  {
    if |cues| > 0 {
      CueLinesNoNewline(cues[1..]);
      TimestampLineShape(cues[0].start, cues[0].end);
      var block := CueBlock(cues[0]);
      assert GoodCue(cues[0]);
      forall k | 0 <= k < |block| ensures '\n' !in block[k] {
        if k >= 2 {
          assert block[k] == cues[0].textLines[k - 2];
        }
      }
      var all := CueLines(cues);
      forall k | 0 <= k < |all| ensures '\n' !in all[k] {
        if k < |block| {
          assert all[k] == block[k];
        } else {
          assert all[k] == CueLines(cues[1..])[k - |block|];
        }
      }
    }
  }

  /** The last non-empty piece's last character ends the join. */
  lemma {:induction false} JoinLast(pieces: seq<string>, d: char)
    requires |pieces| > 0 && pieces[|pieces| - 1] != []
    ensures |Join(pieces, d)| > 0
    ensures Join(pieces, d)[|Join(pieces, d)| - 1] == pieces[|pieces| - 1][|pieces[|pieces| - 1]| - 1]
    decreases |pieces|
  {
    if |pieces| > 1 {
      JoinLast(pieces[1..], d);
    }
  }

  lemma {:induction false} JoinFirst(pieces: seq<string>, d: char)
    requires |pieces| > 0 && pieces[0] != []
    ensures |Join(pieces, d)| > 0 && Join(pieces, d)[0] == pieces[0][0]
  {
  }

  /** The cue lines end with a good text line, when there are any. */
  lemma {:induction false} CueLinesLast(cues: seq<Cue>)
    requires |cues| > 0
    requires forall k :: 0 <= k < |cues| ==> GoodCue(cues[k])
    ensures |CueLines(cues)| > 0 && GoodTextLine(CueLines(cues)[|CueLines(cues)| - 1])
    decreases |cues|
  {
    assert GoodCue(cues[0]);
    if |cues| > 1 {
      CueLinesLast(cues[1..]);
    } else {
      assert CueLines(cues) == CueBlock(cues[0]);
    }
  }

  /** The reply text splits back into its lines. */
  lemma {:induction false} DocumentLines(cues: seq<Cue>)
    requires forall k :: 0 <= k < |cues| ==> GoodCue(cues[k])
    ensures Lines(Document(cues)) == ["WEBVTT"] + CueLines(cues)
  {
    var body := CueLines(cues);
    var lines := ["WEBVTT"] + body;
    var doc := Join(lines, '\n');
    JoinFirst(lines, '\n');
    if |cues| > 0 {
      CueLinesLast(cues);
      assert lines[|lines| - 1] == body[|body| - 1];
    }
    JoinLast(lines, '\n');
    TrimUnchanged(doc);
    CueLinesNoNewline(cues);
    forall k | 0 <= k < |lines| ensures '\n' !in lines[k] {
      if k > 0 {
        assert lines[k] == body[k - 1];
      }
    }
    SplitJoin(lines, '\n');
  }

  /** The header of the reply is the `WEBVTT` line and the blank line after it. */
  lemma {:induction false} DocumentHeader(cues: seq<Cue>)
    requires |cues| > 0
    ensures var lines := ["WEBVTT"] + CueLines(cues);
      HeaderLen(lines) == 2 && lines[2..] == CueLines(cues)[1..]
  {
    var body := CueLines(cues);
    var lines := ["WEBVTT"] + body;
    NotContainsWithoutFirst("WEBVTT", "-->");
    CueLinesStart(cues);
    EmptyLineIsNoTimestamp();
    HeaderLenConcat(["WEBVTT", ""], body[1..]);
    assert lines == ["WEBVTT", ""] + body[1..];
    assert body[1] == TimestampLine(cues[0].start, cues[0].end);
    TimestampLineShape(cues[0].start, cues[0].end);
    assert HeaderLen(body[1..]) == 0;
  }

  /** Parsing a reply in the documented format gives back one fragment per
      cue, with its times and its text lines joined by line breaks. */
  lemma {:induction false} ParseRoundTrip(cues: seq<Cue>)
    requires forall k :: 0 <= k < |cues| ==> GoodCue(cues[k])
    ensures ParseSimplifiedVtt(Document(cues)) == CueFragments(cues)
  {
    var body := CueLines(cues);
    var lines := ["WEBVTT"] + body;
    DocumentLines(cues);
    CueLinesRoundTrip(cues);
    if |cues| == 0 {
      NotContainsWithoutFirst("WEBVTT", "-->");
      assert HeaderLen(lines) == 1;
      assert lines[1..] == [];
    } else {
      DocumentHeader(cues);
      CueLinesStart(cues);
      BlankLineSkipped(body);
    }
  }

  // ---- aiSegmentBlock ----

  const EmptyResultError := "AI segmentation returned empty result"

  /** `aiSegmentBlock`, with the reply of the `aiSegmentSubtitles` request (its
      VTT text, or the error it throws) passed in. Input without any text to
      segment comes back unchanged and no request is made; an empty parse is
      an error, never an empty result. */
  function AiSegmentBlock(fragments: seq<Fragment>, reply: Result<string, string>): (r: Result<seq<Fragment>, string>)
    ensures fragments == [] || CleanFragmentsForAi(fragments) == [] ==> r == Success(fragments)
    ensures r.Success? && r.value == [] ==> fragments == []
    ensures fragments != [] && CleanFragmentsForAi(fragments) != [] ==>
      (reply.Failure? ==> r == Failure(reply.error))
      && (reply.Success? ==> (ParseSimplifiedVtt(reply.value) == [] <==> r == Failure(EmptyResultError)))
      && (reply.Success? && ParseSimplifiedVtt(reply.value) != [] ==> r == Success(ParseSimplifiedVtt(reply.value)))
      && (r.Success? ==> forall n :: 0 <= n < |r.value| ==> r.value[n].text != [] && r.value[n].translation == None)
  {
    if |fragments| == 0 then Success(fragments)
    else if |CleanFragmentsForAi(fragments)| == 0 then Success(fragments)
    else if reply.Failure? then Failure(reply.error)
    else
      var segmented := ParseSimplifiedVtt(reply.value);
      if |segmented| == 0 then Failure(EmptyResultError) else Success(segmented)
  }
}
