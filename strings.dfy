/** String helpers with ECMAScript semantics: the white-space class of `\s`
    and `String.prototype.trim`, `includes`, `split`/`join` on one separator
    character, and decimal digit strings as read by `Number.parseInt(_, 10)`. */
module Strings {

  /** ECMAScript WhiteSpace and LineTerminator code points: the class `\s`
      matches and the set `trim` removes. */
  predicate IsSpace(c: char) {
    c == '\t' || c == '\n' || c == '\U{000B}' || c == '\U{000C}' || c == '\r' || c == ' '
    || c == '\U{00A0}' || c == '\U{1680}' || ('\U{2000}' <= c <= '\U{200A}')
    || c == '\U{2028}' || c == '\U{2029}' || c == '\U{202F}' || c == '\U{205F}'
    || c == '\U{3000}' || c == '\U{FEFF}'
  }

  /** The code points a regular-expression `.` does not match. */
  predicate IsLineTerminator(c: char) {
    c == '\n' || c == '\r' || c == '\U{2028}' || c == '\U{2029}'
  }

  lemma LineTerminatorIsSpace(c: char)
    requires IsLineTerminator(c)
    ensures IsSpace(c)
  {
  }

  predicate AllSpace(s: string) {
    forall i :: 0 <= i < |s| ==> IsSpace(s[i])
  }

  predicate NoLineTerminator(s: string) {
    forall i :: 0 <= i < |s| ==> !IsLineTerminator(s[i])
  }

  function TrimStart(s: string): (r: string)
    ensures |r| <= |s|
    ensures r == [] || !IsSpace(r[0])
    decreases |s|
  {
    if |s| > 0 && IsSpace(s[0]) then TrimStart(s[1..]) else s
  }

  /** TrimStart removes a white-space prefix and keeps the rest. */
  lemma {:induction false} TrimStartSlice(s: string)
    ensures TrimStart(s) == s[|s| - |TrimStart(s)|..]
    ensures AllSpace(s[..|s| - |TrimStart(s)|])
    decreases |s|
  {
    if |s| > 0 && IsSpace(s[0]) {
      TrimStartSlice(s[1..]);
      var r := TrimStart(s[1..]);
      assert s[1..][..|s| - 1 - |r|] == s[1..|s| - |r|];
    }
  }

  function TrimEnd(s: string): (r: string)
    ensures |r| <= |s|
    ensures r == [] || !IsSpace(r[|r| - 1])
    decreases |s|
  {
    if |s| > 0 && IsSpace(s[|s| - 1]) then TrimEnd(s[..|s| - 1]) else s
  }

  /** TrimEnd removes a white-space suffix and keeps the rest. */
  lemma {:induction false} TrimEndSlice(s: string)
    ensures TrimEnd(s) == s[..|TrimEnd(s)|]
    ensures AllSpace(s[|TrimEnd(s)|..])
    decreases |s|
  {
    if |s| > 0 && IsSpace(s[|s| - 1]) {
      TrimEndSlice(s[..|s| - 1]);
      var r := TrimEnd(s[..|s| - 1]);
      assert s[..|s| - 1][|r|..] == s[|r|..|s| - 1];
    }
  }

  /** `String.prototype.trim`. */
  function Trim(s: string): (r: string)
    ensures |r| <= |s|
    ensures r == [] || (!IsSpace(r[0]) && !IsSpace(r[|r| - 1]))
  {
    var t := TrimStart(s);
    TrimEndSlice(t);
    TrimEnd(t)
  }

  /** Trim removes a white-space prefix and suffix and keeps what lies between. */
  lemma {:induction false} TrimSlice(s: string)
    ensures var r := Trim(s); exists a :: 0 <= a <= |s| - |r| && r == s[a..a + |r|] && AllSpace(s[..a]) && AllSpace(s[a + |r|..])
  {
    var t := TrimStart(s);
    TrimStartSlice(s);
    TrimEndSlice(t);
    var r := TrimEnd(t);
    var a := |s| - |t|;
    assert r == s[a..a + |r|];
    assert s[a + |r|..] == t[|r|..];
  }

  /** Only white space trims to nothing. */
  lemma {:induction false} TrimEmpty(s: string)
    ensures Trim(s) == [] <==> AllSpace(s)
  {
    var t := TrimStart(s);
    TrimStartSlice(s);
    TrimEndSlice(t);
    if Trim(s) == [] {
      assert s == s[..|s| - |t|] + t;
    }
    if AllSpace(s) {
      AllSpaceTrimStart(s);
    }
  }

  lemma {:induction false} AllSpaceTrimStart(s: string)
    requires AllSpace(s)
    ensures TrimStart(s) == []
    decreases |s|
  {
    if |s| > 0 {
      assert AllSpace(s[1..]) by {
        forall i | 0 <= i < |s| - 1 ensures IsSpace(s[1..][i]) {
          assert s[1..][i] == s[i + 1];
        }
      }
      AllSpaceTrimStart(s[1..]);
    }
  }

  /** A fixpoint of Trim: nothing to remove at either end. */
  lemma {:induction false} TrimUnchanged(s: string)
    requires s == [] || (!IsSpace(s[0]) && !IsSpace(s[|s| - 1]))
    ensures Trim(s) == s
  {
  }

  /** The code units of a trimmed string are those of the input, minus a
      white-space prefix and suffix: trimming is idempotent. */
  lemma {:induction false} TrimIdempotent(s: string)
    ensures Trim(Trim(s)) == Trim(s)
  {
    TrimUnchanged(Trim(s));
  }

  predicate IsPrefix(p: string, s: string) {
    |p| <= |s| && s[..|p|] == p
  }

  /** `String.prototype.includes`. */
  predicate Contains(s: string, sub: string)
    decreases |s|
  {
    IsPrefix(sub, s) || (|s| > 0 && Contains(s[1..], sub))
  }

  lemma {:induction false} ContainsAt(s: string, sub: string, i: nat)
    requires i + |sub| <= |s| && s[i..i + |sub|] == sub
    ensures Contains(s, sub)
    decreases i
  {
    if i > 0 {
      assert s[1..][i - 1..i - 1 + |sub|] == s[i..i + |sub|];
      ContainsAt(s[1..], sub, i - 1);
    }
  }

  /** Text appended after a contained substring keeps it contained. */
  lemma {:induction false} ContainsAppend(a: string, b: string, sub: string)
    requires Contains(a, sub)
    ensures Contains(a + b, sub)
    decreases |a|
  {
    if IsPrefix(sub, a) {
      assert (a + b)[..|sub|] == a[..|sub|];
    } else {
      assert (a + b)[1..] == a[1..] + b;
      ContainsAppend(a[1..], b, sub);
    }
  }

  /** A string without the first character of `sub` does not contain it. */
  lemma {:induction false} NotContainsWithoutFirst(s: string, sub: string)
    requires |sub| > 0
    requires forall i :: 0 <= i < |s| ==> s[i] != sub[0]
    ensures !Contains(s, sub)
    decreases |s|
  {
    if |s| > 0 {
      assert !IsPrefix(sub, s) by {
        if |sub| <= |s| {
          assert s[..|sub|][0] == s[0];
        }
      }
      NotContainsWithoutFirst(s[1..], sub);
    }
  }

  /** `s.split(d)` for a one-character separator: the pieces between
      occurrences of `d`, always at least one. */
  function Split(s: string, d: char): (r: seq<string>)
    ensures |r| >= 1
    ensures forall k :: 0 <= k < |r| ==> d !in r[k]
    decreases |s|
  {
    if |s| == 0 then [""]
    else if s[0] == d then [""] + Split(s[1..], d)
    else
      var rest := Split(s[1..], d);
      [[s[0]] + rest[0]] + rest[1..]
  }

  /** `pieces.join(d)`. */
  function Join(pieces: seq<string>, d: char): string
    decreases |pieces|
  {
    if |pieces| == 0 then ""
    else if |pieces| == 1 then pieces[0]
    else pieces[0] + [d] + Join(pieces[1..], d)
  }

  lemma {:induction false} SplitNoSeparator(x: string, d: char)
    requires d !in x
    ensures Split(x, d) == [x]
    decreases |x|
  {
    if |x| > 0 {
      SplitNoSeparator(x[1..], d);
      assert [x[0]] + x[1..] == x;
    }
  }

  lemma {:induction false} SplitAfterPiece(x: string, s: string, d: char)
    requires d !in x
    ensures Split(x + [d] + s, d) == [x] + Split(s, d)
    decreases |x|
  {
    if |x| == 0 {
      assert x + [d] + s == [d] + s;
      assert ([d] + s)[1..] == s;
    } else {
      var t := x + [d] + s;
      assert t[0] == x[0];
      assert t[1..] == x[1..] + [d] + s;
      SplitAfterPiece(x[1..], s, d);
      assert [x[0]] + x[1..] == x;
    }
  }

  /** Splitting a join gives the pieces back when no piece holds the separator. */
  lemma {:induction false} SplitJoin(pieces: seq<string>, d: char)
    requires |pieces| >= 1
    requires forall k :: 0 <= k < |pieces| ==> d !in pieces[k]
    ensures Split(Join(pieces, d), d) == pieces
    decreases |pieces|
  {
    if |pieces| == 1 {
      SplitNoSeparator(pieces[0], d);
    } else {
      SplitJoin(pieces[1..], d);
      SplitAfterPiece(pieces[0], Join(pieces[1..], d), d);
      assert [pieces[0]] + pieces[1..] == pieces;
    }
  }

  lemma {:induction false} JoinAppend(pieces: seq<string>, last: string, d: char)
    requires |pieces| >= 1
    ensures Join(pieces + [last], d) == Join(pieces, d) + [d] + last
    decreases |pieces|
  {
    if |pieces| == 1 {
      assert (pieces + [last])[1..] == [last];
    } else {
      assert (pieces + [last])[1..] == pieces[1..] + [last];
      JoinAppend(pieces[1..], last, d);
    }
  }

  lemma {:induction false} JoinConcat(a: seq<string>, b: seq<string>, d: char)
    requires |a| >= 1 && |b| >= 1
    ensures Join(a + b, d) == Join(a, d) + [d] + Join(b, d)
    decreases |a|
  {
    if |a| == 1 {
      assert (a + b)[1..] == b;
      assert (a + b)[0] == a[0];
    } else {
      assert (a + b)[1..] == a[1..] + b;
      JoinConcat(a[1..], b, d);
    }
  }

  // ---- decimal digit strings ----

  predicate IsDigit(c: char) {
    '0' <= c <= '9'
  }

  predicate AllDigits(s: string) {
    forall i :: 0 <= i < |s| ==> IsDigit(s[i])
  }

  function DigitValue(c: char): nat
    requires IsDigit(c)
  {
    (c as int) - ('0' as int)
  }

  /** The value `Number.parseInt(s, 10)` gives to a string of decimal digits. */
  function DecimalValue(s: string): nat
    requires AllDigits(s)
    decreases |s|
  {
    if |s| == 0 then 0 else DecimalValue(s[..|s| - 1]) * 10 + DigitValue(s[|s| - 1])
  }

  function DigitChar(d: nat): (c: char)
    requires d < 10
    ensures IsDigit(c) && DigitValue(c) == d
  {
    (('0' as int) + d) as char
  }

  /** The decimal notation of n, with no leading zeros (template-literal `${n}`). */
  function NatToDecimal(n: nat): (s: string)
    ensures |s| >= 1 && AllDigits(s)
    decreases n
  {
    if n < 10 then [DigitChar(n)] else NatToDecimal(n / 10) + [DigitChar(n % 10)]
  }

  lemma {:induction false} DecimalRoundTrip(n: nat)
    ensures DecimalValue(NatToDecimal(n)) == n
    decreases n
  {
    var s := NatToDecimal(n);
    if n >= 10 {
      DecimalRoundTrip(n / 10);
      assert s[..|s| - 1] == NatToDecimal(n / 10);
    }
  }
}
