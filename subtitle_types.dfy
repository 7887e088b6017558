/** The shared subtitle types: fragments keyed by their start time in
    milliseconds, the display states, localised messages, and the list
    operations the components use on fragment lists (the first fragment
    covering a time, a stable sort by start time, the set of start times). */
module SubtitleTypes {
  import opened Wrappers

  /** One timed caption cue; `translation` is the optional field `translation?`. */
  datatype Fragment = Fragment(start: int, end: int, text: string, translation: Option<string>)

  /** A user-visible message: an i18n key (the lookup is not modelled), an
      i18n key with a status-code argument, or literal text. */
  datatype Message = Localized(key: string) | LocalizedStatus(key: string, status: int) | Literal(text: string)

  datatype DisplayState = Idle | Fetching | FetchSuccess | Processing | Segmenting | Error

  datatype StateData = StateData(state: DisplayState, message: Option<Message>)

  /** JavaScript truthiness of an optional string: present and non-empty. */
  predicate Truthy(s: Option<string>) {
    s.Some? && s.value != ""
  }

  predicate Covers(f: Fragment, t: int) {
    f.start <= t < f.end
  }

  /** `list.findIndex(f => f.start <= t && f.end > t)`: the index of the first
      fragment whose half-open interval holds t, or -1. */
  function FirstCovering(list: seq<Fragment>, t: int): (r: int)
    ensures -1 <= r < |list|
    ensures r == -1 <==> forall i :: 0 <= i < |list| ==> !Covers(list[i], t)
    ensures r >= 0 ==> Covers(list[r], t) && forall i :: 0 <= i < r ==> !Covers(list[i], t)
    decreases |list|
  {
    if |list| == 0 then -1
    else if Covers(list[0], t) then 0
    else
      var k := FirstCovering(list[1..], t);
      assert forall i :: 1 <= i < |list| ==> list[i] == list[1..][i - 1];
      if k == -1 then -1 else k + 1
  }

  function Starts(list: seq<Fragment>): (r: set<int>)
    ensures forall i :: 0 <= i < |list| ==> list[i].start in r
    ensures forall s :: s in r ==> exists i :: 0 <= i < |list| && list[i].start == s
  {
    set i | 0 <= i < |list| :: list[i].start
  }

  predicate HasStart(list: seq<Fragment>, s: int) {
    exists i :: 0 <= i < |list| && list[i].start == s
  }

  predicate Sorted(list: seq<Fragment>) {
    forall i, j :: 0 <= i < j < |list| ==> list[i].start <= list[j].start
  }

  /** Inserts x after every element whose start is not greater than its own,
      as a stable sort does with the element that came last. */
  function InsertByStart(sorted: seq<Fragment>, x: Fragment): (r: seq<Fragment>)
    requires Sorted(sorted)
    ensures |r| == |sorted| + 1
    ensures Sorted(r)
    ensures multiset(r) == multiset(sorted) + multiset{x}
    decreases |sorted|
  {
    if |sorted| == 0 || sorted[|sorted| - 1].start <= x.start then
      sorted + [x]
    else
      var last := sorted[|sorted| - 1];
      var init := sorted[..|sorted| - 1];
      assert sorted == init + [last];
      var front := InsertByStart(init, x);
      forall i | 0 <= i < |front| ensures front[i].start <= last.start {
        assert front[i] in multiset(init) + multiset{x};
        if front[i] in multiset(init) {
          var k :| 0 <= k < |init| && init[k] == front[i];
          assert sorted[k] == init[k];
        }
      }
      front + [last]
  }

  /** `list.sort((a, b) => a.start - b.start)`. ECMAScript requires the sort
      to be stable, so its result is this insertion sort's. */
  function SortByStart(list: seq<Fragment>): (r: seq<Fragment>)
    ensures Sorted(r)
    ensures multiset(r) == multiset(list)
    ensures |r| == |list|
    decreases |list|
  {
    if |list| == 0 then []
    else
      assert list == list[..|list| - 1] + [list[|list| - 1]];
      InsertByStart(SortByStart(list[..|list| - 1]), list[|list| - 1])
  }

  /** Sorting keeps the set of elements, hence the set of start times. */
  lemma {:induction false} SortKeepsStarts(list: seq<Fragment>)
    ensures Starts(SortByStart(list)) == Starts(list)
  {
    var r := SortByStart(list);
    forall s | s in Starts(r) ensures s in Starts(list) {
      var i :| 0 <= i < |r| && r[i].start == s;
      assert r[i] in multiset(list);
    }
    forall s | s in Starts(list) ensures s in Starts(r) {
      var i :| 0 <= i < |list| && list[i].start == s;
      assert list[i] in multiset(r);
    }
  }

  lemma {:induction false} SortedInsertAtEnd(sorted: seq<Fragment>, x: Fragment)
    requires Sorted(sorted + [x])
    ensures Sorted(sorted) && InsertByStart(sorted, x) == sorted + [x]
  {
    assert forall i :: 0 <= i < |sorted| ==> sorted[i] == (sorted + [x])[i];
    assert |sorted| == 0 || (sorted + [x])[|sorted| - 1].start <= (sorted + [x])[|sorted|].start;
  }

  /** A list already sorted by start comes back unchanged. */
  lemma {:induction false} SortSortedIdentity(list: seq<Fragment>)
    requires Sorted(list)
    ensures SortByStart(list) == list
    decreases |list|
  {
    if |list| > 0 {
      var init := list[..|list| - 1];
      forall i, j | 0 <= i < j < |init| ensures init[i].start <= init[j].start {
        assert init[i] == list[i] && init[j] == list[j];
      }
      SortSortedIdentity(init);
      assert list == init + [list[|list| - 1]];
      SortedInsertAtEnd(init, list[|list| - 1]);
    }
  }
}
