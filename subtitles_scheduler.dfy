/** The subtitle display scheduler
    (src/entrypoints/subtitles.content/subtitles-scheduler.ts): it keeps the
    live fragment list, tracks the fragment under the video clock, publishes
    the on-screen fragment, the display state and the visibility to the
    shared stores, and reverts an error state to idle after a delay.

    The video clock is the millisecond time passed to each method; the
    stores are fields of the scheduler; the auto-hide timer is a deadline on
    the scheduler's own clock, which `AdvanceClock` moves forward. */
module SubtitlesSchedulers {
  import opened Wrappers
  import opened SubtitleTypes

  const ErrorStateAutoHideMs := 5000

  // ---- supplementSubtitles, as functions on lists ----

  /** `new Map(list.map(s => [s.start, s]))`: a later fragment with the same
      start replaces an earlier one. */
  function ExistingMap(list: seq<Fragment>): (m: map<int, Fragment>)
    ensures m.Keys == Starts(list)
    ensures forall s :: s in m ==> m[s].start == s
    decreases |list|
  {
    if |list| == 0 then map[]
    else
      var init := list[..|list| - 1];
      assert forall i :: 0 <= i < |init| ==> init[i] == list[i];
      ExistingMap(init)[list[|list| - 1].start := list[|list| - 1]]
  }

  predicate UniqueStarts(list: seq<Fragment>) {
    forall i, j :: 0 <= i < j < |list| ==> list[i].start != list[j].start
  }

  lemma {:induction false} ExistingMapUnique(list: seq<Fragment>, i: nat)
    requires UniqueStarts(list) && i < |list|
    ensures ExistingMap(list)[list[i].start] == list[i]
    decreases |list|
  {
    var init := list[..|list| - 1];
    if i < |list| - 1 {
      assert init[i] == list[i];
      ExistingMapUnique(init, i);
    }
  }

  /** `list.findIndex(s => s.start === start)`. */
  function IndexOfStart(list: seq<Fragment>, start: int): (r: int)
    ensures -1 <= r < |list|
    ensures r == -1 <==> forall i :: 0 <= i < |list| ==> list[i].start != start
    ensures r >= 0 ==> list[r].start == start && forall i :: 0 <= i < r ==> list[i].start != start
    decreases |list|
  {
    if |list| == 0 then -1
    else if list[0].start == start then 0
    else
      var k := IndexOfStart(list[1..], start);
      assert forall i :: 1 <= i < |list| ==> list[i] == list[1..][i - 1];
      if k == -1 then -1 else k + 1
  }

  /** One iteration of the merge loop over the incoming fragments. */
  function Step(list: seq<Fragment>, existing: map<int, Fragment>, newSub: Fragment): (r: seq<Fragment>)
    ensures |list| <= |r| <= |list| + 1
  {
    if newSub.start !in existing then list + [newSub]
    else if Truthy(newSub.translation) then
      var e := existing[newSub.start];
      var idx := IndexOfStart(list, e.start);
      if idx >= 0 then list[idx := e.(translation := newSub.translation)] else list
    else list
  }

  /** The body of the merge loop for one incoming fragment: a new start is
      appended, a non-empty translation for a known start replaces that
      fragment's translation, and `hit` says whether it was the current one. */
  method MergeOne(list: seq<Fragment>, existing: map<int, Fragment>, newSub: Fragment, current: Option<Fragment>)
    returns (r: seq<Fragment>, hit: bool)
    ensures r == Step(list, existing, newSub)
    ensures hit == Hits(existing, newSub, current)
  {
    r, hit := list, false;
    if newSub.start !in existing {
      r := list + [newSub];
    } else if Truthy(newSub.translation) {
      var e := existing[newSub.start];
      var idx := IndexOfStart(list, e.start);
      if idx >= 0 {
        r := list[idx := e.(translation := newSub.translation)];
      }
      if current.Some? && e.start == current.value.start {
        hit := true;
      }
    }
  }

  /** The merge loop over `incoming`, on the live list `list` whose fragments
      by start are `existing`: `updated` says whether any step hit the current
      subtitle. */
  method MergeAll(list: seq<Fragment>, existing: map<int, Fragment>, incoming: seq<Fragment>, current: Option<Fragment>)
    returns (r: seq<Fragment>, updated: bool)
    ensures r == Merged(list, existing, incoming)
    ensures updated == TouchesCurrent(existing, incoming, current)
  {
    r, updated := list, false;
    var k := 0;
    while k < |incoming|
      invariant 0 <= k <= |incoming|
      invariant r == Merged(list, existing, incoming[..k])
      invariant updated == TouchesCurrent(existing, incoming[..k], current)
    {
      MergedNext(list, existing, incoming, k, current);
      var hit;
      r, hit := MergeOne(r, existing, incoming[k], current);
      updated := updated || hit;
      k := k + 1;
    }
    assert incoming[..k] == incoming;
  }

  /** The live list after the merge loop has handled `incoming`, before the sort. */
  function Merged(list: seq<Fragment>, existing: map<int, Fragment>, incoming: seq<Fragment>): (r: seq<Fragment>)
    ensures |list| <= |r| <= |list| + |incoming|
    decreases |incoming|
  {
    if |incoming| == 0 then list
    else Step(Merged(list, existing, incoming[..|incoming| - 1]), existing, incoming[|incoming| - 1])
  }

  /** Whether the merge loop replaced the translation of the fragment that
      was on screen. */
  predicate TouchesCurrent(existing: map<int, Fragment>, incoming: seq<Fragment>, current: Option<Fragment>)
    decreases |incoming|
  {
    |incoming| > 0 &&
      (TouchesCurrent(existing, incoming[..|incoming| - 1], current)
       || Hits(existing, incoming[|incoming| - 1], current))
  }

  predicate Hits(existing: map<int, Fragment>, newSub: Fragment, current: Option<Fragment>) {
    newSub.start in existing && Truthy(newSub.translation)
    && current.Some? && existing[newSub.start].start == current.value.start
  }

  /** The incoming fragments whose start the live list did not have, in order. */
  function NewOnes(incoming: seq<Fragment>, starts: set<int>): (r: seq<Fragment>)
    ensures forall i :: 0 <= i < |r| ==> r[i].start !in starts && r[i] in incoming
    ensures forall i :: 0 <= i < |incoming| && incoming[i].start !in starts ==> incoming[i] in r
    decreases |incoming|
  {
    if |incoming| == 0 then []
    else
      var init := incoming[..|incoming| - 1];
      var last := incoming[|incoming| - 1];
      assert incoming == init + [last];
      NewOnes(init, starts) + (if last.start !in starts then [last] else [])
  }

  /** The translation a kept fragment ends with: the last non-empty
      incoming translation for its start, else its own. */
  function LatestTranslation(incoming: seq<Fragment>, f: Fragment): (r: Option<string>)
    ensures r == f.translation || Truthy(r)
    decreases |incoming|
  {
    if |incoming| == 0 then f.translation
    else
      var last := incoming[|incoming| - 1];
      if last.start == f.start && Truthy(last.translation) then last.translation
      else LatestTranslation(incoming[..|incoming| - 1], f)
  }

  /** A kept fragment's translation changes only to the non-empty translation
      of the last incoming fragment with its start that has one. */
  lemma {:induction false} LatestTranslationSource(incoming: seq<Fragment>, f: Fragment)
    ensures (forall i :: 0 <= i < |incoming| && incoming[i].start == f.start ==> !Truthy(incoming[i].translation))
      ==> LatestTranslation(incoming, f) == f.translation
    ensures (exists i :: 0 <= i < |incoming| && incoming[i].start == f.start && Truthy(incoming[i].translation)) ==>
      exists i :: 0 <= i < |incoming| && incoming[i].start == f.start && Truthy(incoming[i].translation)
        && LatestTranslation(incoming, f) == incoming[i].translation
        && (forall j :: i < j < |incoming| && incoming[j].start == f.start ==> !Truthy(incoming[j].translation))
    decreases |incoming|
  {
    if |incoming| > 0 {
      var init := incoming[..|incoming| - 1];
      var n := |incoming| - 1;
      assert forall i :: 0 <= i < |init| ==> init[i] == incoming[i];
      LatestTranslationSource(init, f);
      if !(incoming[n].start == f.start && Truthy(incoming[n].translation)) {
        if exists i :: 0 <= i < |incoming| && incoming[i].start == f.start && Truthy(incoming[i].translation) {
          var i :| 0 <= i < |incoming| && incoming[i].start == f.start && Truthy(incoming[i].translation);
          assert i < n;
        }
      }
    }
  }

  /** The merge in closed form, for a live list without repeated starts:
      every fragment stays where it was with its start, end and text, and
      takes the latest non-empty incoming translation for its start; the
      incoming fragments with new starts follow in their order. */
  predicate MergeShape(list: seq<Fragment>, incoming: seq<Fragment>, r: seq<Fragment>) {
    |r| == |list| + |NewOnes(incoming, Starts(list))|
    && r[|list|..] == NewOnes(incoming, Starts(list))
    && forall i :: 0 <= i < |list| ==> r[i] == list[i].(translation := LatestTranslation(incoming, list[i]))
  }

  lemma {:induction false} MergedShape(list: seq<Fragment>, incoming: seq<Fragment>)
    requires UniqueStarts(list)
    ensures MergeShape(list, incoming, Merged(list, ExistingMap(list), incoming))
    decreases |incoming|
  {
    if |incoming| > 0 {
      var init := incoming[..|incoming| - 1];
      MergedShape(list, init);
      MergeShapeStep(list, incoming, Merged(list, ExistingMap(list), init));
    }
  }

  /** One more incoming fragment keeps the closed form. */
  lemma {:induction false} MergeShapeStep(list: seq<Fragment>, incoming: seq<Fragment>, r0: seq<Fragment>)
    requires |incoming| > 0
    requires UniqueStarts(list) && MergeShape(list, incoming[..|incoming| - 1], r0)
    ensures MergeShape(list, incoming, Step(r0, ExistingMap(list), incoming[|incoming| - 1]))
  {
    var x := incoming[|incoming| - 1];
    if x.start !in ExistingMap(list) {
      MergeShapeNew(list, incoming, r0);
    } else if Truthy(x.translation) {
      var j :| 0 <= j < |list| && list[j].start == x.start;
      MergeShapeHit(list, incoming, r0, j);
    } else {
      MergeShapeSkip(list, incoming, r0);
    }
  }

  /** The last incoming fragment has a new start: it is appended. */
  lemma {:induction false} MergeShapeNew(list: seq<Fragment>, incoming: seq<Fragment>, r0: seq<Fragment>)
    requires |incoming| > 0
    requires UniqueStarts(list) && MergeShape(list, incoming[..|incoming| - 1], r0)
    requires incoming[|incoming| - 1].start !in Starts(list)
    ensures MergeShape(list, incoming, r0 + [incoming[|incoming| - 1]])
  {
    var init := incoming[..|incoming| - 1];
    var x := incoming[|incoming| - 1];
    assert NewOnes(incoming, Starts(list)) == NewOnes(init, Starts(list)) + [x];
    assert (r0 + [x])[|list|..] == r0[|list|..] + [x];
    forall i | 0 <= i < |list|
      ensures LatestTranslation(incoming, list[i]) == LatestTranslation(init, list[i])
    {
      assert list[i].start in Starts(list);
    }
  }

  /** The last incoming fragment brings a translation for a known start:
      only that fragment changes. */
  lemma {:induction false} MergeShapeHit(list: seq<Fragment>, incoming: seq<Fragment>, r0: seq<Fragment>, j: nat)
    requires |incoming| > 0
    requires UniqueStarts(list) && MergeShape(list, incoming[..|incoming| - 1], r0)
    requires j < |list| && list[j].start == incoming[|incoming| - 1].start && Truthy(incoming[|incoming| - 1].translation)
    ensures MergeShape(list, incoming, Step(r0, ExistingMap(list), incoming[|incoming| - 1]))
  {
    var init := incoming[..|incoming| - 1];
    var x := incoming[|incoming| - 1];
    var e := ExistingMap(list);
    ExistingMapUnique(list, j);
    assert x.start in e;
    var idx := IndexOfStart(r0, x.start);
    assert r0[j].start == x.start;
    assert idx == j;
    var r := r0[j := list[j].(translation := x.translation)];
    assert Step(r0, e, x) == r;
    assert NewOnes(incoming, Starts(list)) == NewOnes(init, Starts(list));
    assert r[|list|..] == r0[|list|..];
    forall i | 0 <= i < |list| ensures r[i] == list[i].(translation := LatestTranslation(incoming, list[i])) {
      if i != j {
        assert list[i].start != x.start;
      }
    }
  }

  /** The last incoming fragment has a known start and no translation:
      nothing changes. */
  lemma {:induction false} MergeShapeSkip(list: seq<Fragment>, incoming: seq<Fragment>, r0: seq<Fragment>)
    requires |incoming| > 0
    requires UniqueStarts(list) && MergeShape(list, incoming[..|incoming| - 1], r0)
    requires incoming[|incoming| - 1].start in Starts(list) && !Truthy(incoming[|incoming| - 1].translation)
    ensures MergeShape(list, incoming, r0)
  {
    var init := incoming[..|incoming| - 1];
    assert NewOnes(incoming, Starts(list)) == NewOnes(init, Starts(list));
    forall i | 0 <= i < |list|
      ensures LatestTranslation(incoming, list[i]) == LatestTranslation(init, list[i])
    {
    }
  }

  lemma MergedNext(list: seq<Fragment>, existing: map<int, Fragment>, incoming: seq<Fragment>, k: nat, current: Option<Fragment>)
    requires k < |incoming|
    ensures Merged(list, existing, incoming[..k + 1]) == Step(Merged(list, existing, incoming[..k]), existing, incoming[k])
    ensures TouchesCurrent(existing, incoming[..k + 1], current)
      == (TouchesCurrent(existing, incoming[..k], current) || Hits(existing, incoming[k], current))
  {
    assert incoming[..k + 1][..k] == incoming[..k];
  }

  /** The fragment an earlier one becomes: only its translation is brought up to date. */
  function Updated(f: Fragment, incoming: seq<Fragment>): Fragment {
    f.(translation := LatestTranslation(incoming, f))
  }

  /** The elements of a list after the merge, before the sort. */
  predicate MergedElements(list: seq<Fragment>, incoming: seq<Fragment>, m: seq<Fragment>) {
    (forall i :: 0 <= i < |list| ==> Updated(list[i], incoming) in m)
    && (forall x :: x in NewOnes(incoming, Starts(list)) ==> x in m)
    && (forall x :: x in m ==>
          (x in NewOnes(incoming, Starts(list)) || exists i :: 0 <= i < |list| && x == Updated(list[i], incoming)))
  }

  lemma {:induction false} MergedHasElements(list: seq<Fragment>, incoming: seq<Fragment>)
    requires UniqueStarts(list)
    ensures MergedElements(list, incoming, Merged(list, ExistingMap(list), incoming))
  {
    MergedShape(list, incoming);
    MergedHasNewOnes(list, incoming);
    MergedHasOnlyThese(list, incoming);
  }

  /** Every new fragment is in the merge. */
  lemma {:induction false} MergedHasNewOnes(list: seq<Fragment>, incoming: seq<Fragment>)
    requires UniqueStarts(list)
    ensures forall x :: x in NewOnes(incoming, Starts(list)) ==> x in Merged(list, ExistingMap(list), incoming)
  {
    var m := Merged(list, ExistingMap(list), incoming);
    MergedShape(list, incoming);
    forall x | x in NewOnes(incoming, Starts(list)) ensures x in m {
      var k :| 0 <= k < |m[|list|..]| && m[|list|..][k] == x;
      assert m[|list| + k] == x;
    }
  }

  /** The merge holds nothing but the updated and the new fragments. */
  lemma {:induction false} MergedHasOnlyThese(list: seq<Fragment>, incoming: seq<Fragment>)
    requires UniqueStarts(list)
    ensures forall x :: x in Merged(list, ExistingMap(list), incoming) ==>
      (x in NewOnes(incoming, Starts(list)) || exists i :: 0 <= i < |list| && x == Updated(list[i], incoming))
  {
    var m := Merged(list, ExistingMap(list), incoming);
    MergedShape(list, incoming);
    forall x | x in m ensures x in NewOnes(incoming, Starts(list))
      || exists i :: 0 <= i < |list| && x == Updated(list[i], incoming)
    {
      var k :| 0 <= k < |m| && m[k] == x;
      if k >= |list| {
        assert m[k] == m[|list|..][k - |list|];
      } else {
        assert x == Updated(list[k], incoming);
      }
    }
  }

  /** Sorting keeps which elements a list has. */
  lemma {:induction false} SortSameElements(m: seq<Fragment>)
    ensures forall x :: x in SortByStart(m) <==> x in m
  {
    var r := SortByStart(m);
    forall x ensures x in r <==> x in m {
      calc {
        x in r;
        x in multiset(r);
        x in multiset(m);
        x in m;
      }
    }
  }

  /** After the sort, the live list is sorted by start and holds exactly the
      earlier fragments, each with only its translation brought up to date,
      and the incoming fragments with new starts: none is lost. */
  lemma {:induction false} SupplementedContents(list: seq<Fragment>, incoming: seq<Fragment>)
    requires UniqueStarts(list)
    ensures var r := SortByStart(Merged(list, ExistingMap(list), incoming));
      Sorted(r)
      && |r| == |list| + |NewOnes(incoming, Starts(list))|
      && MergedElements(list, incoming, r)
  {
    var m := Merged(list, ExistingMap(list), incoming);
    MergedShape(list, incoming);
    MergedHasElements(list, incoming);
    SortSameElements(m);
  }

  /** The on-screen fragment for an index, as `updateCurrentSubtitle` reads it. */
  function CurrentAt(list: seq<Fragment>, index: int): Option<Fragment>
    requires -1 <= index < |list|
  {
    if index >= 0 then Some(list[index]) else None
  }

  /** What the state store holds for a state: nothing for idle. */
  function PublishedState(data: StateData): (r: Option<StateData>)
    ensures r.None? <==> data.state == Idle
    ensures r.Some? ==> r.value == data
  {
    if data.state != Idle then Some(data) else None
  }

  class SubtitlesScheduler {
    var subtitles: seq<Fragment>
    var currentIndex: int
    var isActive: bool
    /** Whether the `timeupdate` and `seeking` listeners are attached. */
    var listening: bool
    var currentState: StateData
    /** The deadline of the pending error auto-hide timer, if one is pending. */
    var errorAutoHideDeadline: Option<int>
    /** The scheduler's timer clock, in milliseconds. */
    var now: int

    // The shared stores the scheduler writes.
    var currentTimeMs: int
    var currentSubtitle: Option<Fragment>
    /** How many times the current-subtitle store has been written. */
    var currentSubtitleWrites: nat
    var stateStore: Option<StateData>
    var visible: bool

    /** The index stays within the list, and a pending auto-hide timer
        belongs to an error state and lies in the next 5000 ms. */
    predicate Valid()
      reads this
    {
      -1 <= currentIndex < |subtitles|
      && (errorAutoHideDeadline.Some? ==>
            currentState.state == Error && now < errorAutoHideDeadline.value <= now + ErrorStateAutoHideMs)
    }

    /** The constructor attaches the listeners; the stores hold their initial values. */
    constructor ()
      ensures Valid()
      ensures subtitles == [] && currentIndex == -1 && !isActive && listening
      ensures currentState == StateData(Idle, None) && errorAutoHideDeadline.None? && now == 0
      ensures currentTimeMs == 0 && currentSubtitle.None? && currentSubtitleWrites == 0
      ensures stateStore.None? && !visible
    {
      subtitles := [];
      currentIndex := -1;
      isActive := false;
      listening := true;
      currentState := StateData(Idle, None);
      errorAutoHideDeadline := None;
      now := 0;
      currentTimeMs := 0;
      currentSubtitle := None;
      currentSubtitleWrites := 0;
      stateStore := None;
      visible := false;
    }

    method Start()
      requires Valid()
      modifies this
      ensures Valid()
      ensures isActive && visible
      ensures subtitles == old(subtitles) && currentIndex == old(currentIndex) && listening == old(listening)
      ensures currentState == old(currentState) && errorAutoHideDeadline == old(errorAutoHideDeadline) && now == old(now)
      ensures currentTimeMs == old(currentTimeMs) && currentSubtitle == old(currentSubtitle)
      ensures currentSubtitleWrites == old(currentSubtitleWrites) && stateStore == old(stateStore)
    {
      isActive := true;
      visible := isActive;
    }

    /** `stop` also detaches the listeners; nothing attaches them again. */
    method Stop()
      requires Valid()
      modifies this
      ensures Valid()
      ensures !isActive && !visible && !listening
      ensures subtitles == old(subtitles) && currentIndex == old(currentIndex)
      ensures currentState == old(currentState) && errorAutoHideDeadline == old(errorAutoHideDeadline) && now == old(now)
      ensures currentTimeMs == old(currentTimeMs) && currentSubtitle == old(currentSubtitle)
      ensures currentSubtitleWrites == old(currentSubtitleWrites) && stateStore == old(stateStore)
    {
      isActive := false;
      listening := false;
      visible := isActive;
    }

    method Show()
      requires Valid()
      modifies this
      ensures Valid()
      ensures isActive && visible
      ensures subtitles == old(subtitles) && currentIndex == old(currentIndex) && listening == old(listening)
      ensures currentState == old(currentState) && errorAutoHideDeadline == old(errorAutoHideDeadline) && now == old(now)
      ensures currentTimeMs == old(currentTimeMs) && currentSubtitle == old(currentSubtitle)
      ensures currentSubtitleWrites == old(currentSubtitleWrites) && stateStore == old(stateStore)
    {
      isActive := true;
      visible := isActive;
    }

    method Hide()
      requires Valid()
      modifies this
      ensures Valid()
      ensures !isActive && !visible
      ensures subtitles == old(subtitles) && currentIndex == old(currentIndex) && listening == old(listening)
      ensures currentState == old(currentState) && errorAutoHideDeadline == old(errorAutoHideDeadline) && now == old(now)
      ensures currentTimeMs == old(currentTimeMs) && currentSubtitle == old(currentSubtitle)
      ensures currentSubtitleWrites == old(currentSubtitleWrites) && stateStore == old(stateStore)
    {
      isActive := false;
      visible := isActive;
    }

    /** `updateCurrentSubtitle`: one write of the on-screen fragment. */
    method UpdateCurrentSubtitle()
      requires Valid()
      modifies this
      ensures Valid()
      ensures currentSubtitle == CurrentAt(subtitles, currentIndex)
      ensures currentSubtitleWrites == old(currentSubtitleWrites) + 1
      ensures subtitles == old(subtitles) && currentIndex == old(currentIndex)
      ensures isActive == old(isActive) && listening == old(listening)
      ensures currentState == old(currentState) && errorAutoHideDeadline == old(errorAutoHideDeadline) && now == old(now)
      ensures currentTimeMs == old(currentTimeMs) && stateStore == old(stateStore) && visible == old(visible)
    {
      currentSubtitle := if currentIndex >= 0 then Some(subtitles[currentIndex]) else None;
      currentSubtitleWrites := currentSubtitleWrites + 1;
    }

    /** `updateSubtitles`: publish the time, find the first fragment whose
        interval holds it, and write the store only when the index moved. */
    method UpdateSubtitles(timeMs: int)
      requires Valid()
      modifies this
      ensures Valid()
      ensures currentTimeMs == timeMs
      ensures currentIndex == FirstCovering(subtitles, timeMs)
      ensures currentIndex != old(currentIndex) ==>
        currentSubtitle == CurrentAt(subtitles, currentIndex) && currentSubtitleWrites == old(currentSubtitleWrites) + 1
      ensures currentIndex == old(currentIndex) ==>
        currentSubtitle == old(currentSubtitle) && currentSubtitleWrites == old(currentSubtitleWrites)
      ensures subtitles == old(subtitles) && isActive == old(isActive) && listening == old(listening)
      ensures currentState == old(currentState) && errorAutoHideDeadline == old(errorAutoHideDeadline) && now == old(now)
      ensures stateStore == old(stateStore) && visible == old(visible)
    {
      currentTimeMs := timeMs;
      var newIndex := FirstCovering(subtitles, timeMs);
      if newIndex != currentIndex {
        currentIndex := newIndex;
        UpdateCurrentSubtitle();
      }
    }

    /** A `timeupdate` or `seeking` event of the video at `timeMs`: it reaches
        the handler only while the listeners are attached, and the handler
        ignores it while the scheduler is inactive. */
    method OnVideoTime(timeMs: int)
      requires Valid()
      modifies this
      ensures Valid()
      ensures !(listening && isActive) ==>
        currentIndex == old(currentIndex) && currentTimeMs == old(currentTimeMs)
        && currentSubtitle == old(currentSubtitle) && currentSubtitleWrites == old(currentSubtitleWrites)
      ensures listening && isActive ==>
        currentTimeMs == timeMs && currentIndex == FirstCovering(subtitles, timeMs)
        && (currentIndex != old(currentIndex) ==>
              currentSubtitle == CurrentAt(subtitles, currentIndex) && currentSubtitleWrites == old(currentSubtitleWrites) + 1)
        && (currentIndex == old(currentIndex) ==>
              currentSubtitle == old(currentSubtitle) && currentSubtitleWrites == old(currentSubtitleWrites))
      ensures subtitles == old(subtitles) && isActive == old(isActive) && listening == old(listening)
      ensures currentState == old(currentState) && errorAutoHideDeadline == old(errorAutoHideDeadline) && now == old(now)
      ensures stateStore == old(stateStore) && visible == old(visible)
    {
      if listening && isActive {
        UpdateSubtitles(timeMs);
      }
    }

    /** `supplementSubtitles`, with the video clock at `timeMs`. */
    method SupplementSubtitles(incoming: seq<Fragment>, timeMs: int)
      requires Valid()
      modifies this
      ensures Valid()
      ensures incoming == [] ==>
        subtitles == old(subtitles) && currentIndex == old(currentIndex) && currentTimeMs == old(currentTimeMs)
        && currentSubtitle == old(currentSubtitle) && currentSubtitleWrites == old(currentSubtitleWrites)
      ensures incoming != [] ==>
        subtitles == SortByStart(Merged(old(subtitles), ExistingMap(old(subtitles)), incoming))
        && currentTimeMs == timeMs && currentIndex == FirstCovering(subtitles, timeMs)
      ensures incoming != [] ==>
        var touched := TouchesCurrent(ExistingMap(old(subtitles)), incoming, CurrentAt(old(subtitles), old(currentIndex)));
        var moved := currentIndex != old(currentIndex);
        (moved || touched ==> currentSubtitle == CurrentAt(subtitles, currentIndex))
        && (!moved && !touched ==> currentSubtitle == old(currentSubtitle))
        && currentSubtitleWrites == old(currentSubtitleWrites) + (if moved then 1 else 0) + (if touched then 1 else 0)
      ensures isActive == old(isActive) && listening == old(listening)
      ensures currentState == old(currentState) && errorAutoHideDeadline == old(errorAutoHideDeadline) && now == old(now)
      ensures stateStore == old(stateStore) && visible == old(visible)
    {
      if |incoming| == 0 {
        return;
      }
      var updated := MergeAndSort(incoming);
      UpdateSubtitles(timeMs);
      if updated {
        UpdateCurrentSubtitle();
      }
    }

    /** The merge and the sort of `supplementSubtitles`; `updated` says
        whether the fragment on screen got a new translation. */
    method MergeAndSort(incoming: seq<Fragment>) returns (updated: bool)
      requires Valid()
      modifies this
      ensures Valid()
      ensures subtitles == SortByStart(Merged(old(subtitles), ExistingMap(old(subtitles)), incoming))
      ensures updated == TouchesCurrent(ExistingMap(old(subtitles)), incoming, CurrentAt(old(subtitles), old(currentIndex)))
      ensures currentIndex == old(currentIndex) && isActive == old(isActive) && listening == old(listening)
      ensures currentState == old(currentState) && errorAutoHideDeadline == old(errorAutoHideDeadline) && now == old(now)
      ensures currentTimeMs == old(currentTimeMs) && currentSubtitle == old(currentSubtitle)
      ensures currentSubtitleWrites == old(currentSubtitleWrites)
      ensures stateStore == old(stateStore) && visible == old(visible)
    {
      var current := if currentIndex >= 0 then Some(subtitles[currentIndex]) else None;
      assert current == CurrentAt(subtitles, currentIndex);
      updated := MergeIncoming(incoming, current);
      assert |subtitles| >= |old(subtitles)|;
      subtitles := SortByStart(subtitles);
    }

    /** The merge loop of `supplementSubtitles`: a new start is appended; a
        known start with a non-empty incoming translation gets the mapped
        fragment with that translation at its first index. */
    method MergeIncoming(incoming: seq<Fragment>, current: Option<Fragment>) returns (updated: bool)
      requires Valid()
      modifies this
      ensures subtitles == Merged(old(subtitles), ExistingMap(old(subtitles)), incoming)
      ensures updated == TouchesCurrent(ExistingMap(old(subtitles)), incoming, current)
      ensures currentIndex == old(currentIndex) && isActive == old(isActive) && listening == old(listening)
      ensures currentState == old(currentState) && errorAutoHideDeadline == old(errorAutoHideDeadline) && now == old(now)
      ensures currentTimeMs == old(currentTimeMs) && currentSubtitle == old(currentSubtitle)
      ensures currentSubtitleWrites == old(currentSubtitleWrites)
      ensures stateStore == old(stateStore) && visible == old(visible)
    {
      var list;
      list, updated := MergeAll(subtitles, ExistingMap(subtitles), incoming, current);
      subtitles := list;
    }

    /** `setState`: cancel the pending auto-hide, publish the state (nothing
        for idle), and for an error start a fresh 5000 ms timer. */
    method SetState(state: DisplayState, message: Option<Message>)
      requires Valid()
      modifies this
      ensures Valid()
      ensures currentState == StateData(state, message)
      ensures stateStore == PublishedState(currentState)
      ensures errorAutoHideDeadline == (if state == Error then Some(now + ErrorStateAutoHideMs) else None)
      ensures subtitles == old(subtitles) && currentIndex == old(currentIndex)
      ensures isActive == old(isActive) && listening == old(listening) && now == old(now)
      ensures currentTimeMs == old(currentTimeMs) && currentSubtitle == old(currentSubtitle)
      ensures currentSubtitleWrites == old(currentSubtitleWrites) && visible == old(visible)
    {
      errorAutoHideDeadline := None;
      currentState := StateData(state, message);
      stateStore := PublishedState(currentState);
      if state == Error {
        errorAutoHideDeadline := Some(now + ErrorStateAutoHideMs);
      }
    }

    /** Time passes on the timer clock. A pending auto-hide whose deadline is
        reached fires once; since every `setState` cancels it, the state is
        still the error it was started for, and it goes back to idle. */
    method AdvanceClock(delta: nat)
      requires Valid()
      modifies this
      ensures Valid()
      ensures now == old(now) + delta
      ensures old(errorAutoHideDeadline).Some? && old(errorAutoHideDeadline).value <= now ==>
        currentState == StateData(Idle, None) && stateStore.None? && errorAutoHideDeadline.None?
      ensures !(old(errorAutoHideDeadline).Some? && old(errorAutoHideDeadline).value <= now) ==>
        currentState == old(currentState) && stateStore == old(stateStore)
        && errorAutoHideDeadline == old(errorAutoHideDeadline)
      ensures subtitles == old(subtitles) && currentIndex == old(currentIndex)
      ensures isActive == old(isActive) && listening == old(listening)
      ensures currentTimeMs == old(currentTimeMs) && currentSubtitle == old(currentSubtitle)
      ensures currentSubtitleWrites == old(currentSubtitleWrites) && visible == old(visible)
    {
      var due := errorAutoHideDeadline.Some? && errorAutoHideDeadline.value <= now + delta;
      if due {
        errorAutoHideDeadline := None;
        now := now + delta;
        if currentState.state == Error {
          SetState(Idle, None);
        }
      } else {
        now := now + delta;
      }
    }

    /** `reset`: idle, an empty list, no index and no on-screen fragment. */
    method Reset()
      requires Valid()
      modifies this
      ensures Valid()
      ensures currentState == StateData(Idle, None) && stateStore.None? && errorAutoHideDeadline.None?
      ensures subtitles == [] && currentIndex == -1 && currentSubtitle.None?
      ensures currentSubtitleWrites == old(currentSubtitleWrites) + 1
      ensures isActive == old(isActive) && listening == old(listening) && now == old(now)
      ensures currentTimeMs == old(currentTimeMs) && visible == old(visible)
    {
      SetState(Idle, None);
      subtitles := [];
      currentIndex := -1;
      UpdateCurrentSubtitle();
    }
  }

  /** An error shown at time 0 is still shown just before 5000 ms and gone
      at 5000 ms. */
  method ErrorAutoHides(message: Message) returns (shown: Option<StateData>, before: Option<StateData>, after: Option<StateData>)
    ensures shown == Some(StateData(Error, Some(message)))
    ensures before == shown
    ensures after == None
  {
    var scheduler := new SubtitlesScheduler();
    scheduler.SetState(Error, Some(message));
    shown := scheduler.stateStore;
    scheduler.AdvanceClock(ErrorStateAutoHideMs - 1);
    before := scheduler.stateStore;
    scheduler.AdvanceClock(1);
    after := scheduler.stateStore;
  }

  /** Another state set before the deadline cancels the auto-hide. */
  method LaterStateCancelsAutoHide(message: Message) returns (after: Option<StateData>)
    ensures after == Some(StateData(Processing, None))
  {
    var scheduler := new SubtitlesScheduler();
    scheduler.SetState(Error, Some(message));
    scheduler.AdvanceClock(1000);
    scheduler.SetState(Processing, None);
    scheduler.AdvanceClock(10000);
    after := scheduler.stateStore;
  }
}
