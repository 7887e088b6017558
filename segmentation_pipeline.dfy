/** The AI segmentation pipeline
    (src/entrypoints/subtitles.content/segmentation-pipeline.ts): it walks the
    raw fragments in windows near the playback position, claims each window
    before the AI call, and replaces the processed fragments of that window
    with the AI's segmentation, or appends the optimizer's output when the
    AI fails.

    Each chunk is processed by a begin step (find and claim) and a
    completion step that receives whether a configuration was read, the
    AI service's reply and what `optimizeSubtitles` returns for the chunk. */
module SegmentationPipelines {
  import opened Wrappers
  import opened SubtitleTypes
  import opened AiSegmentation

  /** How far behind the playback position the search for a chunk starts. */
  const SearchBehindMs := 10000

  function Max(a: int, b: int): int {
    if a >= b then a else b
  }

  predicate Unclaimed(f: Fragment, claimed: set<int>) {
    f.start !in claimed
  }

  /** `rawFragments.some(f => !segmentedRawStarts.has(f.start))`. */
  function AnyUnclaimed(raw: seq<Fragment>, claimed: set<int>): (r: bool)
    ensures r <==> exists i :: 0 <= i < |raw| && raw[i].start !in claimed
    decreases |raw|
  {
    if |raw| == 0 then false
    else if raw[0].start !in claimed then true
    else
      assert forall i :: 1 <= i < |raw| ==> raw[i] == raw[1..][i - 1];
      AnyUnclaimed(raw[1..], claimed)
  }

  /** The index of the first unclaimed raw fragment starting at or after `from`, or -1. */
  function FirstUnclaimed(raw: seq<Fragment>, claimed: set<int>, from: int): (r: int)
    ensures -1 <= r < |raw|
    ensures r == -1 <==> forall i :: 0 <= i < |raw| ==> !(raw[i].start >= from && raw[i].start !in claimed)
    ensures r >= 0 ==> (raw[r].start >= from && raw[r].start !in claimed
      && forall i :: 0 <= i < r ==> !(raw[i].start >= from && raw[i].start !in claimed))
    decreases |raw|
  {
    if |raw| == 0 then -1
    else if raw[0].start >= from && raw[0].start !in claimed then 0
    else
      var k := FirstUnclaimed(raw[1..], claimed, from);
      assert forall i :: 1 <= i < |raw| ==> raw[i] == raw[1..][i - 1];
      if k == -1 then -1 else k + 1
  }

  /** The unclaimed raw fragments, in order, with start in [lo, hi). */
  function Window(raw: seq<Fragment>, claimed: set<int>, lo: int, hi: int): (r: seq<Fragment>)
    ensures |r| <= |raw|
    ensures forall i :: 0 <= i < |r| ==> r[i] in raw && r[i].start !in claimed && lo <= r[i].start < hi
    ensures forall i :: 0 <= i < |raw| && raw[i].start !in claimed && lo <= raw[i].start < hi ==> raw[i] in r
    decreases |raw|
  {
    if |raw| == 0 then []
    else
      var rest := Window(raw[1..], claimed, lo, hi);
      assert forall i :: 1 <= i < |raw| ==> raw[i] == raw[1..][i - 1];
      if raw[0].start !in claimed && lo <= raw[0].start < hi then [raw[0]] + rest else rest
  }

  /** `findNextChunk`: the window of `lookAheadMs` after the first unclaimed
      fragment at or after `max(0, t - 10000)`, unclaimed fragments only. */
  function NextChunk(raw: seq<Fragment>, claimed: set<int>, timeMs: int, lookAheadMs: int): (r: seq<Fragment>)
    requires lookAheadMs > 0
    ensures r == [] <==> FirstUnclaimed(raw, claimed, Max(0, timeMs - SearchBehindMs)) == -1
    ensures r != [] ==>
      var s0 := raw[FirstUnclaimed(raw, claimed, Max(0, timeMs - SearchBehindMs))].start;
      r == Window(raw, claimed, s0, s0 + lookAheadMs)
  {
    var k := FirstUnclaimed(raw, claimed, Max(0, timeMs - SearchBehindMs));
    if k == -1 then []
    else
      var s0 := raw[k].start;
      assert raw[k] in Window(raw, claimed, s0, s0 + lookAheadMs);
      Window(raw, claimed, s0, s0 + lookAheadMs)
  }

  /** A window's first element is the first fragment the search found: no
      earlier raw fragment can be unclaimed and start inside the window. */
  lemma {:induction false} NextChunkStartsAtFirst(raw: seq<Fragment>, claimed: set<int>, timeMs: int, lookAheadMs: int)
    requires lookAheadMs > 0
    requires NextChunk(raw, claimed, timeMs, lookAheadMs) != []
    ensures var k := FirstUnclaimed(raw, claimed, Max(0, timeMs - SearchBehindMs));
      NextChunk(raw, claimed, timeMs, lookAheadMs)[0] == raw[k]
  {
    var from := Max(0, timeMs - SearchBehindMs);
    var k := FirstUnclaimed(raw, claimed, from);
    var s0 := raw[k].start;
    WindowFirst(raw, claimed, s0, s0 + lookAheadMs, from, k);
  }

  /** The window of a list that has no qualifying element before index k
      starts with element k, when element k qualifies. */
  lemma {:induction false} WindowFirst(raw: seq<Fragment>, claimed: set<int>, lo: int, hi: int, from: int, k: nat)
    requires k < |raw| && raw[k].start !in claimed && lo <= raw[k].start < hi
    requires from <= lo
    requires forall i :: 0 <= i < k ==> !(raw[i].start >= from && raw[i].start !in claimed)
    ensures Window(raw, claimed, lo, hi) != [] && Window(raw, claimed, lo, hi)[0] == raw[k]
    decreases k
  {
    if k > 0 {
      assert forall i :: 0 <= i < k - 1 ==> raw[1..][i] == raw[i + 1];
      WindowFirst(raw[1..], claimed, lo, hi, from, k - 1);
    }
  }

  /** Every start in the chunk is the start of some raw fragment, and unclaimed. */
  lemma {:induction false} ChunkStartsFresh(raw: seq<Fragment>, claimed: set<int>, timeMs: int, lookAheadMs: int)
    requires lookAheadMs > 0
    ensures var chunk := NextChunk(raw, claimed, timeMs, lookAheadMs);
      Starts(chunk) <= Starts(raw) && Starts(chunk) !! claimed
  {
    var chunk := NextChunk(raw, claimed, timeMs, lookAheadMs);
    forall s | s in Starts(chunk) ensures s in Starts(raw) && s !in claimed {
      var i :| 0 <= i < |chunk| && chunk[i].start == s;
      var j :| 0 <= j < |raw| && raw[j] == chunk[i];
    }
  }

  /** The processed fragments a successful chunk keeps:
      `filter(f => f.start < chunkStart || f.start > chunkEnd)`. */
  function Outside(list: seq<Fragment>, lo: int, hi: int): (r: seq<Fragment>)
    ensures |r| <= |list|
    ensures forall i :: 0 <= i < |r| ==> r[i] in list && (r[i].start < lo || r[i].start > hi)
    ensures forall i :: 0 <= i < |list| && (list[i].start < lo || list[i].start > hi) ==> list[i] in r
    decreases |list|
  {
    if |list| == 0 then []
    else
      var rest := Outside(list[1..], lo, hi);
      assert forall i :: 1 <= i < |list| ==> list[i] == list[1..][i - 1];
      if list[0].start < lo || list[0].start > hi then [list[0]] + rest else rest
  }

  /** The processed list after the AI's fragments replace a chunk's span
      [chunkStart, chunkEnd]: everything outside it survives, the new ones
      are added, and the result is sorted. */
  function Replaced(processed: seq<Fragment>, chunk: seq<Fragment>, segmented: seq<Fragment>): (r: seq<Fragment>)
    requires chunk != []
    ensures Sorted(r)
    ensures forall x :: x in r <==>
      x in segmented || (x in processed && (x.start < chunk[0].start || x.start > chunk[|chunk| - 1].end))
    ensures multiset(r) == multiset(Outside(processed, chunk[0].start, chunk[|chunk| - 1].end)) + multiset(segmented)
    ensures |r| == |Outside(processed, chunk[0].start, chunk[|chunk| - 1].end)| + |segmented|
  {
    var kept := Outside(processed, chunk[0].start, chunk[|chunk| - 1].end);
    var r := SortByStart(kept + segmented);
    forall x ensures x in r <==> x in kept + segmented {
      assert x in r <==> x in multiset(r);
    }
    r
  }

  /** What one chunk's completion receives: whether a configuration was
      read, the AI service's reply, and the optimizer's output for the chunk. */
  datatype ChunkOutcome = ChunkOutcome(hasConfig: bool, reply: Result<string, string>, optimized: seq<Fragment>)

  /** A list has no more distinct start times than elements. */
  lemma {:induction false} StartsBound(list: seq<Fragment>)
    ensures |Starts(list)| <= |list|
    decreases |list|
  {
    if |list| > 0 {
      var init := list[..|list| - 1];
      StartsBound(init);
      assert Starts(list) == Starts(init) + {list[|list| - 1].start} by {
        assert forall i :: 0 <= i < |init| ==> init[i] == list[i];
        forall s | s in Starts(list) ensures s in Starts(init) + {list[|list| - 1].start} {
          var i :| 0 <= i < |list| && list[i].start == s;
          if i < |init| {
            assert init[i].start == s;
          }
        }
      }
    }
  }

  /** Claiming a non-empty set of fresh starts of the raw list leaves
      strictly fewer unclaimed ones. */
  lemma ClaimShrinks(all: set<int>, claimed: set<int>, chunk: set<int>, elem: int)
    requires chunk <= all && chunk !! claimed && elem in chunk
    ensures |all - (claimed + chunk)| < |all - claimed|
  {
    var rest := all - (claimed + chunk);
    var open := all - claimed;
    assert open == rest + (open - rest);
    assert {elem} <= open - rest;
    assert |{elem}| == 1;
  }

  class SegmentationPipeline {
    const rawFragments: seq<Fragment>
    const processLookAheadMs: int

    var processedFragments: seq<Fragment>
    var segmentedRawStarts: set<int>
    var aiSegmentFailedRawStarts: set<int>
    var running: bool
    var stopped: bool
    /** The chunk claimed by the begin step and awaiting its AI reply
        (empty when none is). */
    var pendingChunk: seq<Fragment>

    /** The failed starts are claimed starts, the processed fragments are
        sorted, and a pending chunk is claimed. */
    predicate Valid()
      reads this
    {
      processLookAheadMs > 0
      && aiSegmentFailedRawStarts <= segmentedRawStarts
      && Sorted(processedFragments)
      && Starts(pendingChunk) <= segmentedRawStarts
    }

    constructor (rawFragments: seq<Fragment>, processLookAheadMs: int)
      requires processLookAheadMs > 0
      ensures Valid()
      ensures this.rawFragments == rawFragments && this.processLookAheadMs == processLookAheadMs
      ensures processedFragments == [] && segmentedRawStarts == {} && aiSegmentFailedRawStarts == {}
      ensures !running && !stopped && pendingChunk == []
    {
      this.rawFragments := rawFragments;
      this.processLookAheadMs := processLookAheadMs;
      processedFragments := [];
      segmentedRawStarts := {};
      aiSegmentFailedRawStarts := {};
      running := false;
      stopped := false;
      pendingChunk := [];
    }

    function HasUnprocessedChunks(): (r: bool)
      reads this
      ensures r <==> exists i :: 0 <= i < |rawFragments| && rawFragments[i].start !in segmentedRawStarts
    {
      AnyUnclaimed(rawFragments, segmentedRawStarts)
    }

    function FindNextChunk(timeMs: int): seq<Fragment>
      reads this
      requires Valid()
    {
      NextChunk(rawFragments, segmentedRawStarts, timeMs, processLookAheadMs)
    }

    method Stop()
      modifies this
      ensures stopped
      ensures processedFragments == old(processedFragments) && segmentedRawStarts == old(segmentedRawStarts)
      ensures aiSegmentFailedRawStarts == old(aiSegmentFailedRawStarts) && running == old(running)
      ensures pendingChunk == old(pendingChunk)
    {
      stopped := true;
    }

    /** `clearFailedStarts`: the failed starts become unclaimed again, and the
        failed set empties. */
    method ClearFailedStarts()
      requires Valid() && pendingChunk == []
      modifies this
      ensures Valid()
      ensures segmentedRawStarts == old(segmentedRawStarts) - old(aiSegmentFailedRawStarts)
      ensures aiSegmentFailedRawStarts == {}
      ensures processedFragments == old(processedFragments) && running == old(running) && stopped == old(stopped)
      ensures pendingChunk == old(pendingChunk)
    {
      segmentedRawStarts := segmentedRawStarts - aiSegmentFailedRawStarts;
      aiSegmentFailedRawStarts := {};
    }

    /** The begin step of `processNextChunk`: find the next chunk and, if it
        is not empty, claim every start in it before any reply arrives. */
    method BeginChunk(timeMs: int) returns (didWork: bool)
      requires Valid() && pendingChunk == []
      modifies this
      ensures Valid()
      ensures pendingChunk == NextChunk(rawFragments, old(segmentedRawStarts), timeMs, processLookAheadMs)
      ensures didWork <==> pendingChunk != []
      ensures segmentedRawStarts == old(segmentedRawStarts) + Starts(pendingChunk)
      ensures processedFragments == old(processedFragments) && aiSegmentFailedRawStarts == old(aiSegmentFailedRawStarts)
      ensures running == old(running) && stopped == old(stopped)
    {
      var chunk := FindNextChunk(timeMs);
      if |chunk| == 0 {
        return false;
      }
      ClaimStarts(chunk);
      pendingChunk := chunk;
      didWork := true;
    }

    /** `chunk.forEach(f => this.segmentedRawStarts.add(f.start))`. */
    method ClaimStarts(chunk: seq<Fragment>)
      modifies this
      ensures segmentedRawStarts == old(segmentedRawStarts) + Starts(chunk)
      ensures processedFragments == old(processedFragments) && aiSegmentFailedRawStarts == old(aiSegmentFailedRawStarts)
      ensures running == old(running) && stopped == old(stopped) && pendingChunk == old(pendingChunk)
    {
      var i := 0;
      while i < |chunk|
        invariant 0 <= i <= |chunk|
        invariant segmentedRawStarts == old(segmentedRawStarts) + Starts(chunk[..i])
        invariant processedFragments == old(processedFragments) && aiSegmentFailedRawStarts == old(aiSegmentFailedRawStarts)
        invariant running == old(running) && stopped == old(stopped) && pendingChunk == old(pendingChunk)
      {
        assert Starts(chunk[..i + 1]) == Starts(chunk[..i]) + {chunk[i].start} by {
          assert chunk[..i + 1] == chunk[..i] + [chunk[i]];
        }
        segmentedRawStarts := segmentedRawStarts + {chunk[i].start};
        i := i + 1;
      }
      assert chunk[..i] == chunk;
    }

    /** The completion step of `processNextChunk`. Without a configuration
        nothing is added and the chunk stays claimed; when `aiSegmentBlock`
        succeeds its fragments replace the chunk's span; when it throws, the
        chunk's starts are recorded as failed and the optimizer's fragments
        are appended. The list is sorted again either way. */
    method CompleteChunk(hasConfig: bool, reply: Result<string, string>, optimized: seq<Fragment>)
      requires Valid() && pendingChunk != []
      modifies this
      ensures Valid()
      ensures pendingChunk == [] && segmentedRawStarts == old(segmentedRawStarts)
      ensures !hasConfig ==>
        processedFragments == old(processedFragments) && aiSegmentFailedRawStarts == old(aiSegmentFailedRawStarts)
      ensures hasConfig ==>
        var outcome := AiSegmentBlock(old(pendingChunk), reply);
        (outcome.Success? ==>
           processedFragments == Replaced(old(processedFragments), old(pendingChunk), outcome.value)
           && aiSegmentFailedRawStarts == old(aiSegmentFailedRawStarts))
        && (outcome.Failure? ==>
           processedFragments == SortByStart(old(processedFragments) + optimized)
           && aiSegmentFailedRawStarts == old(aiSegmentFailedRawStarts) + Starts(old(pendingChunk)))
      ensures running == old(running) && stopped == old(stopped)
    {
      var chunk := pendingChunk;
      pendingChunk := [];
      if !hasConfig {
        return;
      }
      var outcome := AiSegmentBlock(chunk, reply);
      if outcome.Success? {
        processedFragments := Replaced(processedFragments, chunk, outcome.value);
      } else {
        MarkFailed(chunk);
        processedFragments := SortByStart(processedFragments + optimized);
      }
    }
  
    /** `chunk.forEach(f => this.aiSegmentFailedRawStarts.add(f.start))`. */
    method MarkFailed(chunk: seq<Fragment>)
      modifies this
      ensures aiSegmentFailedRawStarts == old(aiSegmentFailedRawStarts) + Starts(chunk)
      ensures processedFragments == old(processedFragments) && segmentedRawStarts == old(segmentedRawStarts)
      ensures running == old(running) && stopped == old(stopped) && pendingChunk == old(pendingChunk)
    {
      var i := 0;
      while i < |chunk|
        invariant 0 <= i <= |chunk|
        invariant aiSegmentFailedRawStarts == old(aiSegmentFailedRawStarts) + Starts(chunk[..i])
        invariant processedFragments == old(processedFragments) && segmentedRawStarts == old(segmentedRawStarts)
        invariant running == old(running) && stopped == old(stopped) && pendingChunk == old(pendingChunk)
      {
        assert Starts(chunk[..i + 1]) == Starts(chunk[..i]) + {chunk[i].start} by {
          assert chunk[..i + 1] == chunk[..i] + [chunk[i]];
        }
        aiSegmentFailedRawStarts := aiSegmentFailedRawStarts + {chunk[i].start};
        i := i + 1;
      }
      assert chunk[..i] == chunk;
    }
  
    /** `processNextChunk`, one iteration of `runLoop`: claim the next chunk near
        `timeMs` and, when there is one, segment it with `outcome`. An
        iteration that finds a chunk claims at least one start that was
        not claimed before. */
    method ProcessNextChunk(timeMs: int, outcome: ChunkOutcome) returns (didWork: bool)
      requires Valid() && pendingChunk == []
      modifies this
      ensures Valid() && pendingChunk == []
      ensures didWork <==> old(FindNextChunk(timeMs)) != []
      ensures !didWork ==>
        segmentedRawStarts == old(segmentedRawStarts)
        && processedFragments == old(processedFragments) && aiSegmentFailedRawStarts == old(aiSegmentFailedRawStarts)
      ensures old(segmentedRawStarts) <= segmentedRawStarts
      ensures didWork ==>
        |Starts(rawFragments) - segmentedRawStarts| < |Starts(rawFragments) - old(segmentedRawStarts)|
      ensures running == old(running) && stopped == old(stopped)
    {
      ghost var before := segmentedRawStarts;
      didWork := BeginChunk(timeMs);
      if didWork {
        ChunkStartsFresh(rawFragments, before, timeMs, processLookAheadMs);
        ClaimShrinks(Starts(rawFragments), before, Starts(pendingChunk), pendingChunk[0].start);
        CompleteChunk(outcome.hasConfig, outcome.reply, outcome.optimized);
      }
    }

    /** `runLoop`: a no-op while already running; nothing without a video;
        otherwise it processes chunks until it is stopped, nothing is
        unclaimed, or no chunk is found near the playback position, and then
        clears `running`. Iteration i sees the video time `timesMs[i]` and the
        reply `outcomes[i]`. Each iteration claims at least one start no
        earlier iteration claimed, so there are at most as many iterations as
        raw fragments. */
    method RunLoop(hasVideo: bool, timesMs: seq<int>, outcomes: seq<ChunkOutcome>) returns (iterations: nat)
      requires Valid() && pendingChunk == []
      requires |timesMs| >= |rawFragments| && |outcomes| >= |rawFragments|
      modifies this
      ensures Valid() && pendingChunk == []
      ensures running == old(running) && stopped == old(stopped)
      ensures iterations <= |rawFragments|
      ensures old(running) || !hasVideo || old(stopped) ==>
        iterations == 0 && processedFragments == old(processedFragments)
        && segmentedRawStarts == old(segmentedRawStarts) && aiSegmentFailedRawStarts == old(aiSegmentFailedRawStarts)
      ensures !old(running) && hasVideo ==>
        stopped || !HasUnprocessedChunks() || (iterations < |timesMs| && FindNextChunk(timesMs[iterations]) == [])
      ensures old(segmentedRawStarts) <= segmentedRawStarts
    {
      if running {
        return 0;
      }
      running := true;
      if !hasVideo {
        running := false;
        return 0;
      }
      StartsBound(rawFragments);
      iterations := 0;
      var found := true;
      while found && !stopped && HasUnprocessedChunks()
        invariant Valid() && pendingChunk == [] && running && stopped == old(stopped)
        invariant iterations + |Starts(rawFragments) - segmentedRawStarts| <= |Starts(rawFragments)|
        invariant !found ==> iterations < |timesMs| && FindNextChunk(timesMs[iterations]) == []
        invariant old(segmentedRawStarts) <= segmentedRawStarts
        invariant stopped ==>
          iterations == 0 && processedFragments == old(processedFragments)
          && segmentedRawStarts == old(segmentedRawStarts) && aiSegmentFailedRawStarts == old(aiSegmentFailedRawStarts)
        decreases |Starts(rawFragments) - segmentedRawStarts|, found
      {
        var i :| 0 <= i < |rawFragments| && rawFragments[i].start !in segmentedRawStarts;
        assert rawFragments[i].start in Starts(rawFragments) - segmentedRawStarts;
        var didWork := ProcessNextChunk(timesMs[iterations], outcomes[iterations]);
        if !didWork {
          found := false;
        } else {
          iterations := iterations + 1;
        }
      }
      assert iterations <= |rawFragments|;
      running := false;
    }

    /** `start`: clear the stop flag and run the loop. */
    method Start(hasVideo: bool, timesMs: seq<int>, outcomes: seq<ChunkOutcome>) returns (iterations: nat)
      requires Valid() && pendingChunk == []
      requires |timesMs| >= |rawFragments| && |outcomes| >= |rawFragments|
      modifies this
      ensures Valid() && pendingChunk == [] && !stopped && running == old(running)
      ensures iterations <= |rawFragments|
      ensures !old(running) && hasVideo ==>
        !HasUnprocessedChunks() || (iterations < |timesMs| && FindNextChunk(timesMs[iterations]) == [])
    {
      stopped := false;
      iterations := RunLoop(hasVideo, timesMs, outcomes);
    }
  
    /** `restart`: run the loop again, leaving the stop flag as it is. */
    method Restart(hasVideo: bool, timesMs: seq<int>, outcomes: seq<ChunkOutcome>) returns (iterations: nat)
      requires Valid() && pendingChunk == []
      requires |timesMs| >= |rawFragments| && |outcomes| >= |rawFragments|
      modifies this
      ensures Valid() && pendingChunk == [] && stopped == old(stopped) && running == old(running)
      ensures iterations <= |rawFragments|
      ensures old(stopped) ==> iterations == 0 && segmentedRawStarts == old(segmentedRawStarts)
    {
      iterations := RunLoop(hasVideo, timesMs, outcomes);
    }
  }
}
