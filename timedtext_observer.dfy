/** The page-world cache of observed caption request URLs
    (src/entrypoints/interceptor.content/timedtext-observer.ts): a map from
    video id to the last caption URL seen for it that carries a `pot`
    token, and per video a list of one-shot waiters that a matching URL or
    their own timeout resolves. A waiter is named by a number; `resolved`
    records what each waiter received. Installing the request hooks is not
    part of this model: an observed URL arrives with its parse (`None`
    where the URL constructor throws). */
module TimedtextObservers {
  import opened Wrappers
  import opened Strings
  import opened Seqs
  import opened Urls
  import opened SubtitleTypes

  const TimedtextPath := "api/timedtext"

  /** The video id an observed URL is cached under, if it is cached at all:
      only a caption request URL with a non-empty `v` and `pot`. */
  function CacheKey(url: string, parsed: Option<Url>): (r: Option<string>)
    ensures r.Some? <==>
      Contains(url, TimedtextPath) && parsed.Some?
      && Truthy(Get(parsed.value.params, "v")) && Truthy(Get(parsed.value.params, "pot"))
    ensures r.Some? ==> r == Get(parsed.value.params, "v") && r.value != ""
  {
    if !Contains(url, TimedtextPath) || parsed.None? then None
    else
      var videoId := Get(parsed.value.params, "v");
      var pot := Get(parsed.value.params, "pot");
      if Truthy(videoId) && Truthy(pot) then videoId else None
  }

  /** The list without its element at `k`: `splice(k, 1)`. */
  function RemoveAt(s: seq<nat>, k: nat): (r: seq<nat>)
    requires k < |s|
    ensures |r| == |s| - 1
    ensures forall i :: 0 <= i < k ==> r[i] == s[i]
    ensures forall i :: k <= i < |r| ==> r[i] == s[i + 1]
  {
    s[..k] + s[k + 1..]
  }

  /** `after` is `before` with every waiter of `ws` resolved with `value`
      and nothing else changed. */
  predicate ResolvedWith(before: map<nat, Option<string>>, after: map<nat, Option<string>>, ws: seq<nat>, value: Option<string>) {
    && (forall w :: w in before ==> w in after && after[w] == before[w])
    && (forall j :: 0 <= j < |ws| ==> ws[j] in after && after[ws[j]] == value)
    && (forall w :: w in after ==> w in before || w in ws)
  }

  /** Every listed waiter is a number already handed out and not yet
      resolved, no waiter is listed twice, and only handed-out numbers are
      resolved. */
  predicate WaitersSound(waiters: map<string, seq<nat>>, resolved: map<nat, Option<string>>, nextWaiter: nat) {
    && (forall v, i :: v in waiters && 0 <= i < |waiters[v]| ==> waiters[v][i] < nextWaiter && waiters[v][i] !in resolved)
    && (forall v1, i, v2, j ::
          v1 in waiters && v2 in waiters && 0 <= i < |waiters[v1]| && 0 <= j < |waiters[v2]| && waiters[v1][i] == waiters[v2][j]
          ==> v1 == v2 && i == j)
    && (forall w :: w in resolved ==> w < nextWaiter)
  }

  /** A timeout takes its waiter off its video's list and resolves it,
      which keeps the waiters sound. */
  lemma {:induction false} TimeoutKeepsSound(waiters: map<string, seq<nat>>, resolved: map<nat, Option<string>>, nextWaiter: nat,
                                             v: string, k: nat, value: Option<string>)
    requires WaitersSound(waiters, resolved, nextWaiter)
    requires v in waiters && k < |waiters[v]|
    ensures WaitersSound(waiters[v := RemoveAt(waiters[v], k)], resolved[waiters[v][k] := value], nextWaiter)
  {
    var list := waiters[v];
    var rest := RemoveAt(list, k);
    var after := waiters[v := rest];
    // The position in the old list of each element of a list after removal.
    var orig := (v2: string, i: nat) => if v2 == v && i >= k then i + 1 else i;
    forall v2, i | v2 in after && 0 <= i < |after[v2]|
      ensures after[v2][i] == waiters[v2][orig(v2, i)] && orig(v2, i) < |waiters[v2]|
      ensures !(v2 == v && orig(v2, i) == k)
    {
    }
  }

  class TimedtextObserver {
    var cache: map<string, string>
    var waiters: map<string, seq<nat>>
    var resolved: map<nat, Option<string>>
    var nextWaiter: nat

    /** Every listed waiter is one not yet resolved, and is listed once. */
    predicate Valid()
      reads this
    {
      WaitersSound(waiters, resolved, nextWaiter)
    }

    constructor()
      ensures Valid()
      ensures cache == map[] && waiters == map[] && resolved == map[] && nextWaiter == 0
    {
      cache := map[];
      waiters := map[];
      resolved := map[];
      nextWaiter := 0;
    }

    /** `getCachedTimedtextUrl`: the cached URL of a video, or null. */
    function GetCachedTimedtextUrl(videoId: string): (r: Option<string>)
      reads this
      ensures r.Some? <==> videoId in cache
      ensures r.Some? ==> r.value == cache[videoId]
    {
      if videoId in cache then Some(cache[videoId]) else None
    }

    /** Resolving a waiter: allowed only once per waiter. */
    method Resolve(w: nat, value: Option<string>)
      requires w !in resolved
      modifies this
      ensures resolved == old(resolved)[w := value]
      ensures cache == old(cache) && waiters == old(waiters) && nextWaiter == old(nextWaiter)
    {
      resolved := resolved[w := value];
    }

    /** `cacheTimedtextUrl`: cache a qualifying URL under its video id,
        overwriting any earlier one, and resolve that video's waiters with
        it, in their order; `delivered` lists them. */
    method CacheTimedtextUrl(url: string, parsed: Option<Url>) returns (delivered: seq<nat>)
      requires Valid()
      modifies this
      ensures Valid()
      ensures CacheKey(url, parsed).None? ==>
        delivered == [] && cache == old(cache) && waiters == old(waiters) && resolved == old(resolved)
      ensures CacheKey(url, parsed).Some? ==>
        var v := CacheKey(url, parsed).value;
        && cache == old(cache)[v := url]
        && GetCachedTimedtextUrl(v) == Some(url)
        && waiters == old(waiters) - {v}
        && delivered == (if v in old(waiters) then old(waiters)[v] else [])
        && ResolvedWith(old(resolved), resolved, delivered, Some(url))
      ensures nextWaiter == old(nextWaiter)
    {
      delivered := [];
      var key := CacheKey(url, parsed);
      if key.None? {
        return;
      }
      var v := key.value;
      cache := cache[v := url];
      if v in waiters {
        var ws := waiters[v];
        ghost var before := waiters;
        waiters := waiters - {v};
        forall i, j | 0 <= i < j < |ws| ensures ws[i] != ws[j] {
          assert before[v][i] == ws[i] && before[v][j] == ws[j];
        }
        forall u, k, j | u in waiters && 0 <= k < |waiters[u]| && 0 <= j < |ws| ensures waiters[u][k] != ws[j] {
          assert before[u][k] == waiters[u][k] && before[v][j] == ws[j] && u != v;
        }
        ResolveAll(ws, Some(url));
        delivered := ws;
      }
    }

    /** Resolve each waiter of a list of distinct unresolved ones with `value`. */
    method ResolveAll(ws: seq<nat>, value: Option<string>)
      requires forall j :: 0 <= j < |ws| ==> ws[j] !in resolved
      requires forall i, j :: 0 <= i < j < |ws| ==> ws[i] != ws[j]
      modifies this
      ensures ResolvedWith(old(resolved), resolved, ws, value)
      ensures cache == old(cache) && waiters == old(waiters) && nextWaiter == old(nextWaiter)
    {
      var i := 0;
      while i < |ws|
        invariant 0 <= i <= |ws|
        invariant cache == old(cache) && waiters == old(waiters) && nextWaiter == old(nextWaiter)
        invariant ResolvedWith(old(resolved), resolved, ws[..i], value)
        invariant forall j :: i <= j < |ws| ==> ws[j] !in resolved
      {
        Resolve(ws[i], value);
        assert ws[..i + 1] == ws[..i] + [ws[i]];
        i := i + 1;
      }
      assert ws[..i] == ws;
    }

    /** `waitForTimedtextUrl`, its synchronous part: a cached URL is
        returned at once and no waiter is added; otherwise a fresh waiter is
        appended to the video's list and returned. */
    method WaitForTimedtextUrl(videoId: string) returns (immediate: Option<string>, waiter: Option<nat>)
      requires Valid()
      modifies this
      ensures Valid()
      ensures Truthy(old(GetCachedTimedtextUrl(videoId))) ==>
        immediate == old(GetCachedTimedtextUrl(videoId)) && waiter.None?
        && waiters == old(waiters) && nextWaiter == old(nextWaiter)
      ensures !Truthy(old(GetCachedTimedtextUrl(videoId))) ==>
        immediate.None? && waiter == Some(old(nextWaiter)) && nextWaiter == old(nextWaiter) + 1
        && waiters == old(waiters)[videoId := (if videoId in old(waiters) then old(waiters)[videoId] else []) + [old(nextWaiter)]]
      ensures cache == old(cache) && resolved == old(resolved)
    {
      var cached := GetCachedTimedtextUrl(videoId);
      if Truthy(cached) {
        return cached, None;
      }
      var w := nextWaiter;
      var list := if videoId in waiters then waiters[videoId] else [];
      ghost var before := waiters;
      waiters := waiters[videoId := list + [w]];
      nextWaiter := nextWaiter + 1;
      assert forall u, k :: u in before && 0 <= k < |before[u]| ==> before[u][k] < w;
      return None, Some(w);
    }

    /** The timer of waiter `w` on `videoId`: if the waiter is still listed
        it alone is removed and resolved with the cached URL or null;
        otherwise nothing happens. */
    method Timeout(videoId: string, w: nat) returns (fired: bool)
      requires Valid()
      modifies this
      ensures Valid()
      ensures fired <==> videoId in old(waiters) && w in old(waiters)[videoId]
      ensures fired ==>
        && resolved == old(resolved)[w := old(GetCachedTimedtextUrl(videoId))]
        && waiters == old(waiters)[videoId := RemoveAt(old(waiters)[videoId], FindIndex(old(waiters)[videoId], (x: nat) => x == w))]
      ensures !fired ==> resolved == old(resolved) && waiters == old(waiters)
      ensures cache == old(cache) && nextWaiter == old(nextWaiter)
    {
      fired := false;
      if videoId !in waiters {
        return;
      }
      var list := waiters[videoId];
      var k := FindIndex(list, (x: nat) => x == w);
      if k == -1 {
        assert w !in list;
        return;
      }
      TimeoutKeepsSound(waiters, resolved, nextWaiter, videoId, k, GetCachedTimedtextUrl(videoId));
      waiters := waiters[videoId := RemoveAt(list, k)];
      Resolve(w, GetCachedTimedtextUrl(videoId));
      fired := true;
    }
  }
}
