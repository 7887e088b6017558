/** A parsed URL as an origin-and-path part plus its ordered query
    parameters, with the `URLSearchParams` operations the fetcher uses:
    `get` returns the first value of a name, `set` replaces the first pair of
    that name and removes the others, or appends one pair when there is none. */
module Urls {
  import opened Wrappers

  type Param = (string, string)

  datatype Url = Url(base: string, params: seq<Param>)

  /** `searchParams.get(key)`. */
  function Get(params: seq<Param>, key: string): (r: Option<string>)
    ensures r.Some? <==> exists i :: 0 <= i < |params| && params[i].0 == key
    decreases |params|
  {
    if |params| == 0 then None
    else if params[0].0 == key then Some(params[0].1)
    else
      var r := Get(params[1..], key);
      assert forall i :: 1 <= i < |params| ==> params[i] == params[1..][i - 1];
      r
  }

  /** The pairs whose name is not `key`, in order. */
  function Without(params: seq<Param>, key: string): (r: seq<Param>)
    ensures forall i :: 0 <= i < |r| ==> r[i].0 != key
    decreases |params|
  {
    if |params| == 0 then []
    else if params[0].0 == key then Without(params[1..], key)
    else [params[0]] + Without(params[1..], key)
  }

  /** `searchParams.set(key, value)`. */
  function Set(params: seq<Param>, key: string, value: string): seq<Param>
    decreases |params|
  {
    if |params| == 0 then [(key, value)]
    else if params[0].0 == key then [(key, value)] + Without(params[1..], key)
    else [params[0]] + Set(params[1..], key, value)
  }

  lemma {:induction false} GetWithoutOther(params: seq<Param>, key: string, other: string)
    requires other != key
    ensures Get(Without(params, key), other) == Get(params, other)
    decreases |params|
  {
    if |params| > 0 {
      GetWithoutOther(params[1..], key, other);
    }
  }

  lemma {:induction false} GetWithoutSame(params: seq<Param>, key: string)
    ensures Get(Without(params, key), key) == None
  {
  }

  lemma {:induction false} WithoutTwice(params: seq<Param>, key: string)
    ensures Without(Without(params, key), key) == Without(params, key)
    decreases |params|
  {
    if |params| > 0 {
      WithoutTwice(params[1..], key);
    }
  }

  /** After `set`, `get` of that name returns the value just set. */
  lemma {:induction false} GetSetSame(params: seq<Param>, key: string, value: string)
    ensures Get(Set(params, key, value), key) == Some(value)
    decreases |params|
  {
    if |params| > 0 && params[0].0 != key {
      GetSetSame(params[1..], key, value);
    }
  }

  /** `set` does not change what `get` returns for any other name. */
  lemma {:induction false} GetSetOther(params: seq<Param>, key: string, value: string, other: string)
    requires other != key
    ensures Get(Set(params, key, value), other) == Get(params, other)
    decreases |params|
  {
    if |params| > 0 {
      if params[0].0 == key {
        GetWithoutOther(params[1..], key, other);
      } else {
        GetSetOther(params[1..], key, value, other);
      }
    }
  }

  /** `set` keeps every pair of another name, in order and with its multiplicity. */
  lemma {:induction false} SetKeepsOthers(params: seq<Param>, key: string, value: string)
    ensures Without(Set(params, key, value), key) == Without(params, key)
    decreases |params|
  {
    if |params| > 0 {
      if params[0].0 == key {
        WithoutTwice(params[1..], key);
      } else {
        SetKeepsOthers(params[1..], key, value);
      }
    }
  }

  /** The pairs whose name is outside `keys`, in order. */
  function Outside(params: seq<Param>, keys: set<string>): (r: seq<Param>)
    ensures forall i :: 0 <= i < |r| ==> r[i].0 !in keys
    decreases |params|
  {
    if |params| == 0 then []
    else if params[0].0 in keys then Outside(params[1..], keys)
    else [params[0]] + Outside(params[1..], keys)
  }

  lemma {:induction false} OutsideWithout(params: seq<Param>, key: string, keys: set<string>)
    requires key in keys
    ensures Outside(Without(params, key), keys) == Outside(params, keys)
    decreases |params|
  {
    if |params| > 0 {
      OutsideWithout(params[1..], key, keys);
    }
  }

  /** Setting a name inside `keys` keeps every pair outside `keys`, in order. */
  lemma {:induction false} SetKeepsOutside(params: seq<Param>, key: string, value: string, keys: set<string>)
    requires key in keys
    ensures Outside(Set(params, key, value), keys) == Outside(params, keys)
    decreases |params|
  {
    if |params| > 0 {
      if params[0].0 == key {
        OutsideWithout(params[1..], key, keys);
      } else {
        SetKeepsOutside(params[1..], key, value, keys);
      }
    }
  }
}
