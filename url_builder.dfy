/** Construction of the caption download URL from a track's base URL: fixed
    format parameters, the device parameters known to the player, the client
    version and the anti-abuse token. */
module UrlBuilder {
  import opened Wrappers
  import opened Urls
  import opened YoutubeTypes
  import opened SubtitleTypes
  import opened PotTokens

  const DeviceParamKeys: seq<string> := ["cbrand", "cbr", "cbrver", "cos", "cosver", "cplatform"]

  const FixedKeys: seq<string> := ["fmt", "xorb", "xobt", "xovt", "c", "cplayer"]

  const FixedParams: seq<Param> := [("fmt", "json3"), ("xorb", "2"), ("xobt", "3"), ("xovt", "3"), ("c", "WEB"), ("cplayer", "UNIPLAYER")]

  /** Every name the builder may set. */
  const ManagedKeys: set<string> := {"fmt", "xorb", "xobt", "xovt", "c", "cplayer", "cbrand", "cbr", "cbrver", "cos", "cosver", "cplatform", "cver", "pot", "potc"}

  /** The fixed names are distinct, so `get` of each returns its own value. */
  lemma FixedParamsDistinct(k: int)
    requires 0 <= k < |FixedParams|
    ensures FixedKeys[k] == FixedParams[k].0
    ensures Get(FixedParams, FixedParams[k].0) == Some(FixedParams[k].1)
    ensures FixedParams[k].0 in ManagedKeys
  {
  }

  /** A name has a fixed value exactly when it is one of the fixed names. */
  lemma FixedKeysHaveValues(key: string)
    ensures Get(FixedParams, key).Some? <==> key in FixedKeys
  {
  }

  /** The value a device key takes from the device parameters, when non-empty. */
  function DeviceValue(playerData: PlayerData, key: string): Option<string> {
    if playerData.device.Some? && Truthy(Get(playerData.device.value, key)) then Get(playerData.device.value, key) else None
  }

  /** A name's value after the fixed parameters are set. */
  function AfterFixed(baseParams: seq<Param>, key: string): Option<string> {
    if key in FixedKeys then Get(FixedParams, key) else Get(baseParams, key)
  }

  /** A name's value after the device parameters are set. */
  function AfterDevice(baseParams: seq<Param>, playerData: PlayerData, key: string): Option<string> {
    if key in DeviceParamKeys && DeviceValue(playerData, key).Some? then DeviceValue(playerData, key)
    else AfterFixed(baseParams, key)
  }

  /** What `get(key)` returns on the built URL, name by name: the last step
      that sets a name decides its value. */
  function Expected(baseParams: seq<Param>, playerData: PlayerData, potToken: PotToken, key: string): Option<string> {
    if key == "potc" && Truthy(potToken.potc) then potToken.potc
    else if key == "pot" && Truthy(potToken.pot) then potToken.pot
    else if key == "cver" && Truthy(playerData.cver) then playerData.cver
    else AfterDevice(baseParams, playerData, key)
  }

  /** `buildSubtitleUrl`, on the parsed `track.baseUrl` (serialising the URL
      back to a string is not modelled). */
  method BuildSubtitleUrl(baseUrl: Url, playerData: PlayerData, potToken: PotToken) returns (url: Url)
    ensures url.base == baseUrl.base
    ensures forall key :: Get(url.params, key) == Expected(baseUrl.params, playerData, potToken, key)
    ensures Outside(url.params, ManagedKeys) == Outside(baseUrl.params, ManagedKeys)
  {
    var params := SetFixedParams(baseUrl.params);
    if playerData.device.Some? {
      params := SetDeviceParams(params, playerData.device.value);
    }
    assert forall key :: Get(params, key) == AfterDevice(baseUrl.params, playerData, key);
    ghost var p0 := params;
    params := SetIfTruthy(params, "cver", playerData.cver);
    ghost var p1 := params;
    params := SetIfTruthy(params, "pot", potToken.pot);
    ghost var p2 := params;
    params := SetIfTruthy(params, "potc", potToken.potc);
    forall key ensures Get(params, key) == Expected(baseUrl.params, playerData, potToken, key) {
      assert Get(p0, key) == AfterDevice(baseUrl.params, playerData, key);
      assert Get(p1, key) == if key == "cver" && Truthy(playerData.cver) then playerData.cver else Get(p0, key);
      assert Get(p2, key) == if key == "pot" && Truthy(potToken.pot) then potToken.pot else Get(p1, key);
    }
    url := Url(baseUrl.base, params);
  }

  /** `if (value) searchParams.set(key, value)`. */
  function SetIfTruthy(params: seq<Param>, key: string, value: Option<string>): (r: seq<Param>)
    requires key in ManagedKeys
    ensures forall other :: Get(r, other) == if other == key && Truthy(value) then value else Get(params, other)
    ensures Outside(r, ManagedKeys) == Outside(params, ManagedKeys)
  {
    if value.Some? && value.value != "" then SetManaged(params, key, value.value) else params
  }

  /** The `FIXED_PARAMS` loop: each fixed name ends with its fixed value. */
  method SetFixedParams(base: seq<Param>) returns (params: seq<Param>)
    ensures forall key :: Get(params, key) == AfterFixed(base, key)
    ensures Outside(params, ManagedKeys) == Outside(base, ManagedKeys)
  {
    params := base;
    for k := 0 to |FixedParams|
      invariant forall key :: Get(params, key) == FixedUpTo(base, k, key)
      invariant Outside(params, ManagedKeys) == Outside(base, ManagedKeys)
    {
      FixedParamsDistinct(k);
      params := SetManaged(params, FixedParams[k].0, FixedParams[k].1);
    }
    forall key ensures Get(params, key) == AfterFixed(base, key) {
      FixedUpToAll(base, key);
    }
  }

  /** A name's value after the first k fixed parameters are set in turn. */
  function FixedUpTo(base: seq<Param>, k: nat, key: string): Option<string>
    requires k <= |FixedParams|
  {
    if k == 0 then Get(base, key)
    else if key == FixedParams[k - 1].0 then Some(FixedParams[k - 1].1)
    else FixedUpTo(base, k - 1, key)
  }

  /** Setting the fixed parameters one after the other gives each fixed name
      its value and leaves the other names as they were. */
  lemma FixedUpToAll(base: seq<Param>, key: string)
    ensures FixedUpTo(base, |FixedParams|, key) == AfterFixed(base, key)
  {
    if key in FixedKeys {
      var k :| 0 <= k < |FixedKeys| && FixedKeys[k] == key;
      FixedParamsDistinct(k);
      FixedUpToIndex(base, k, key);
    } else {
      FixedUpToOther(base, |FixedParams|, key);
    }
  }

  lemma {:induction false} FixedUpToIndex(base: seq<Param>, k: nat, key: string)
    requires k < |FixedParams| && FixedParams[k].0 == key
    ensures FixedUpTo(base, |FixedParams|, key) == Some(FixedParams[k].1)
  {
    var j := |FixedParams|;
    while j > k + 1
      invariant k + 1 <= j <= |FixedParams|
      invariant FixedUpTo(base, |FixedParams|, key) == FixedUpTo(base, j, key)
    {
      assert FixedParams[j - 1].0 != key by {
        FixedParamsDistinct(j - 1);
        FixedParamsDistinct(k);
      }
      j := j - 1;
    }
  }

  lemma {:induction false} FixedUpToOther(base: seq<Param>, k: nat, key: string)
    requires k <= |FixedParams| && key !in FixedKeys
    ensures FixedUpTo(base, k, key) == Get(base, key)
    decreases k
  {
    if k > 0 {
      FixedParamsDistinct(k - 1);
      FixedUpToOther(base, k - 1, key);
    }
  }

  /** The `DEVICE_PARAM_KEYS` loop: a device name is set only when the
      device parameters give it a non-empty value. */
  method SetDeviceParams(base: seq<Param>, deviceParams: seq<Param>) returns (params: seq<Param>)
    ensures forall key :: Get(params, key) == (if key in DeviceParamKeys && Truthy(Get(deviceParams, key)) then Get(deviceParams, key) else Get(base, key))
    ensures Outside(params, ManagedKeys) == Outside(base, ManagedKeys)
  {
    params := base;
    for k := 0 to |DeviceParamKeys|
      invariant forall key :: Get(params, key) == (if key in DeviceParamKeys[..k] && Truthy(Get(deviceParams, key)) then Get(deviceParams, key) else Get(base, key))
      invariant Outside(params, ManagedKeys) == Outside(base, ManagedKeys)
    {
      var key := DeviceParamKeys[k];
      var value := Get(deviceParams, key);
      assert DeviceParamKeys[..k + 1] == DeviceParamKeys[..k] + [key];
      if value.Some? && value.value != "" {
        params := SetManaged(params, key, value.value);
      }
    }
    assert DeviceParamKeys[..|DeviceParamKeys|] == DeviceParamKeys;
  }

  /** One `set` of a managed name, with the facts the builder relies on. */
  function SetManaged(params: seq<Param>, key: string, value: string): (r: seq<Param>)
    requires key in ManagedKeys
    ensures Get(r, key) == Some(value)
    ensures forall other :: other != key ==> Get(r, other) == Get(params, other)
    ensures Outside(r, ManagedKeys) == Outside(params, ManagedKeys)
  {
    forall other | other != key ensures Get(Set(params, key, value), other) == Get(params, other) {
      GetSetOther(params, key, value, other);
    }
    GetSetSame(params, key, value);
    SetKeepsOutside(params, key, value, ManagedKeys);
    Set(params, key, value)
  }

  /** The fixed names are not among the names set after them. */
  lemma FixedNamesNotLater(key: string)
    requires key in FixedKeys
    ensures key != "potc" && key != "pot" && key != "cver" && key !in DeviceParamKeys
  {
  }

  /** No later step overwrites a fixed parameter. */
  lemma FixedParamsWin(baseParams: seq<Param>, playerData: PlayerData, potToken: PotToken, key: string)
    requires key in FixedKeys
    ensures Get(FixedParams, key).Some?
    ensures Expected(baseParams, playerData, potToken, key) == Get(FixedParams, key)
  {
    FixedNamesNotLater(key);
    FixedKeysHaveValues(key);
  }

  /** An empty or missing token leaves the base URL's own `pot`/`potc` untouched. */
  lemma NoTokenKeepsBase(baseParams: seq<Param>, playerData: PlayerData)
    ensures Expected(baseParams, playerData, PotToken(None, None), "pot") == Get(baseParams, "pot")
    ensures Expected(baseParams, playerData, PotToken(None, None), "potc") == Get(baseParams, "potc")
  {
    assert "pot" !in FixedKeys && "pot" !in DeviceParamKeys;
    assert "potc" !in FixedKeys && "potc" !in DeviceParamKeys;
  }
}
