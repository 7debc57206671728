/**
 * Configuration mappings and the pure dictionary expressions of the executor:
 * later-wins merge, the layered stage input, and output key prefixing.
 */
module ConfigOps {
  import opened Wrappers

  /** A configuration value as read from a configuration record or returned by a stage. */
  datatype Value = Str(s: string) | Num(n: int) | Flag(b: bool) | Null | List(items: seq<Value>)

  /** A flat configuration dictionary. */
  type Config = map<string, Value>

  /** Output keys ending in this suffix name artifact files that must exist when a stage is resumed. */
  const FileKeySuffix: string := "_file"

  /** The key whose value is a stage's output location. */
  const PrefixKey: string := "prefix"

  predicate EndsWith(s: string, suffix: string)
  {
    |suffix| <= |s| && s[|s| - |suffix|..] == suffix
  }

  /** `{**base, **top}`: every key of either side, and on a collision the value of `top`. */
  function Merge(base: Config, top: Config): (r: Config)
    ensures r.Keys == base.Keys + top.Keys
    ensures forall k :: k in top ==> r[k] == top[k]
    ensures forall k :: k in base && k !in top ==> r[k] == base[k]
  {
    base + top
  }

  /**
   * The input configuration of a stage: tools, databases, the stage's own section and the global
   * state, each layer overriding the ones before it, and finally the stage's output prefix.
   */
  function StageInput(tools: Config, databases: Config, section: Config, globalState: Config,
                      stagePrefix: string): (r: Config)
    ensures r.Keys == tools.Keys + databases.Keys + section.Keys + globalState.Keys + {PrefixKey}
    ensures r[PrefixKey] == Str(stagePrefix)
    ensures forall k :: k in globalState && k != PrefixKey ==> r[k] == globalState[k]
    ensures forall k :: k in section && k !in globalState && k != PrefixKey ==> r[k] == section[k]
    ensures forall k :: k in databases && k !in section && k !in globalState && k != PrefixKey ==>
              r[k] == databases[k]
    ensures forall k :: k in tools && k !in databases && k !in section && k !in globalState && k != PrefixKey ==>
              r[k] == tools[k]
  {
    Merge(Merge(Merge(Merge(tools, databases), section), globalState), map[PrefixKey := Str(stagePrefix)])
  }

  /**
   * A stage's output as stored and merged: without a key prefix the runner's output itself,
   * with key prefix `p` the runner's values under the keys `p + k`, and no other keys.
   */
  function ApplyKeyPrefix(keyPrefix: Option<string>, out: Config): (r: Config)
    ensures keyPrefix.None? ==> r == out
    ensures keyPrefix.Some? ==>
              forall k :: k in out ==> keyPrefix.value + k in r && r[keyPrefix.value + k] == out[k]
    ensures keyPrefix.Some? ==>
              forall k :: k in r ==> |keyPrefix.value| <= |k| && k[..|keyPrefix.value|] == keyPrefix.value
                                     && k[|keyPrefix.value|..] in out && r[k] == out[k[|keyPrefix.value|..]]
  {
    match keyPrefix
    case None => out
    case Some(p) =>
      assert forall k :: k in out ==> (p + k)[..|p|] == p && (p + k)[|p|..] == k;
      assert forall k1, k2 :: k1 in out && k2 in out && p + k1 == p + k2 ==> k1 == k2;
      map k | k in out :: p + k := out[k]
  }
}
