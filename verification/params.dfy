/**
 * Step parameters: the host-side store written by `set_param` and read back
 * through `get_param`/`get_params`, and the prefix filtering the modules apply
 * to select "their" keys.
 */
module Params {
  import opened Wrappers
  import opened Typedefs
  import opened Strings

  /** Parameters of every step, by handle. */
  type ParamStore = map<Handle, map<string, string>>

  /** `get_params(h)`: the step's parameters, `None` when none were ever set. */
  function GetParams(store: ParamStore, h: Handle): (r: Option<map<string, string>>)
    ensures r.Some? <==> h in store
    ensures r.Some? ==> r.value == store[h]
  {
    Get(store, h)
  }

  /** `get_param(h, k)`: one parameter of a step. */
  function GetParam(store: ParamStore, h: Handle, k: string): (r: Option<string>)
    ensures r.Some? <==> h in store && k in store[h]
    ensures r.Some? ==> r.value == store[h][k]
  {
    if h in store && k in store[h] then Some(store[h][k]) else None
  }

  /** `set_param(h, k, v)`: creates the step's map if needed and overwrites `k`. */
  function SetParam(store: ParamStore, h: Handle, k: string, v: string): (r: ParamStore)
    ensures r.Keys == store.Keys + {h}
    ensures k in r[h] && r[h][k] == v
    ensures forall k' :: k' != k ==> (k' in r[h] <==> h in store && k' in store[h])
    ensures forall k' :: k' != k && k' in r[h] ==> r[h][k'] == store[h][k']
    ensures forall h' :: h' in store && h' != h ==> r[h'] == store[h']
  {
    var current := if h in store then store[h] else map[];
    store[h := current[k := v]]
  }

  /** A later `set_param` of the same key overwrites an earlier one. */
  lemma SetParamLastWins(store: ParamStore, h: Handle, k: string, v1: string, v2: string)
    ensures SetParam(SetParam(store, h, k, v1), h, k, v2) == SetParam(store, h, k, v2)
  {
    var current := if h in store then store[h] else map[];
    assert current[k := v1][k := v2] == current[k := v2];
  }

  /** `set_param` of two different keys can be done in either order. */
  lemma SetParamCommutes(store: ParamStore, h: Handle, k1: string, v1: string, k2: string, v2: string)
    requires k1 != k2
    ensures SetParam(SetParam(store, h, k1, v1), h, k2, v2) == SetParam(SetParam(store, h, k2, v2), h, k1, v1)
  {
    var current := if h in store then store[h] else map[];
    assert current[k1 := v1][k2 := v2] == current[k2 := v2][k1 := v1];
  }

  /** The keys of `m` that start with `prefix`, with the prefix removed. */
  function StrippedKeys(m: map<string, string>, prefix: string): (ks: set<string>)
    ensures forall k :: k in ks <==> prefix + k in m
  {
    var ks := set key | key in m && StartsWith(key, prefix) :: StripPrefix(key, prefix);
    assert forall k :: prefix + k in m ==> k in ks by {
      forall k | prefix + k in m
        ensures k in ks
      {
        var key := prefix + k;
        assert key[..|prefix|] == prefix;
        assert StripPrefix(key, prefix) == k;
      }
    }
    ks
  }

  /**
   * The entries of `m` whose key starts with `prefix`, with that prefix
   * removed from the key and the value kept; every other entry is dropped.
   */
  function FilterStripPrefix(m: map<string, string>, prefix: string): (r: map<string, string>)
    ensures forall k :: k in r <==> prefix + k in m
    ensures forall k :: k in r ==> r[k] == m[prefix + k]
  {
    map k | k in StrippedKeys(m, prefix) :: m[prefix + k]
  }

  /** Every key that starts with `prefix` survives the filter, under its stripped name. */
  lemma FilterKeepsPrefixed(m: map<string, string>, prefix: string, key: string)
    requires key in m && StartsWith(key, prefix)
    ensures StripPrefix(key, prefix) in FilterStripPrefix(m, prefix)
    ensures FilterStripPrefix(m, prefix)[StripPrefix(key, prefix)] == m[key]
  {
    assert prefix + StripPrefix(key, prefix) == key;
  }
}
