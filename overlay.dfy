/**
 The environment overlay of `perform_command`: for a prefix `P`, each option
 key `k` is looked up in the environment as `P_` followed by `k` without its
 leading dashes, with `-` turned into `_`, upper-cased; whatever is found is
 merged beneath the parsed options, where every parsed key overrides it.
 */
module Overlay {
  import opened Strings
  import opened Dispatcher

  /** What one character of an option key becomes in a variable name. */
  function EnvChar(c: char): (d: char)
    ensures d != '-' && !('a' <= d <= 'z')
    ensures c == '-' ==> d == '_'
    ensures 'a' <= c <= 'z' ==> d as int == c as int - 32
    ensures c != '-' && !('a' <= c <= 'z') ==> d == c
  {
    if c == '-' then '_' else ToUpper(c)
  }

  /**
   The environment variable consulted for option `key`: the prefix, an
   underscore, then the key with its leading dashes dropped, each `-`
   turned into `_` and each ASCII letter upper-cased.
   */
  function EnvVarName(prefix: string, key: string): (name: string)
    ensures |name| == |prefix| + 1 + |LStrip(key, '-')|
    ensures forall i :: 0 <= i < |prefix| ==> name[i] == prefix[i]
    ensures name[|prefix|] == '_'
    ensures forall i :: 0 <= i < |LStrip(key, '-')| ==> name[|prefix| + 1 + i] == EnvChar(LStrip(key, '-')[i])
  {
    var stripped := LStrip(key, '-');
    var tail := Upper(Replace(stripped, '-', '_'));
    assert forall i :: 0 <= i < |tail| ==> tail[i] == EnvChar(stripped[i]);
    prefix + "_" + tail
  }

  /** No `-` and no lower-case ASCII letter follows the prefix in a variable name. */
  lemma EnvVarNameShape(prefix: string, key: string)
    ensures var name := EnvVarName(prefix, key);
            forall j :: |prefix| < j < |name| ==> name[j] != '-' && !('a' <= name[j] <= 'z')
  {
    var name := EnvVarName(prefix, key);
    forall j | |prefix| < j < |name| ensures name[j] != '-' && !('a' <= name[j] <= 'z') {
      assert name[j] == EnvChar(LStrip(key, '-')[j - |prefix| - 1]);
    }
  }

  /** `env_options`: the keys of `options` whose variable is set, mapped to its value. */
  function EnvOptions(env: map<string, string>, prefix: string, options: Options): (r: Options)
    ensures r.Keys <= options.Keys
    ensures forall k :: k in options ==> (k in r <==> EnvVarName(prefix, k) in env)
    ensures forall k :: k in r ==> r[k] == Str(env[EnvVarName(prefix, k)])
  {
    map k | k in options && EnvVarName(prefix, k) in env :: Str(env[EnvVarName(prefix, k)])
  }

  /**
   The overlay `{**env_options, **options}`, applied only when a prefix is
   given: every key comes from `options` and `options` is merged last, so
   the result equals the parsed options as a map (key order, which a
   Python dict keeps, is not modelled), whatever the environment holds.
   */
  function OverlayEnv(env: map<string, string>, prefix: Option<string>, options: Options): (r: Options)
    ensures r == options
  {
    if prefix.None? || prefix.value == "" then options
    else Merge(EnvOptions(env, prefix.value, options), options)
  }
}
