/**
 * packages/js/core/src/types/PluginRegistration.ts: normalising the URIs of
 * the configured plugins. `toUri` is a parameter; P is the plugin package,
 * which is passed through untouched.
 */
module PluginRegistration {

  datatype PluginRegistration<T, P> = PluginRegistration(uri: T, plugin: P)

  /** One output entry per input entry, in input order; repeated URIs are kept. */
  method SanitizePluginRegistrations<S, U, P>(input: seq<PluginRegistration<S, P>>, toUri: S -> U)
    returns (output: seq<PluginRegistration<U, P>>)
    ensures |output| == |input|
    ensures forall i :: 0 <= i < |input| ==>
      output[i].uri == toUri(input[i].uri) && output[i].plugin == input[i].plugin
  {
    output := [];
    for k := 0 to |input|
      invariant |output| == k
      invariant forall i :: 0 <= i < k ==>
        output[i].uri == toUri(input[i].uri) && output[i].plugin == input[i].plugin
    {
      var definition := input[k];
      var uri := toUri(definition.uri);
      output := output + [PluginRegistration(uri, definition.plugin)];
    }
  }
}
