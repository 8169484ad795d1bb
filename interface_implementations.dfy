/**
 * packages/js/core/src/types/InterfaceImplementations.ts: normalising the
 * configured interface → implementations lists. The URI normaliser `toUri`
 * (from ../utils) is a parameter; S stands for "Uri or string" and U for Uri.
 */
module InterfaceImplementations {

  datatype InterfaceImplementations<T> = InterfaceImplementations(interface: T, implementations: seq<T>)

  /** `list.map(toUri)`. */
  function MapUris<S, U>(list: seq<S>, toUri: S -> U): (r: seq<U>)
    ensures |r| == |list|
    ensures forall i :: 0 <= i < |list| ==> r[i] == toUri(list[i])
  {
    if list == [] then [] else [toUri(list[0])] + MapUris(list[1..], toUri)
  }

  /**
   * One output entry per input entry, in input order; nothing is merged or
   * de-duplicated, so two entries for one interface stay two entries.
   */
  method SanitizeInterfaceImplementations<S, U>(input: seq<InterfaceImplementations<S>>, toUri: S -> U)
    returns (output: seq<InterfaceImplementations<U>>)
    ensures |output| == |input|
    ensures forall i :: 0 <= i < |input| ==>
      output[i].interface == toUri(input[i].interface) &&
      |output[i].implementations| == |input[i].implementations| &&
      forall j :: 0 <= j < |input[i].implementations| ==>
        output[i].implementations[j] == toUri(input[i].implementations[j])
  {
    output := [];
    for k := 0 to |input|
      invariant |output| == k
      invariant forall i :: 0 <= i < k ==>
        output[i].interface == toUri(input[i].interface) &&
        output[i].implementations == MapUris(input[i].implementations, toUri)
    {
      var definition := input[k];
      var interfaceUri := toUri(definition.interface);
      var implementations := MapUris(definition.implementations, toUri);
      output := output + [InterfaceImplementations(interfaceUri, implementations)];
    }
  }
}
