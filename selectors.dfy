/**
 * Selector pairing in `prepare`: each scanned name is paired with its Starknet
 * selector. The selector hash is an external collaborator, so it is a
 * parameter here: `selectorOf(name)` is the decimal text of the selector, or
 * `None` when the hash rejects the name, which makes `prepare` panic.
 */
module Selectors {
  import opened Wrappers

  /** One row of the dispatch table, in the source's (selector, name) order. */
  datatype Entry = Entry(selector: string, name: string)

  /**
   * Pairs every name with its selector, in order; fails with the first name
   * whose selector cannot be computed. No partial table is ever produced.
   */
  function ResolveSelectors(names: seq<string>, selectorOf: string -> Option<string>)
    : (r: Result<seq<Entry>, string>)
    ensures r.Ok? <==> forall i :: 0 <= i < |names| ==> selectorOf(names[i]).Some?
    ensures r.Ok? ==> |r.value| == |names|
    ensures r.Ok? ==> forall i :: 0 <= i < |names| ==>
              r.value[i] == Entry(selectorOf(names[i]).value, names[i])
    ensures r.Err? ==>
              exists i :: 0 <= i < |names| && names[i] == r.error && selectorOf(names[i]).None? &&
                          forall j :: 0 <= j < i ==> selectorOf(names[j]).Some?
  {
    if names == [] then Ok([])
    else
      match selectorOf(names[0])
      case None => Err(names[0])
      case Some(s) =>
        var rest := ResolveSelectors(names[1..], selectorOf);
        match rest
        case Err(n) => Err(n)
        case Ok(entries) => Ok([Entry(s, names[0])] + entries)
  }
}
