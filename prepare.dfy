/**
 * `prepare`: turns the expanded contract into a flat program. It scans the
 * entry points, pairs each with its selector (aborting if one has none),
 * sanitizes every line, and appends the dispatcher as the last line before
 * joining all lines with newlines.
 */
module Prepare {
  import opened Wrappers
  import opened Text
  import opened Scanner
  import opened Selectors
  import opened Sanitizer
  import opened Dispatch

  /** The program text `prepare` emits for a resolved dispatch table. */
  function Emitted(lines: seq<string>, entries: seq<Entry>): string {
    Join("\n", Sanitized(lines) + [Dispatcher(entries)])
  }

  /**
   * `prepare` over the already-split lines. `Err(name)` stands for the panic
   * on the first entry-point name that has no selector; nothing is emitted then.
   */
  method PrepareProgram(lines: seq<string>, selectorOf: string -> Option<string>)
    returns (r: Result<string, string>)
    ensures r.Err? <==> exists i :: 0 <= i < |EntryPoints(lines)| && selectorOf(EntryPoints(lines)[i]).None?
    ensures r.Err? ==> r.error in EntryPoints(lines) && selectorOf(r.error).None?
    ensures r.Err? ==>
              exists i :: 0 <= i < |EntryPoints(lines)| && EntryPoints(lines)[i] == r.error &&
                          forall j :: 0 <= j < i ==> selectorOf(EntryPoints(lines)[j]).Some?
    ensures r.Ok? ==> ResolveSelectors(EntryPoints(lines), selectorOf).Ok?
    ensures r.Ok? ==> r.value == Emitted(lines, ResolveSelectors(EntryPoints(lines), selectorOf).value)
  {
    var names := ScanEntryPoints(lines);
    var resolved := ResolveSelectors(names, selectorOf);
    if resolved.Err? {
      return Err(resolved.error);
    }
    var entries := resolved.value;
    var dispatchCalls := Join("\n", Clauses(entries));
    var updatedLines := Sanitize(lines);
    var main := Header + dispatchCalls + Footer;
    updatedLines := updatedLines + [main];
    r := Ok(Join("\n", updatedLines));
  }

  /**
   * The emitted program is the sanitized lines joined by newlines, then a
   * newline and the dispatcher as the very last part; with no sanitized
   * lines it is the dispatcher alone.
   */
  lemma EmittedEndsWithDispatcher(lines: seq<string>, entries: seq<Entry>)
    ensures Sanitized(lines) != [] ==>
              Emitted(lines, entries) == Join("\n", Sanitized(lines)) + "\n" + Dispatcher(entries)
    ensures Sanitized(lines) == [] ==> Emitted(lines, entries) == Dispatcher(entries)
  {
    JoinSnoc("\n", Sanitized(lines), Dispatcher(entries));
  }

  /**
   * When every selector is found, the dispatcher in the output reads back as
   * one entry per scanned name, in scan order, each with that name's own
   * selector; duplicate names give duplicate entries.
   */
  lemma DispatchTableMatchesScan(lines: seq<string>, selectorOf: string -> Option<string>)
    requires forall i :: 0 <= i < |EntryPoints(lines)| ==> selectorOf(EntryPoints(lines)[i]).Some?
    requires forall i :: 0 <= i < |EntryPoints(lines)| ==>
               Readable(Entry(selectorOf(EntryPoints(lines)[i]).value, EntryPoints(lines)[i]))
    ensures ResolveSelectors(EntryPoints(lines), selectorOf).Ok?
    ensures var entries := ResolveSelectors(EntryPoints(lines), selectorOf).value;
      ParseDispatcher(Dispatcher(entries)) == Some(entries)
      && |entries| == |EntryPoints(lines)|
      && forall i :: 0 <= i < |entries| ==>
           entries[i].name == EntryPoints(lines)[i] && Some(entries[i].selector) == selectorOf(entries[i].name)
  {
    var entries := ResolveSelectors(EntryPoints(lines), selectorOf).value;
    DispatcherRoundTrip(entries);
  }

  /**
   * If no line before the first closing line declares a function, the table
   * is empty, and the program ends with the header followed directly by the
   * footer: only the panic branch is left.
   */
  lemma EmptyDispatchTable(lines: seq<string>, selectorOf: string -> Option<string>)
    requires forall i :: 0 <= i < StopIndex(lines) ==> !Contains(lines[i], FnMarker)
    ensures EntryPoints(lines) == []
    ensures ResolveSelectors(EntryPoints(lines), selectorOf) == Ok([])
    ensures Dispatcher([]) == Header + Footer
    ensures Emitted(lines, ResolveSelectors(EntryPoints(lines), selectorOf).value)
            == Join("\n", Sanitized(lines) + [Header + Footer])
  {
    ScanStopsAtClose(lines);
    NoNamesWithoutMarker(lines[..StopIndex(lines)]);
    DispatcherEmpty();
  }

  lemma {:induction false} NoNamesWithoutMarker(lines: seq<string>)
    requires forall i :: 0 <= i < |lines| ==> !Contains(lines[i], FnMarker)
    ensures NamesIn(lines) == []
    decreases |lines|
  {
    if lines != [] {
      NoMarkerNoName(lines[0]);
      NoNamesWithoutMarker(lines[1..]);
    }
  }
}
