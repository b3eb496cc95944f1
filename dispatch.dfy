/**
 * The dispatcher text `prepare` appends to the sanitized contract: a fixed
 * header, one `if call.selector == ... {...} else ` clause per table entry
 * joined by newlines, and a fixed footer that panics on an unknown selector.
 *
 * `ParseDispatcher` reads a dispatcher back into its table; the round trip
 * shows that every entry is rendered as exactly one clause, in order, with
 * its own selector guarding a call to its own wrapper.
 */
module Dispatch {
  import opened Wrappers
  import opened Text
  import opened Selectors

  /** The text before the clauses: the call records, `main` and its loop head. */
  const Header: string :=
    "\n" +
    "        #[derive(Serde, Drop)]\n" +
    "        struct Calls {\n" +
    "            selector: felt252,\n" +
    "            calldata: Span<felt252>,\n" +
    "        }\n" +
    "\n" +
    "        #[derive(Serde, Drop)]\n" +
    "        struct Args {\n" +
    "            calls: Array<Calls>,\n" +
    "        }\n" +
    "\n" +
    "        fn main(input: Array<felt252>) -> Array<felt252> {\n" +
    "            let mut input = input.span();\n" +
    "            let mut args = Serde::<Args>::deserialize(ref input).unwrap();\n" +
    "\n" +
    "            let mut r = array![];\n" +
    "\n" +
    "            loop {\n" +
    "                let call = match args.calls.pop_front() {\n" +
    "                    Option::Some(call) => call,\n" +
    "                    Option::None => { break; },\n" +
    "                };\n" +
    "\n" +
    "                let ret = "

  /** The text after the clauses: the final `else` block that panics, and the loop's end. */
  const Footer: string :=
    "{\n" +
    "                    panic(array!['Invalid selector']);\n" +
    "                    array![].span()\n" +
    "                };\n" +
    "\n" +
    "                r.append_span(ret);\n" +
    "            };\n" +
    "\n" +
    "            r\n" +
    "        }\n" +
    "    "

  /** The start of a clause, before the selector. */
  const GuardPrefix: string := "if call.selector == "
  /** The path of the generated wrapper, before the entry point's name. */
  const WrapperPath: string := "cairo_ex::" + "HelloStarknet::" + "__wrapper__" + "HelloStarknetImpl__"
  /** Between the selector and the name: the opening of the clause's block and the wrapper's path. */
  const WrapperPrefix: string := " {" + WrapperPath
  /** The end of a clause, after the name: the call's argument, the block's end and `else`. */
  const CallSuffix: string := "(call.calldata)} else "

  /** The clause that routes calls with `e.selector` to the wrapper of `e.name`. */
  function Clause(e: Entry): string {
    GuardPrefix + e.selector + WrapperPrefix + e.name + CallSuffix
  }

  /** One clause per entry, in table order. */
  function Clauses(entries: seq<Entry>): (r: seq<string>)
    ensures |r| == |entries|
  {
    seq(|entries|, i requires 0 <= i < |entries| => Clause(entries[i]))
  }

  /** The complete dispatcher source text. */
  function Dispatcher(entries: seq<Entry>): string {
    Header + Join("\n", Clauses(entries)) + Footer
  }

  /** An entry the parser can read back: a selector without blanks or newlines, a name without newlines. */
  predicate Readable(e: Entry) {
    ' ' !in e.selector && '\n' !in e.selector && '\n' !in e.name
  }

  /** Reads one clause back into its entry. */
  function ParseClause(s: string): Option<Entry> {
    if |s| < |GuardPrefix| + |CallSuffix| || s[..|GuardPrefix|] != GuardPrefix
       || s[|s| - |CallSuffix|..] != CallSuffix
    then None
    else
      var middle := s[|GuardPrefix|..|s| - |CallSuffix|];
      var blank := Find(middle, " ");
      match blank
      case None => None
      case Some(i) =>
        var call := middle[i..];
        if |call| < |WrapperPrefix| || call[..|WrapperPrefix|] != WrapperPrefix then None
        else Some(Entry(middle[..i], call[|WrapperPrefix|..]))
  }

  /** Reads a sequence of clauses back into entries; fails if any clause is unreadable. */
  function ParseClauses(lines: seq<string>): Option<seq<Entry>> {
    if lines == [] then Some([])
    else
      match ParseClause(lines[0])
      case None => None
      case Some(e) =>
        match ParseClauses(lines[1..])
        case None => None
        case Some(es) => Some([e] + es)
  }

  /** Reads a dispatcher back into its table. */
  function ParseDispatcher(text: string): Option<seq<Entry>> {
    if |text| < |Header| + |Footer| || text[..|Header|] != Header
       || text[|text| - |Footer|..] != Footer
    then None
    else
      var body := text[|Header|..|text| - |Footer|];
      if body == "" then Some([]) else ParseClauses(Split(body, '\n'))
  }

  /** A clause reads back as its own entry. */
  lemma ClauseRoundTrip(e: Entry)
    requires ' ' !in e.selector
    ensures ParseClause(Clause(e)) == Some(e)
  {
    var s := Clause(e);
    assert s[..|GuardPrefix|] == GuardPrefix;
    assert s[|s| - |CallSuffix|..] == CallSuffix;
    var middle := s[|GuardPrefix|..|s| - |CallSuffix|];
    assert middle == e.selector + WrapperPrefix + e.name;
    assert middle == e.selector + [' '] + (WrapperPrefix[1..] + e.name);
    FindFirstChar(e.selector, ' ', WrapperPrefix[1..] + e.name);
    assert Find(middle, " ") == Some(|e.selector|);
    assert middle[..|e.selector|] == e.selector;
    var call := middle[|e.selector|..];
    assert call == WrapperPrefix + e.name;
    assert call[..|WrapperPrefix|] == WrapperPrefix;
    assert call[|WrapperPrefix|..] == e.name;
  }

  /** A clause of a readable entry has no line break. */
  lemma ClauseOneLine(e: Entry)
    requires Readable(e)
    ensures '\n' !in Clause(e)
  {
  }

  /** The clauses of a table read back as that table. */
  lemma {:induction false} ClausesRoundTrip(entries: seq<Entry>)
    requires forall i :: 0 <= i < |entries| ==> ' ' !in entries[i].selector
    ensures ParseClauses(Clauses(entries)) == Some(entries)
    decreases |entries|
  {
    if entries != [] {
      ClauseRoundTrip(entries[0]);
      assert Clauses(entries)[1..] == Clauses(entries[1..]);
      ClausesRoundTrip(entries[1..]);
      assert entries == [entries[0]] + entries[1..];
    }
  }

  /**
   * The dispatcher of a table reads back as exactly that table: one clause per
   * entry, in order, each guarded by its own selector and calling its own wrapper.
   */
  lemma DispatcherRoundTrip(entries: seq<Entry>)
    requires forall i :: 0 <= i < |entries| ==> Readable(entries[i])
    ensures ParseDispatcher(Dispatcher(entries)) == Some(entries)
  {
    var body := Join("\n", Clauses(entries));
    ParseFraming(body);
    BodyRoundTrip(entries);
  }

  /** The clause text of a table, split into lines and parsed, gives the table back. */
  lemma BodyRoundTrip(entries: seq<Entry>)
    requires forall i :: 0 <= i < |entries| ==> Readable(entries[i])
    ensures var body := Join("\n", Clauses(entries));
      (if body == "" then Some([]) else ParseClauses(Split(body, '\n'))) == Some(entries)
  {
    var clauses := Clauses(entries);
    ClausesRoundTrip(entries);
    if entries != [] {
      forall k | 0 <= k < |clauses| ensures '\n' !in clauses[k] {
        ClauseOneLine(entries[k]);
      }
      SplitJoin(clauses, '\n');
      JoinNonEmpty(clauses);
    }
  }

  /** With no entries the dispatcher is the header directly followed by the footer. */
  lemma DispatcherEmpty()
    ensures Dispatcher([]) == Header + Footer
  {
  }

  /** The parser finds the clause text between the header and the footer. */
  lemma ParseFraming(body: string)
    ensures ParseDispatcher(Header + body + Footer)
            == if body == "" then Some([]) else ParseClauses(Split(body, '\n'))
  {
  }

  /** Joining clauses gives a non-empty text when there is at least one clause. */
  lemma JoinNonEmpty(clauses: seq<string>)
    requires clauses != [] && forall k :: 0 <= k < |clauses| ==> |clauses[k]| >= |GuardPrefix|
    ensures Join("\n", clauses) != ""
  {
  }
}
