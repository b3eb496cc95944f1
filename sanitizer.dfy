/**
 * The line sanitizer of `prepare`: one pass over the lines with a skip
 * counter, that comments out what only makes sense on chain (ABI markers,
 * fee metering, the system and gas runtime, the event emitter), makes modules
 * and wrappers `pub`, and keeps everything else.
 *
 * `RunFrom` and `Sanitized` specify the loop; `Sanitize` is the loop itself.
 */
module Sanitizer {
  import opened Text

  /** `u64::MAX`, the counter value that skips to the end of the file. */
  const U64Max: nat := 0xFFFF_FFFF_FFFF_FFFF

  /** The line that `prepare` appends to close a block left open by a skip. */
  const Close: string := "}}"

  /** The fee-metering call whose statement is taken out. */
  const MeteringCall: string := "core::gas::withdraw_gas_all(core::gas::get_builtin_costs())"

  /** Interface, ABI-embedding and event annotations, and the event trait. */
  predicate IsAbiMarker(line: string) {
    Contains(line, "#[starknet::interface]") || Contains(line, "#[abi(embed_v0)]")
    || Contains(line, "#[event]") || Contains(line, "starknet::Event")
  }

  predicate IsMetering(line: string) {
    Contains(line, MeteringCall)
  }

  /** Module declarations and generated wrappers, which the dispatcher must reach. */
  predicate IsPromoted(line: string) {
    Contains(line, "mod") || Contains(line, "fn __wrapper")
  }

  /** References to the hosted system or to gas. */
  predicate IsRuntimeReference(line: string) {
    Contains(line, "System") || Contains(line, "core::gas")
  }

  predicate IsEventEmitter(line: string) {
    Contains(line, "impl ContractStateEventEmitter")
  }

  /** The branch a line takes when no skip is open, the first that matches in source order. */
  datatype Rule = AbiMarker | Metering | Promotion | RuntimeReference | EventEmitter | PassThrough

  function Classify(line: string): Rule {
    if IsAbiMarker(line) then AbiMarker
    else if IsMetering(line) then Metering
    else if IsPromoted(line) then Promotion
    else if IsRuntimeReference(line) then RuntimeReference
    else if IsEventEmitter(line) then EventEmitter
    else PassThrough
  }

  function Comment(line: string): string {
    "//" + line
  }

  function Promote(line: string): string {
    "pub " + line
  }

  /** `Vec::pop` with the popped line discarded: drops the last line, if there is one. */
  function Retract(out: seq<string>): (r: seq<string>)
    ensures out == [] ==> r == []
    ensures out != [] ==> r + [out[|out| - 1]] == out
  {
    if out == [] then [] else out[..|out| - 1]
  }

  /** The lines emitted so far and the number of lines still to be commented out. */
  datatype State = State(out: seq<string>, skip: nat)

  const Init: State := State([], 0)

  /** One iteration of the sanitizing loop. */
  function Step(st: State, line: string): State {
    if st.skip > 0 then State(st.out + [Comment(line)], st.skip - 1)
    else
      match Classify(line)
      case AbiMarker => State(st.out + [Comment(line)], 0)
      case Metering => State(Retract(st.out) + [Comment(line)], 1)
      case Promotion => State(st.out + [Promote(line)], 0)
      case RuntimeReference => State(st.out + [Comment(line)], 0)
      case EventEmitter => State(st.out + [Comment(line)], U64Max)
      case PassThrough => State(st.out + [line], 0)
  }

  /** The state after running the loop over `lines` from `st`. */
  function RunFrom(st: State, lines: seq<string>): State
    decreases |lines|
  {
    if lines == [] then st else RunFrom(Step(st, lines[0]), lines[1..])
  }

  /** The sanitized lines: the loop's output, closed with `}}` if a skip is still open. */
  function Sanitized(lines: seq<string>): seq<string> {
    var st := RunFrom(Init, lines);
    if st.skip > 0 then st.out + [Close] else st.out
  }

  /** Running over two pieces in turn is running over their concatenation. */
  lemma {:induction false} RunFromAppend(st: State, a: seq<string>, b: seq<string>)
    ensures RunFrom(st, a + b) == RunFrom(RunFrom(st, a), b)
    decreases |a|
  {
    if a == [] {
      assert a + b == b;
    } else {
      assert (a + b)[0] == a[0] && (a + b)[1..] == a[1..] + b;
      RunFromAppend(Step(st, a[0]), a[1..], b);
    }
  }

  /** The state after the first `k` lines. */
  function Before(lines: seq<string>, k: nat): State
    requires k <= |lines|
  {
    RunFrom(Init, lines[..k])
  }

  /** The state after line `k` is one step from the state before it. */
  lemma StepAt(lines: seq<string>, k: nat)
    requires k < |lines|
    ensures Before(lines, k + 1) == Step(Before(lines, k), lines[k])
  {
    assert lines[..k + 1] == lines[..k] + [lines[k]];
    RunFromAppend(Init, lines[..k], [lines[k]]);
  }

  /** The rest of the run, from the state before line `k`. */
  lemma RunRest(lines: seq<string>, k: nat)
    requires k <= |lines|
    ensures RunFrom(Init, lines) == RunFrom(Before(lines, k), lines[k..])
  {
    assert lines == lines[..k] + lines[k..];
    RunFromAppend(Init, lines[..k], lines[k..]);
  }

  // ---------------------------------------------------------------------------
  // The branches, in priority order

  /**
   * What input line `k` does to the run, one clause per branch in the order
   * the branches are tried. A skip in progress wins over everything. Then an
   * ABI marker wins, even on a `mod` or metering line. Then the metering call
   * wins, even on a `mod` line. Then a `mod` or wrapper line is made `pub`,
   * even when it names `System` or `core::gas`. Then a runtime reference is
   * commented out. Only after all of these does the event emitter open the
   * skip to the end. So an event-emitter line that also names `mod`, `System`
   * or `core::gas` never opens it.
   */
  lemma PriorityOrder(lines: seq<string>, k: nat)
    requires k < |lines|
    ensures var st, l := Before(lines, k), lines[k];
      st.skip > 0 ==> Before(lines, k + 1) == State(st.out + [Comment(l)], st.skip - 1)
    ensures var st, l := Before(lines, k), lines[k];
      st.skip == 0 && IsAbiMarker(l) ==> Before(lines, k + 1) == State(st.out + [Comment(l)], 0)
    ensures var st, l := Before(lines, k), lines[k];
      st.skip == 0 && !IsAbiMarker(l) && IsMetering(l) ==>
        Before(lines, k + 1) == State(Retract(st.out) + [Comment(l)], 1)
    ensures var st, l := Before(lines, k), lines[k];
      st.skip == 0 && !IsAbiMarker(l) && !IsMetering(l) && IsPromoted(l) ==>
        Before(lines, k + 1) == State(st.out + [Promote(l)], 0)
    ensures var st, l := Before(lines, k), lines[k];
      st.skip == 0 && !IsAbiMarker(l) && !IsMetering(l) && !IsPromoted(l) && IsRuntimeReference(l) ==>
        Before(lines, k + 1) == State(st.out + [Comment(l)], 0)
    ensures var st, l := Before(lines, k), lines[k];
      st.skip == 0 && !IsAbiMarker(l) && !IsMetering(l) && !IsPromoted(l) && !IsRuntimeReference(l)
      && IsEventEmitter(l) ==>
        Before(lines, k + 1) == State(st.out + [Comment(l)], U64Max)
    ensures var st, l := Before(lines, k), lines[k];
      st.skip == 0 && !IsAbiMarker(l) && !IsMetering(l) && !IsPromoted(l) && !IsRuntimeReference(l)
      && !IsEventEmitter(l) ==>
        Before(lines, k + 1) == State(st.out + [l], 0)
    ensures var st, l := Before(lines, k), lines[k];
      st.skip == 0 && IsEventEmitter(l) && (IsPromoted(l) || IsRuntimeReference(l)) ==>
        Before(lines, k + 1).skip <= 1
    ensures var st, l := Before(lines, k), lines[k];
      st.skip == 0 && IsEventEmitter(l) && !IsMetering(l) && (IsPromoted(l) || IsRuntimeReference(l)) ==>
        Before(lines, k + 1).skip == 0
  {
    StepAt(lines, k);
  }

  // ---------------------------------------------------------------------------
  // What every output line is

  /** `o` is line `lines[i]` kept, commented out or made `pub`, for some `i`. */
  predicate RewriteOf(o: string, lines: seq<string>) {
    exists i :: 0 <= i < |lines| && (o == lines[i] || o == Comment(lines[i]) || o == Promote(lines[i]))
  }

  /** A rewrite of a line of `a` is a rewrite of a line of `a + b`. */
  lemma RewriteOfGrows(o: string, a: seq<string>, b: seq<string>)
    requires RewriteOf(o, a)
    ensures RewriteOf(o, a + b)
  {
    var i :| 0 <= i < |a| && (o == a[i] || o == Comment(a[i]) || o == Promote(a[i]));
    assert (a + b)[i] == a[i];
  }

  /**
   * One step keeps a prefix of the output and adds one line, which is the
   * current line kept, commented out or made `pub`.
   */
  lemma StepShape(st: State, line: string)
    ensures var o := Step(st, line).out;
      0 < |o| <= |st.out| + 1 && o[..|o| - 1] == st.out[..|o| - 1]
      && (o[|o| - 1] == line || o[|o| - 1] == Comment(line) || o[|o| - 1] == Promote(line))
  {
  }

  /** Every line of `out` is a rewrite of a line of `seen`. */
  predicate AllRewrites(out: seq<string>, seen: seq<string>) {
    forall j :: 0 <= j < |out| ==> RewriteOf(out[j], seen)
  }

  lemma StepForms(st: State, seen: seq<string>, line: string)
    requires AllRewrites(st.out, seen)
    ensures AllRewrites(Step(st, line).out, seen + [line])
  {
    StepShape(st, line);
    ShapeForms(st.out, Step(st, line).out, seen, line);
  }

  /** Keeping a prefix of the output and adding a rewrite of `line` keeps every line a rewrite. */
  lemma ShapeForms(out: seq<string>, next: seq<string>, seen: seq<string>, line: string)
    requires AllRewrites(out, seen)
    requires 0 < |next| <= |out| + 1 && next[..|next| - 1] == out[..|next| - 1]
    requires next[|next| - 1] == line || next[|next| - 1] == Comment(line) || next[|next| - 1] == Promote(line)
    ensures AllRewrites(next, seen + [line])
  {
    var seen' := seen + [line];
    var n := |next| - 1;
    forall j | 0 <= j < |next| ensures RewriteOf(next[j], seen') {
      if j < n {
        assert next[j] == next[..n][j] == out[j];
        RewriteOfGrows(out[j], seen, [line]);
      } else {
        assert seen'[|seen|] == line;
      }
    }
  }

  lemma {:induction false} RunFromForms(st: State, seen: seq<string>, lines: seq<string>)
    requires AllRewrites(st.out, seen)
    ensures AllRewrites(RunFrom(st, lines).out, seen + lines)
    decreases |lines|
  {
    if lines == [] {
      assert seen + lines == seen;
    } else {
      StepForms(st, seen, lines[0]);
      RunFromForms(Step(st, lines[0]), seen + [lines[0]], lines[1..]);
      assert seen + [lines[0]] + lines[1..] == seen + lines;
    }
  }

  /**
   * Every sanitized line, apart from a closing `}}` at the end, is some input
   * line verbatim, commented out with `//` or prefixed with `pub `.
   */
  lemma SanitizedForms(lines: seq<string>)
    ensures forall j :: 0 <= j < |Sanitized(lines)| ==>
              RewriteOf(Sanitized(lines)[j], lines) || (j == |Sanitized(lines)| - 1 && Sanitized(lines)[j] == Close)
  {
    RunFromForms(Init, [], lines);
    assert [] + lines == lines;
  }

  // ---------------------------------------------------------------------------
  // Length accounting

  /** How many lines the metering rule removes again: one per metering line met with output to pop. */
  function Retractions(st: State, lines: seq<string>): nat
    decreases |lines|
  {
    if lines == [] then 0
    else
      (if st.skip == 0 && Classify(lines[0]) == Metering && st.out != [] then 1 else 0)
      + Retractions(Step(st, lines[0]), lines[1..])
  }

  lemma {:induction false} RunFromLength(st: State, lines: seq<string>)
    ensures |RunFrom(st, lines).out| + Retractions(st, lines) == |st.out| + |lines|
    decreases |lines|
  {
    if lines != [] {
      RunFromLength(Step(st, lines[0]), lines[1..]);
    }
  }

  /**
   * Each input line adds one output line, each effective retraction removes
   * one, and the closing `}}` adds one when a skip is still open.
   */
  lemma SanitizedLength(lines: seq<string>)
    ensures |Sanitized(lines)| + Retractions(Init, lines)
            == |lines| + (if RunFrom(Init, lines).skip > 0 then 1 else 0)
  {
    RunFromLength(Init, lines);
  }

  // ---------------------------------------------------------------------------
  // Lines that involve no skip

  /** What a line becomes when no skip is open and it opens none. */
  function Rewrite(line: string): string {
    match Classify(line)
    case Promotion => Promote(line)
    case PassThrough => line
    case _ => Comment(line)
  }

  /** A line that opens a skip: a metering call or the event emitter. */
  predicate OpensSkip(line: string) {
    Classify(line) == Metering || Classify(line) == EventEmitter
  }

  lemma StepNoSkip(st: State, line: string)
    requires st.skip == 0 && !OpensSkip(line)
    ensures Step(st, line) == State(st.out + [Rewrite(line)], 0)
  {
  }

  lemma {:induction false} RunFromNoSkip(st: State, lines: seq<string>)
    requires st.skip == 0
    requires forall i :: 0 <= i < |lines| ==> !OpensSkip(lines[i])
    ensures RunFrom(st, lines) == State(st.out + seq(|lines|, i requires 0 <= i < |lines| => Rewrite(lines[i])), 0)
    decreases |lines|
  {
    if lines != [] {
      StepNoSkip(st, lines[0]);
      RunFromNoSkip(Step(st, lines[0]), lines[1..]);
      var mapped := seq(|lines|, i requires 0 <= i < |lines| => Rewrite(lines[i]));
      var rest := seq(|lines| - 1, i requires 0 <= i < |lines| - 1 => Rewrite(lines[1..][i]));
      assert mapped == [Rewrite(lines[0])] + rest;
    }
  }

  /**
   * On input without a metering call or an event emitter, the sanitizer
   * rewrites each line on its own: output line `i` comes from input line `i`,
   * and no `}}` is added.
   */
  lemma SanitizedWithoutSkips(lines: seq<string>)
    requires forall i :: 0 <= i < |lines| ==> !OpensSkip(lines[i])
    ensures |Sanitized(lines)| == |lines|
    ensures forall i :: 0 <= i < |lines| ==> Sanitized(lines)[i] == Rewrite(lines[i])
  {
    RunFromNoSkip(Init, lines);
  }

  // ---------------------------------------------------------------------------
  // The fee-metering rule

  /**
   * A metering line met with no skip open takes back the line before it, is
   * itself commented out, and comments out exactly the next line, whatever it
   * holds; after that the counter is back to zero. When it is the last line,
   * the output is closed with `}}`.
   */
  lemma MeteringRule(lines: seq<string>, k: nat)
    requires k < |lines|
    requires Before(lines, k).skip == 0
    requires IsMetering(lines[k]) && !IsAbiMarker(lines[k])
    ensures k + 1 < |lines| ==>
              Before(lines, k + 2)
              == State(Retract(Before(lines, k).out) + [Comment(lines[k]), Comment(lines[k + 1])], 0)
    ensures k + 1 == |lines| ==>
              Sanitized(lines) == Retract(Before(lines, k).out) + [Comment(lines[k]), Close]
  {
    StepAt(lines, k);
    if k + 1 < |lines| {
      StepAt(lines, k + 1);
    } else {
      RunRest(lines, k + 1);
    }
  }

  // ---------------------------------------------------------------------------
  // The event-emitter rule

  /** Every line commented out, in order. */
  function CommentAll(lines: seq<string>): (r: seq<string>)
    ensures |r| == |lines|
  {
    seq(|lines|, i requires 0 <= i < |lines| => Comment(lines[i]))
  }

  lemma {:induction false} RunFromSkipping(st: State, lines: seq<string>)
    requires |lines| < st.skip
    ensures RunFrom(st, lines) == State(st.out + CommentAll(lines), st.skip - |lines|)
    decreases |lines|
  {
    if lines != [] {
      RunFromSkipping(Step(st, lines[0]), lines[1..]);
      assert CommentAll(lines) == [Comment(lines[0])] + CommentAll(lines[1..]);
    }
  }

  /**
   * After the event-emitter line, met with no skip open, every later line is
   * commented out (none is dropped), and the output is closed with `}}`. The
   * counter starts at `u64::MAX`, so this holds for any input shorter than that.
   */
  lemma EventEmitterRule(lines: seq<string>, k: nat)
    requires k < |lines| <= U64Max
    requires Before(lines, k).skip == 0
    requires Classify(lines[k]) == EventEmitter
    ensures Sanitized(lines)
            == Before(lines, k).out + [Comment(lines[k])] + CommentAll(lines[k + 1..]) + [Close]
  {
    StepAt(lines, k);
    RunRest(lines, k + 1);
    RunFromSkipping(Before(lines, k + 1), lines[k + 1..]);
  }

  // ---------------------------------------------------------------------------
  // The counter stays a u64

  lemma {:induction false} RunFromBounded(st: State, lines: seq<string>)
    requires st.skip <= U64Max
    ensures RunFrom(st, lines).skip <= U64Max
    decreases |lines|
  {
    if lines != [] {
      RunFromBounded(Step(st, lines[0]), lines[1..]);
    }
  }

  /** The counter never exceeds `u64::MAX` and never goes below zero, so the u64 never wraps. */
  lemma CounterFitsU64(lines: seq<string>, k: nat)
    requires k <= |lines|
    ensures Before(lines, k).skip <= U64Max
  {
    RunFromBounded(Init, lines[..k]);
  }

  // ---------------------------------------------------------------------------
  // The loop

  /** The sanitizing loop of `prepare`, with its closing `}}`. */
  method Sanitize(lines: seq<string>) returns (updated: seq<string>)
    ensures updated == Sanitized(lines)
  {
    updated := [];
    var skipLines: nat := 0;
    var i := 0;
    while i < |lines|
      invariant 0 <= i <= |lines|
      invariant RunFrom(State(updated, skipLines), lines[i..]) == RunFrom(Init, lines)
    {
      var line := lines[i];
      ghost var before := State(updated, skipLines);
      assert lines[i..][0] == line && lines[i..][1..] == lines[i + 1..];
      if skipLines > 0 {
        updated := updated + [Comment(line)];
        skipLines := skipLines - 1;
      } else if IsAbiMarker(line) {
        updated := updated + [Comment(line)];
      } else if IsMetering(line) {
        if updated != [] {
          updated := updated[..|updated| - 1];
        }
        updated := updated + [Comment(line)];
        skipLines := 1;
      } else if IsPromoted(line) {
        updated := updated + [Promote(line)];
      } else if IsRuntimeReference(line) {
        updated := updated + [Comment(line)];
      } else if IsEventEmitter(line) {
        updated := updated + [Comment(line)];
        skipLines := U64Max;
      } else {
        updated := updated + [line];
      }
      assert State(updated, skipLines) == Step(before, line);
      i := i + 1;
    }
    if skipLines > 0 {
      updated := updated + [Close];
    }
  }
}
