# contract-runner `prepare`, modelled in Dafny

`prepare` (contract-runner/src/parse.rs) turns the output of `scarb expand`
for a Starknet contract into a flat Cairo program that can run without a
chain. It works in four steps over the lines of the expanded source:

1. **Entry-point scanner.** It walks the lines in order and takes the trimmed
   text between `fn ` and the next `(` on each declaration line. It stops at
   the first line that contains `}` but no `fn `.
2. **Selector pairing.** Each name is paired with its Starknet selector. If a
   selector cannot be computed, `prepare` panics.
3. **Line sanitizer.** A loop with one skip counter handles each line by the
   first rule that matches:
   - comment out the line while a skip is open;
   - comment out ABI markers;
   - for the fee-metering call, retract the previous line, comment out this
     one and the next;
   - add `pub ` to `mod` and wrapper lines;
   - comment out `System` and `core::gas` references;
   - after `impl ContractStateEventEmitter`, comment out everything else.

   If a skip is still open at the end, it adds a closing `}}`.
4. **Dispatcher.** It writes a fixed header, then one
   `if call.selector == <selector> {<wrapper of name>(call.calldata)} else `
   clause per entry, joined by newlines, then a fixed footer that panics on an
   unknown selector. This text becomes the last line, and all lines are joined
   with `\n`.

The project has one module per step, plus two helper modules:

| file | module | what |
|---|---|---|
| wrappers.dfy | `Wrappers` | `Option`, `Result` |
| text.dfy | `Text` | `str::find`, `str::contains`, `str::trim`, `join`, and `Split`, the inverse of `join` |
| scanner.dfy | `Scanner` | the scanning loop (`ScanEntryPoints`), its specification `EntryPoints`, and the stop and extraction rules |
| selectors.dfy | `Selectors` | the pairing of names with selectors |
| sanitizer.dfy | `Sanitizer` | the sanitizing loop (`Sanitize`), its specification `Step`/`RunFrom`/`Sanitized`, and the rules as lemmas |
| dispatch.dfy | `Dispatch` | the header, footer and clauses, and a parser that reads a dispatcher back |
| prepare.dfy | `Prepare` | `prepare` itself (`PrepareProgram`) and end-to-end lemmas |

The two loops of the source are methods that carry loop invariants. Each is
proved equal to a specification function, and the rules are proved as lemmas
about that function. The selector hash comes from an external crate, so it is
a parameter `selectorOf: string -> Option<string>`. `None` stands for the
failure that makes `expect` panic, and `prepare`'s panic is modelled as
`Err(name)`, where `name` is the first name that has no selector.

The code is followed wherever it departs from the intended design:
- After `impl ContractStateEventEmitter`, the remaining lines are commented
  out, not dropped. This is because the counter is set to `u64::MAX` and feeds
  the first branch (parse.rs:102-105, 122). In this case `}}` is appended
  too (parse.rs:128-130).
- The sanitizer state is one counter (`0`, `1` or close to `u64::MAX`), not a
  three-way state.
- Duplicate entry-point names are not rejected. Each one gets its own clause.
- The metering rule's retraction is `Vec::pop`. On an empty output it does
  nothing.
- A line with both `fn ` and `}` does not stop the scan.

## Model

| member | source | states |
|---|---|---|
| `Text.FindSpec` | contract-runner/src/parse.rs:60-62 | `find` returns the first index at which the pattern occurs, and `None` exactly when it occurs nowhere; `contains` is `find` succeeding |
| `Text.TrimSpec` | contract-runner/src/parse.rs:63 | `trim` gives the infix of the text that is left when only whitespace is cut from both ends, and it neither starts nor ends with whitespace |
| `Text.SplitJoin` | contract-runner/src/parse.rs:95 | splitting on `\n` undoes joining with `\n` when no piece holds a newline |
| `Text.JoinSnoc` | contract-runner/src/parse.rs:172-174 | joining one more line adds it after a separator, or alone when there was nothing |
| `Scanner.NameOfSpan` | contract-runner/src/parse.rs:60-65 | a line gives a name exactly when a `(` follows its first `fn `; the `(` lies at least 3 characters after the `fn `, so the slice is valid, and the name is the trimmed text strictly between them |
| `Scanner.ScanStopsAtClose` | contract-runner/src/parse.rs:59-70 | the scan gives the names of the lines before the first line with `}` and no `fn `, in encounter order, one per line that has a `(` after `fn ` |
| `Scanner.ScanIgnoresLaterLines` | contract-runner/src/parse.rs:67-69 | once a stopping line has been met, no later line changes the scan |
| `Scanner.ScanLength` | contract-runner/src/parse.rs:59-70 | there are at most as many names as lines before the stop |
| `Scanner.ScanEntryPoints` | contract-runner/src/parse.rs:57-70 | the scanning loop, with its `break`, returns exactly `EntryPoints(lines)` |
| `Selectors.ResolveSelectors` | contract-runner/src/parse.rs:72-82 | succeeds exactly when every name has a selector, and then gives entry `i` as (selector of name `i`, name `i`); otherwise it fails on the first name without one and produces no partial table |
| `Sanitizer.Retract` | contract-runner/src/parse.rs:113 | `pop` removes the last line, or nothing when the output is empty |
| `Sanitizer.PriorityOrder` | contract-runner/src/parse.rs:101-126 | what input line `k` does to the run, branch by branch in the order they are tried: a skip in progress comments it out and counts down whatever it holds; then an ABI marker is commented out, even on a `mod` or metering line; then the metering call retracts the previous line and opens a one-line skip, even on a `mod` line; then `mod`/wrapper lines get `pub `, even when they name `System` or `core::gas`; then runtime references are commented out; only then does the event emitter open the skip to the end, so an event-emitter line that also names `mod`, `System` or `core::gas` never opens it; any other line is kept |
| `Sanitizer.SanitizedForms` | contract-runner/src/parse.rs:101-130 | every output line except a final `}}` is some input line verbatim, as `"//" + line`, or as `"pub " + line` |
| `Sanitizer.SanitizedLength` | contract-runner/src/parse.rs:101-130 | output length + effective pops = input length + (1 if `}}` was appended) |
| `Sanitizer.SanitizedWithoutSkips` | contract-runner/src/parse.rs:106-125 | without metering or event-emitter lines, output line `i` is input line `i` rewritten by its own rule and no `}}` is added |
| `Sanitizer.MeteringRule` | contract-runner/src/parse.rs:102-115 | a metering line met with no skip open removes the previous output line (if any), is commented out, and comments out exactly the next line whatever it holds, leaving the counter at 0; as the last line it leaves the output closed by `}}` |
| `Sanitizer.EventEmitterRule` | contract-runner/src/parse.rs:120-130 | after the event-emitter line, every later line is emitted as `"//" + line`, none is dropped, and `}}` closes the output |
| `Sanitizer.CounterFitsU64` | contract-runner/src/parse.rs:99-122 | the skip counter always stays between 0 and `u64::MAX`, so the `u64` never wraps |
| `Sanitizer.Sanitize` | contract-runner/src/parse.rs:97-130 | the sanitizing loop, with push, pop and the counter, returns exactly `Sanitized(lines)` |
| `Dispatch.ClauseRoundTrip` | contract-runner/src/parse.rs:88-92 | a clause reads back as its own (selector, name) pair |
| `Dispatch.DispatcherRoundTrip` | contract-runner/src/parse.rs:86-95 | the dispatcher of a table reads back as exactly that table: one clause per entry, in order, each guarded by its own selector and calling its own wrapper |
| `Dispatch.DispatcherEmpty` | contract-runner/src/parse.rs:132-170 | with no entries the dispatcher is the header directly followed by the footer |
| `Prepare.PrepareProgram` | contract-runner/src/parse.rs:54-175 | fails exactly when some scanned name has no selector, and then on the first such name in scan order; otherwise returns the sanitized lines followed by the dispatcher of the resolved table, joined by `\n` |
| `Prepare.EmittedEndsWithDispatcher` | contract-runner/src/parse.rs:170-174 | the output is the joined sanitized lines, a newline, and the dispatcher, or the dispatcher alone when no lines remain |
| `Prepare.DispatchTableMatchesScan` | contract-runner/src/parse.rs:72-95 | the dispatcher in the output reads back as one entry per scanned name, in scan order, each with that name's own selector |
| `Prepare.EmptyDispatchTable` | contract-runner/src/parse.rs:57-95 | with no `fn ` line before the first stopping line, the table is empty, the dispatcher is just header + footer, and the program is the sanitized lines followed by that bare dispatcher |

## Left out

- `parse` (parse.rs:4-52) is not modelled. It changes the working directory,
  runs `scarb expand`, reads and writes files, and prints; all of that is I/O.
- `get_selector_from_name` (Starknet's keccak-based selector) and the
  decimal `to_string` of the field element are not modelled. They are the
  parameter `selectorOf`.
- The `dbg!` at parse.rs:84 is left out because it prints and has no effect
  on the result.
- The `tests` module is left out because it runs the Cairo compiler and uses
  the file system.
- `str::lines` is not modelled. The input is the sequence of lines it
  produces, so the handling of CR and of a trailing newline is not covered.
- Strings are sequences of characters, not UTF-8 bytes. Byte offsets from
  `find` become character offsets, which pick out the same slices.
- The generated Cairo code is modelled only as text. Its meaning
  (deserialisation, the panic on an invalid selector) is not modelled.
- The panic of `expect` is the `Err` result, and its message text is not
  modelled.
- `Sanitizer.EventEmitterRule` is stated only for inputs of at most
  `u64::MAX` lines. With more lines the counter would run out and later lines
  would be handled normally again.
- `Dispatch.DispatcherRoundTrip` and `Prepare.DispatchTableMatchesScan` are
  stated only for selectors without blanks or newlines and names without
  newlines. This covers decimal selectors and names taken from single lines.
