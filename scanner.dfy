/**
 * The entry-point scanner of `prepare`: it walks the expanded source line by
 * line and collects the name of every function declared before the interface
 * block closes.
 */
module Scanner {
  import opened Wrappers
  import opened Text

  /** The marker of a function declaration. */
  const FnMarker: string := "fn "

  /** A line that ends the scan: it closes a block and declares no function. */
  predicate Stops(line: string) {
    !Contains(line, FnMarker) && Contains(line, "}")
  }

  /**
   * `p` is the first occurrence of `fn ` in `line` and `q` the first `(` at or
   * after it: the name lies between the two.
   */
  predicate NameSpan(line: string, p: nat, q: nat) {
    FirstOccurrence(line, FnMarker, p) && p <= q < |line| && line[q] == '('
    && forall j :: p <= j < q ==> line[j] != '('
  }

  /** The `(` after a `fn ` cannot lie inside the marker itself. */
  lemma NameSpanBounds(line: string, p: nat, q: nat)
    requires NameSpan(line, p, q)
    ensures p + |FnMarker| <= q
  {
  }

  /** The result of the two `find`s of the scanner, read as positions in the line. */
  lemma FindsGiveSpan(line: string, p: nat, e: nat)
    requires Find(line, FnMarker) == Some(p)
    requires Find(line[p..], "(") == Some(e)
    ensures NameSpan(line, p, p + e)
  {
    var rest := line[p..];
    FindSpec(line, FnMarker);
    FindSpec(rest, "(");
    OccursAtChar(rest, '(', e);
    forall j | p <= j < p + e ensures line[j] != '(' {
      OccursAtChar(rest, '(', j - p);
    }
  }

  /** The name a declaration line contributes, or `None` if it has no `(` after `fn `. */
  function NameOf(line: string): Option<string> {
    match Find(line, FnMarker)
    case None => None
    case Some(p) =>
      var paren := Find(line[p..], "(");
      match paren
      case None => None
      case Some(e) =>
        FindsGiveSpan(line, p, e);
        NameSpanBounds(line, p, p + e);
        Some(Trim(line[p + 3..p + e]))
  }

  /**
   * A line yields a name exactly when it has a `(` after its first `fn `, and
   * the name is the trimmed text strictly between the two.
   */
  lemma NameOfSpan(line: string)
    ensures NameOf(line).Some? <==> exists p: nat, q: nat :: NameSpan(line, p, q)
    ensures forall p: nat, q: nat :: NameSpan(line, p, q) ==>
              p + |FnMarker| <= q && NameOf(line) == Some(Trim(line[p + 3..q]))
  {
    forall p: nat, q: nat | NameSpan(line, p, q)
      ensures p + |FnMarker| <= q && NameOf(line) == Some(Trim(line[p + 3..q]))
    {
      NameSpanBounds(line, p, q);
      FindSpec(line, FnMarker);
      var f := Find(line, FnMarker);
      assert f == Some(p);
      OccursAtChar(line[p..], '(', q - p);
      FindSpec(line[p..], "(");
      var e := Find(line[p..], "(");
      assert e.Some?;
      FindsGiveSpan(line, p, e.value);
      assert p + e.value == q;
    }
    FindSpec(line, FnMarker);
    match Find(line, FnMarker)
    case None =>
    case Some(p) =>
      var paren := Find(line[p..], "(");
      match paren
      case None =>
      case Some(e) =>
        FindsGiveSpan(line, p, e);
  }

  /** The name, if any, as a sequence of zero or one names. */
  function OptionToSeq(o: Option<string>): (r: seq<string>)
    ensures |r| <= 1
  {
    match o
    case Some(n) => [n]
    case None => []
  }

  /** The names the scanner collects: specification of `ScanEntryPoints`. */
  function EntryPoints(lines: seq<string>): seq<string> {
    if lines == [] then []
    else if Contains(lines[0], FnMarker) then
      OptionToSeq(NameOf(lines[0])) + EntryPoints(lines[1..])
    else if Contains(lines[0], "}") then []
    else EntryPoints(lines[1..])
  }

  /** The names of all the lines, in order, with no stop rule. */
  function NamesIn(lines: seq<string>): (r: seq<string>)
    ensures |r| <= |lines|
  {
    if lines == [] then []
    else OptionToSeq(NameOf(lines[0])) + NamesIn(lines[1..])
  }

  /** The index of the first stopping line, or the number of lines if none stops. */
  function StopIndex(lines: seq<string>): (k: nat)
    ensures k <= |lines|
    ensures forall i :: 0 <= i < k ==> !Stops(lines[i])
    ensures k < |lines| ==> Stops(lines[k])
  {
    if lines == [] then 0
    else if Stops(lines[0]) then 0
    else 1 + StopIndex(lines[1..])
  }

  /** A line without `fn ` contributes no name. */
  lemma NoMarkerNoName(line: string)
    requires !Contains(line, FnMarker)
    ensures NameOf(line) == None
  {
  }

  /**
   * The scan is exactly the names of the lines before the first stopping line,
   * in encounter order: no line from the stopping line on contributes.
   */
  lemma {:induction false} ScanStopsAtClose(lines: seq<string>)
    ensures EntryPoints(lines) == NamesIn(lines[..StopIndex(lines)])
    decreases |lines|
  {
    if lines != [] && !Stops(lines[0]) {
      ScanStopsAtClose(lines[1..]);
      assert lines[..StopIndex(lines)][1..] == lines[1..][..StopIndex(lines[1..])];
      if !Contains(lines[0], FnMarker) {
        NoMarkerNoName(lines[0]);
      }
    }
  }

  /** Lines after a stopping line never change the scan. */
  lemma {:induction false} ScanIgnoresLaterLines(lines: seq<string>, later: seq<string>)
    requires StopIndex(lines) < |lines|
    ensures EntryPoints(lines + later) == EntryPoints(lines)
    decreases |lines|
  {
    if !Stops(lines[0]) {
      assert (lines + later)[1..] == lines[1..] + later;
      ScanIgnoresLaterLines(lines[1..], later);
    }
  }

  /** At most one name per line before the stop. */
  lemma {:induction false} ScanLength(lines: seq<string>)
    ensures |EntryPoints(lines)| <= StopIndex(lines)
    decreases |lines|
  {
    if lines != [] && !Stops(lines[0]) {
      ScanLength(lines[1..]);
    }
  }

  /** One step of the scan, from line `i` on. */
  lemma EntryPointsUnfold(lines: seq<string>, i: nat)
    requires i < |lines|
    ensures EntryPoints(lines[i..]) ==
      if Contains(lines[i], FnMarker) then OptionToSeq(NameOf(lines[i])) + EntryPoints(lines[i + 1..])
      else if Contains(lines[i], "}") then []
      else EntryPoints(lines[i + 1..])
  {
  }

  /** What the scanner's two `find`s extract is `NameOf`. */
  lemma NameOfFinds(line: string, p: nat, e: nat)
    requires Find(line, FnMarker) == Some(p)
    requires Find(line[p..], "(") == Some(e)
    ensures p + 3 <= p + e <= |line| && NameOf(line) == Some(Trim(line[p + 3..p + e]))
  {
    FindsGiveSpan(line, p, e);
    NameSpanBounds(line, p, p + e);
  }

  /**
   * The scanning loop of `prepare`: collects names until the first line that
   * has `}` but no `fn `.
   */
  method ScanEntryPoints(lines: seq<string>) returns (names: seq<string>)
    ensures names == EntryPoints(lines)
  {
    names := [];
    var i := 0;
    while i < |lines|
      invariant 0 <= i <= |lines|
      invariant names + EntryPoints(lines[i..]) == EntryPoints(lines)
    {
      var l := lines[i];
      EntryPointsUnfold(lines, i);
      if Contains(l, FnMarker) {
        match Find(l, FnMarker)
        case None =>
        case Some(start) =>
          var paren := Find(l[start..], "(");
          match paren
          case None =>
          case Some(end) =>
            NameOfFinds(l, start, end);
            var name := Trim(l[start + 3..start + end]);
            names := names + [name];
      } else if Contains(l, "}") {
        break;
      }
      i := i + 1;
    }
  }
}
