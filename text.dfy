/**
 * The string operations `prepare` relies on, over strings of characters:
 * `str::contains`, `str::find`, `str::trim`, `[String]::join`, and the
 * inverse of joining, splitting on one character.
 */
module Text {
  import opened Wrappers

  /** `pat` occurs in `s` starting at index `i`. */
  predicate OccursAt(s: string, pat: string, i: nat) {
    i + |pat| <= |s| && s[i..i + |pat|] == pat
  }

  /** `i` is the first index at which `pat` occurs in `s`. */
  predicate FirstOccurrence(s: string, pat: string, i: nat) {
    OccursAt(s, pat, i) && forall j: nat :: j < i ==> !OccursAt(s, pat, j)
  }

  /** The first occurrence of `pat` at or after `from`, as `str::find` does from 0. */
  function FindFrom(s: string, pat: string, from: nat): (r: Option<nat>)
    ensures r.Some? ==> from <= r.value && r.value + |pat| <= |s|
    decreases |s| - from
  {
    if |s| < from + |pat| then None
    else if s[from..from + |pat|] == pat then Some(from)
    else FindFrom(s, pat, from + 1)
  }

  /** `str::find`: the index of the first occurrence of `pat` in `s`, if any. */
  function Find(s: string, pat: string): (r: Option<nat>)
    ensures r.Some? ==> r.value + |pat| <= |s|
  {
    FindFrom(s, pat, 0)
  }

  /** `FindFrom` finds the first occurrence at or after `from`, and finds none only if there is none. */
  lemma {:induction false} FindFromSpec(s: string, pat: string, from: nat)
    ensures var r := FindFrom(s, pat, from);
      (r.Some? ==> OccursAt(s, pat, r.value) && forall j: nat :: from <= j < r.value ==> !OccursAt(s, pat, j))
      && (r.None? ==> forall j: nat :: from <= j ==> !OccursAt(s, pat, j))
    decreases |s| - from
  {
    if |s| >= from + |pat| && s[from..from + |pat|] != pat {
      FindFromSpec(s, pat, from + 1);
    }
  }

  /** `Find` gives the first occurrence of `pat`, and `None` exactly when there is none. */
  lemma FindSpec(s: string, pat: string)
    ensures Find(s, pat).Some? <==> exists i: nat :: OccursAt(s, pat, i)
    ensures Find(s, pat).Some? ==> FirstOccurrence(s, pat, Find(s, pat).value)
  {
    FindFromSpec(s, pat, 0);
  }

  /** `str::contains`. */
  predicate Contains(s: string, pat: string) {
    Find(s, pat).Some?
  }

  /** A character occurs in `s` at `i` exactly when `s[i]` is that character. */
  lemma OccursAtChar(s: string, c: char, i: nat)
    ensures OccursAt(s, [c], i) <==> i < |s| && s[i] == c
  {
  }

  /** A string without `c` has no occurrence of `[c]`. */
  lemma FindAbsentChar(s: string, c: char)
    requires c !in s
    ensures Find(s, [c]) == None
  {
    forall i: nat ensures !OccursAt(s, [c], i) {
      OccursAtChar(s, c, i);
    }
    FindSpec(s, [c]);
  }

  /** In `a + [c] + b`, where `a` has no `c`, the first `c` is the one after `a`. */
  lemma FindFirstChar(a: string, c: char, b: string)
    requires c !in a
    ensures Find(a + [c] + b, [c]) == Some(|a|)
  {
    var s := a + [c] + b;
    OccursAtChar(s, c, |a|);
    FindSpec(s, [c]);
    var r := Find(s, [c]);
    OccursAtChar(s, c, r.value);
  }

  /** Rust's `char::is_whitespace`: the Unicode White_Space property. */
  predicate IsWhitespace(c: char) {
    ('\t' <= c <= '\r') || c == ' ' || c == '\U{0085}' || c == '\U{00A0}' || c == '\U{1680}'
    || ('\U{2000}' <= c <= '\U{200A}') || c == '\U{2028}' || c == '\U{2029}'
    || c == '\U{202F}' || c == '\U{205F}' || c == '\U{3000}'
  }

  /** `str::trim_start`: drops the leading whitespace. */
  function TrimStart(s: string): string {
    if s != [] && IsWhitespace(s[0]) then TrimStart(s[1..]) else s
  }

  /** `str::trim_end`: drops the trailing whitespace. */
  function TrimEnd(s: string): string {
    if s != [] && IsWhitespace(s[|s| - 1]) then TrimEnd(s[..|s| - 1]) else s
  }

  /** `str::trim`: drops whitespace at both ends. */
  function Trim(s: string): string {
    TrimEnd(TrimStart(s))
  }

  /** What `TrimStart` removes is all whitespace, and what it keeps does not start with any. */
  lemma {:induction false} TrimStartSpec(s: string)
    ensures var r := TrimStart(s);
      |r| <= |s| && r == s[|s| - |r|..] && (r == [] || !IsWhitespace(r[0]))
      && forall k :: 0 <= k < |s| - |r| ==> IsWhitespace(s[k])
    decreases |s|
  {
    if s != [] && IsWhitespace(s[0]) {
      TrimStartSpec(s[1..]);
    }
  }

  /** What `TrimEnd` removes is all whitespace, and what it keeps does not end with any. */
  lemma {:induction false} TrimEndSpec(s: string)
    ensures var r := TrimEnd(s);
      |r| <= |s| && r == s[..|r|] && (r == [] || !IsWhitespace(r[|r| - 1]))
      && forall k :: |r| <= k < |s| ==> IsWhitespace(s[k])
    decreases |s|
  {
    if s != [] && IsWhitespace(s[|s| - 1]) {
      TrimEndSpec(s[..|s| - 1]);
    }
  }

  /** `r` is `s` with whitespace `s[..a]` cut off the front and whitespace cut off the back. */
  predicate TrimmedAt(s: string, a: nat, r: string) {
    a + |r| <= |s| && s[a..a + |r|] == r
    && (forall k :: 0 <= k < a ==> IsWhitespace(s[k]))
    && (forall k :: a + |r| <= k < |s| ==> IsWhitespace(s[k]))
  }

  /**
   * `Trim(s)` is the infix of `s` left when the whitespace at both ends is cut
   * off: it neither starts nor ends with whitespace.
   */
  lemma TrimSpec(s: string)
    ensures var r := Trim(s);
      (r == [] || (!IsWhitespace(r[0]) && !IsWhitespace(r[|r| - 1])))
      && exists a: nat :: TrimmedAt(s, a, r)
  {
    TrimStartSpec(s);
    TrimEndSpec(TrimStart(s));
    assert TrimmedAt(s, |s| - |TrimStart(s)|, Trim(s));
  }

  /** `[String]::join(sep)`: the strings in order, with `sep` between neighbours. */
  function Join(sep: string, xs: seq<string>): string {
    if xs == [] then ""
    else if |xs| == 1 then xs[0]
    else xs[0] + sep + Join(sep, xs[1..])
  }

  /** Joining one more string appends it after a separator, or alone when there was nothing. */
  lemma {:induction false} JoinSnoc(sep: string, xs: seq<string>, y: string)
    ensures Join(sep, xs + [y]) == if xs == [] then y else Join(sep, xs) + sep + y
    decreases |xs|
  {
    if |xs| > 1 {
      assert (xs + [y])[1..] == xs[1..] + [y];
      JoinSnoc(sep, xs[1..], y);
    } else if |xs| == 1 {
      assert (xs + [y])[1..] == [y];
    }
  }

  /** Cuts `s` at every `c`; there is always at least one piece, as with `str::split`. */
  function Split(s: string, c: char): (r: seq<string>)
    ensures |r| > 0
    decreases |s|
  {
    match Find(s, [c])
    case None => [s]
    case Some(i) => [s[..i]] + Split(s[i + 1..], c)
  }

  /** Splitting on `c` undoes joining with `c` when no piece holds a `c`. */
  lemma {:induction false} SplitJoin(xs: seq<string>, c: char)
    requires |xs| > 0
    requires forall k :: 0 <= k < |xs| ==> c !in xs[k]
    ensures Split(Join([c], xs), c) == xs
    decreases |xs|
  {
    if |xs| == 1 {
      FindAbsentChar(xs[0], c);
    } else {
      var s := Join([c], xs);
      var tail := Join([c], xs[1..]);
      assert s == xs[0] + [c] + tail;
      FindFirstChar(xs[0], c, tail);
      assert s[..|xs[0]|] == xs[0];
      assert s[|xs[0]| + 1..] == tail;
      SplitJoin(xs[1..], c);
      assert xs == [xs[0]] + xs[1..];
    }
  }
}
