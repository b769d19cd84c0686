/** The few PHP built-ins the plugin's core relies on, with PHP's own edge cases:
    `empty` on strings, `trim`, `explode` with and without a limit, and
    `substr($s, 0, -2)`. Strings are sequences of characters. */
module Php {

  datatype Option<+T> = None | Some(value: T) {
    /** The value, or `default` when there is none (PHP's null read as a default). */
    function GetOr(default: T): T {
      match this
      case Some(v) => v
      case None => default
    }
  }

  /** `empty($s)` for a string, and its falsiness: only "" and "0" qualify. */
  predicate Empty(s: string): (b: bool)
    ensures s == "" ==> b
    ensures b ==> |s| <= 1
    ensures |s| == 1 ==> (b <==> s[0] == '0')
  {
    s == "" || s == "0"
  }

  /** A string `trim` leaves alone: no trim character at either end. */
  predicate Unpadded(s: string)
  {
    s == [] || (!IsTrimChar(s[0]) && !IsTrimChar(s[|s| - 1]))
  }

  /** The characters `trim` strips when no character list is given. */
  predicate IsTrimChar(c: char) {
    c == ' ' || c == '\t' || c == '\n' || c == '\r' || c == '\0' || c == '\U{000B}'
  }

  /** How many trim characters `ltrim` would drop from the front of `s`. */
  function LeadingTrimLength(s: string): (n: nat)
    ensures n <= |s|
    ensures forall i :: 0 <= i < n ==> IsTrimChar(s[i])
    ensures n < |s| ==> !IsTrimChar(s[n])
  {
    if s != [] && IsTrimChar(s[0]) then 1 + LeadingTrimLength(s[1..]) else 0
  }

  /** How many trim characters `rtrim` would drop from the end of `s`. */
  function TrailingTrimLength(s: string): (n: nat)
    ensures n <= |s|
    ensures forall i :: |s| - n <= i < |s| ==> IsTrimChar(s[i])
    ensures n < |s| ==> !IsTrimChar(s[|s| - 1 - n])
  {
    if s != [] && IsTrimChar(s[|s| - 1]) then 1 + TrailingTrimLength(s[..|s| - 1]) else 0
  }

  /** `trim($s)`: the slice of `s` left once the longest run of trim
      characters is cut from either end; it neither starts nor ends with one. */
  function Trim(s: string): (r: string)
    ensures LeadingTrimLength(s) + |r| <= |s|
    ensures r == s[LeadingTrimLength(s)..LeadingTrimLength(s) + |r|]
    ensures forall i :: LeadingTrimLength(s) + |r| <= i < |s| ==> IsTrimChar(s[i])
    ensures Unpadded(r)
  {
    var a := LeadingTrimLength(s);
    if a == |s| then "" else s[a..|s| - TrailingTrimLength(s)]
  }

  /** A string that neither starts nor ends with a trim character is its
      own `trim`. */
  lemma TrimUnpadded(s: string)
    requires Unpadded(s)
    ensures Trim(s) == s
  {
    if s != [] {
      assert LeadingTrimLength(s) == 0;
      assert TrailingTrimLength(s) == 0;
    }
  }

  /** `trim` only removes characters. */
  lemma TrimKeepsOut(s: string, c: char)
    requires c !in s
    ensures c !in Trim(s)
  {
    var r, a := Trim(s), LeadingTrimLength(s);
    forall k | 0 <= k < |r|
      ensures r[k] != c
    {
      assert r[k] == s[a + k];
    }
  }

  /** `explode(c, s, 2)`: the text before the first `c` and, when there is
      one, everything after it (later occurrences of `c` stay in that part). */
  function SplitFirst(s: string, c: char): (r: (string, Option<string>))
    ensures c !in r.0
    ensures r.1.None? <==> c !in s
    ensures r.1.None? ==> r.0 == s
    ensures r.1.Some? ==> s == r.0 + [c] + r.1.value
  {
    if s == [] then ("", None)
    else if s[0] == c then ("", Some(s[1..]))
    else
      var (before, after) := SplitFirst(s[1..], c);
      assert s == [s[0]] + s[1..];
      ([s[0]] + before, after)
  }

  /** Splitting `b + [c] + a` at its first `c` gives back `b` and `a`
      whenever `b` holds no `c`. */
  lemma {:induction false} SplitFirstOf(b: string, c: char, a: string)
    requires c !in b
    ensures SplitFirst(b + [c] + a, c) == (b, Some(a))
  {
    var s := b + [c] + a;
    if b == [] {
      assert s[0] == c && s[1..] == a;
    } else {
      assert s[0] == b[0] != c;
      assert s[1..] == b[1..] + [c] + a;
      SplitFirstOf(b[1..], c, a);
      assert [b[0]] + b[1..] == b;
    }
  }

  /** `implode(c, parts)`: the parts joined with `c` between neighbours. */
  function Implode(c: char, parts: seq<string>): string
  {
    if parts == [] then ""
    else if |parts| == 1 then parts[0]
    else parts[0] + [c] + Implode(c, parts[1..])
  }

  /** An imploded list starts with its first part. */
  lemma ImplodeStarts(c: char, parts: seq<string>)
    requires parts != []
    ensures |parts[0]| <= |Implode(c, parts)| && Implode(c, parts)[..|parts[0]|] == parts[0]
  {
    if |parts| > 1 {
      var rest := [c] + Implode(c, parts[1..]);
      assert Implode(c, parts) == parts[0] + rest;
    }
  }

  /** `explode(c, s)` without a limit: the maximal `c`-free pieces of `s`,
      one more than there are `c`s in `s`; joining them back gives `s`. */
  function Explode(c: char, s: string): (r: seq<string>)
    ensures |r| == multiset(s)[c] + 1
    ensures forall i :: 0 <= i < |r| ==> c !in r[i]
    ensures Implode(c, r) == s
    decreases |s|
  {
    match SplitFirst(s, c)
    case (before, None) => [before]
    case (before, Some(after)) =>
      var rest := Explode(c, after);
      assert multiset(s) == multiset(before) + multiset([c]) + multiset(after);
      [before] + rest
  }

  /** The other round trip: cutting joined `c`-free pieces at every `c`
      recovers exactly those pieces. */
  lemma {:induction false} ExplodeImplode(c: char, parts: seq<string>)
    requires |parts| >= 1
    requires forall i :: 0 <= i < |parts| ==> c !in parts[i]
    ensures Explode(c, Implode(c, parts)) == parts
  {
    if |parts| > 1 {
      SplitFirstOf(parts[0], c, Implode(c, parts[1..]));
      ExplodeImplode(c, parts[1..]);
    }
  }

  /** `substr($s, 0, -2)`: everything but the last two characters. */
  function DropLastTwo(s: string): (r: string)
    ensures |s| >= 2 ==> r + s[|s| - 2..] == s
    ensures |s| < 2 ==> r == ""
  {
    if |s| >= 2 then s[..|s| - 2] else ""
  }
}
