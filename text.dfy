/**
 * The handful of Python `str` operations that the slide parser, the table
 * parser and the painter rely on, stated on `seq<char>`.
 *
 * Whitespace is six ASCII characters: space, tab, newline, carriage return,
 * vertical tab and form feed.  Python's `str.strip()` also removes `\x1c` to
 * `\x1f` and the Unicode spaces; those are not modelled.
 */
module Text {

  const Whitespace: set<char> := {' ', '\t', '\n', '\r', '\U{0B}', '\U{0C}'}

  /** The characters `strip("| \t")` removes around a table row. */
  const PipeBlank: set<char> := {'|', ' ', '\t'}

  predicate AllIn(s: string, cs: set<char>) {
    forall i :: 0 <= i < |s| ==> s[i] in cs
  }

  predicate IsBlank(s: string) {
    AllIn(s, Whitespace)
  }

  predicate StartsWith(s: string, p: string) {
    |p| <= |s| && s[..|p|] == p
  }

  /** `s.lstrip(cs)`. */
  function LStrip(s: string, cs: set<char>): string
    decreases |s|
  {
    if |s| > 0 && s[0] in cs then LStrip(s[1..], cs) else s
  }

  /** `s.rstrip(cs)`. */
  function RStrip(s: string, cs: set<char>): string
    decreases |s|
  {
    if |s| > 0 && s[|s| - 1] in cs then RStrip(s[..|s| - 1], cs) else s
  }

  /** Left-stripping drops the longest prefix made of characters in `cs`. */
  lemma {:induction false} LStripShape(s: string, cs: set<char>)
    ensures var r := LStrip(s, cs);
      && |r| <= |s| && r == s[|s| - |r|..]
      && (r != [] ==> r[0] !in cs)
      && (forall i :: 0 <= i < |s| - |r| ==> s[i] in cs)
    decreases |s|
  {
    if |s| > 0 && s[0] in cs {
      LStripShape(s[1..], cs);
    }
  }

  /** Right-stripping drops the longest suffix made of characters in `cs`. */
  lemma {:induction false} RStripShape(s: string, cs: set<char>)
    ensures var r := RStrip(s, cs);
      && |r| <= |s| && r == s[..|r|]
      && (r != [] ==> r[|r| - 1] !in cs)
      && (forall i :: |r| <= i < |s| ==> s[i] in cs)
    decreases |s|
  {
    if |s| > 0 && s[|s| - 1] in cs {
      RStripShape(s[..|s| - 1], cs);
    }
  }

  /** `s.strip(cs)`. */
  function StripChars(s: string, cs: set<char>): string {
    LStrip(RStrip(s, cs), cs)
  }

  /** `s.strip()`. */
  function Strip(s: string): string {
    StripChars(s, Whitespace)
  }

  /** `s.rstrip()`. */
  function RStripSpace(s: string): string {
    RStrip(s, Whitespace)
  }

  /** Stripping leaves nothing exactly when the text is all whitespace. */
  lemma StripEmptyIff(s: string, cs: set<char>)
    ensures StripChars(s, cs) == [] <==> AllIn(s, cs)
  {
    var m := RStrip(s, cs);
    RStripShape(s, cs);
    LStripShape(m, cs);
    assert forall i :: 0 <= i < |m| ==> m[i] == s[i];
    if m != [] {
      assert m[|m| - 1] == s[|m| - 1];
    }
  }

  /** A non-blank stripped text starts and ends with a character outside `cs`. */
  lemma StripEnds(s: string, cs: set<char>)
    requires StripChars(s, cs) != []
    ensures StripChars(s, cs)[0] !in cs
    ensures StripChars(s, cs)[|StripChars(s, cs)| - 1] !in cs
  {
    var m := RStrip(s, cs);
    var r := LStrip(m, cs);
    RStripShape(s, cs);
    LStripShape(m, cs);
    assert r == m[|m| - |r|..];
    assert r[|r| - 1] == m[|m| - 1];
  }

  /** Length of the run of `c` at the start of `s`. */
  function LeadingRun(s: string, c: char): (n: nat)
    ensures n <= |s|
    ensures forall i :: 0 <= i < n ==> s[i] == c
    ensures n < |s| ==> s[n] != c
    decreases |s|
  {
    if |s| > 0 && s[0] == c then 1 + LeadingRun(s[1..], c) else 0
  }

  /** Length of the longest prefix of `s` holding no `c` (the first `c`, or `|s|`). */
  function IndexOf(s: string, c: char): (n: nat)
    ensures n <= |s|
    ensures n < |s| ==> s[n] == c
    decreases |s|
  {
    if |s| == 0 || s[0] == c then 0 else 1 + IndexOf(s[1..], c)
  }

  /** No `c` comes before `IndexOf(s, c)`. */
  lemma {:induction false} IndexOfFirst(s: string, c: char)
    ensures forall i :: 0 <= i < IndexOf(s, c) ==> s[i] != c
    decreases |s|
  {
    if |s| > 0 && s[0] != c {
      IndexOfFirst(s[1..], c);
    }
  }

  /** `sep.join(parts)`. */
  function Join(parts: seq<string>, sep: string): string
    decreases |parts|
  {
    if |parts| == 0 then ""
    else if |parts| == 1 then parts[0]
    else parts[0] + sep + Join(parts[1..], sep)
  }

  /** `s.split(sep)` for a one-character separator: never empty. */
  function Split(s: string, sep: char): (r: seq<string>)
    ensures |r| >= 1
    decreases |s|
  {
    var i := IndexOf(s, sep);
    if i == |s| then [s] else [s[..i]] + Split(s[i + 1..], sep)
  }

  /** The first `c` of `t` is at `k`. */
  lemma IndexOfAt(t: string, c: char, k: nat)
    requires k < |t| && t[k] == c && c !in t[..k]
    ensures IndexOf(t, c) == k
  {
    IndexOfFirst(t, c);
    forall j | 0 <= j < k
      ensures t[j] != c
    {
      assert t[..k][j] == t[j];
    }
  }

  /** A text without `c` has it nowhere. */
  lemma {:induction false} IndexOfNone(a: string, c: char)
    requires c !in a
    ensures IndexOf(a, c) == |a|
    decreases |a|
  {
    if |a| > 0 {
      IndexOfNone(a[1..], c);
    }
  }

  /** Splitting at the first separator. */
  lemma SplitCons(a: string, c: char, b: string)
    requires c !in a
    ensures Split(a + [c] + b, c) == [a] + Split(b, c)
  {
    var s := a + [c] + b;
    assert s[..|a|] == a;
    IndexOfAt(s, c, |a|);
    assert s[|a| + 1..] == b;
  }

  /** No piece of a split holds the separator. */
  lemma {:induction false} SplitNoSep(s: string, c: char)
    ensures forall k :: 0 <= k < |Split(s, c)| ==> c !in Split(s, c)[k]
    decreases |s|
  {
    var i := IndexOf(s, c);
    IndexOfFirst(s, c);
    if i < |s| {
      SplitNoSep(s[i + 1..], c);
    }
  }

  /** Joining lines free of the separator and splitting them again gives them back. */
  lemma {:induction false} SplitJoin(lines: seq<string>, c: char)
    requires |lines| >= 1
    requires forall k :: 0 <= k < |lines| ==> c !in lines[k]
    ensures Split(Join(lines, [c]), c) == lines
    decreases |lines|
  {
    if |lines| == 1 {
      IndexOfNone(lines[0], c);
    } else {
      SplitJoin(lines[1..], c);
      SplitCons(lines[0], c, Join(lines[1..], [c]));
    }
  }

  /** `min(a, b)`. */
  function Min(a: int, b: int): int {
    if a < b then a else b
  }

  /** `s[:k]` with Python's slice rules: a negative `k` counts from the end. */
  function PyPrefix(s: string, k: int): (r: string)
    ensures |r| <= |s| && r == s[..|r|]
    ensures k >= 0 ==> |r| == if k < |s| then k else |s|
    ensures k < 0 ==> |r| == if |s| + k > 0 then |s| + k else 0
  {
    if k >= 0 then (if k < |s| then s[..k] else s)
    else if |s| + k > 0 then s[..|s| + k] else ""
  }

  /** `s * n` for a one-character string. */
  function Repeat(c: char, n: nat): (r: string)
    ensures |r| == n
    ensures forall i :: 0 <= i < n ==> r[i] == c
  {
    if n == 0 then "" else [c] + Repeat(c, n - 1)
  }
}
