/**
 * Inline emphasis: the scanner behind `rendered_length` and `format_inline`.
 *
 * Both functions walk the line with the same regular expression,
 * `\*\*([^*]+)\*\*|\*([^*]+)\*|`([^`]+)``, found left to right without
 * overlap.  At each position the three alternatives are tried in order; when
 * none matches the scan moves on by one character.  Text between matches is
 * plain; a match contributes its inner text only.
 */
module Inline {
  import opened Text
  import opened Wrappers
  import opened Screen

  datatype Style = Plain | Bold | Italic | Code

  datatype Run = Run(style: Style, text: string)

  /** A match of the pattern: its style, its inner text and where it ends. */
  datatype Match = Match(style: Style, inner: string, end: nat)

  /** Number of delimiter characters a run of this style had in the source text. */
  function DelimWidth(st: Style): nat {
    match st
    case Plain => 0
    case Bold => 4
    case _ => 2
  }

  /**
   * `d`, then one or more characters other than `c`, then `d` again, from
   * position `p` up to position `e`: a match of `\*\*([^*]+)\*\*` (with
   * `d == "**"`), `\*([^*]+)\*` (with `d == "*"`) or `` `([^`]+)` `` (with
   * `d == "`"`) spanning `s[p..e]`.
   */
  predicate Enclosed(s: string, p: int, e: int, d: string, c: char) {
    && 0 <= p && p + 2 * |d| < e <= |s|
    && s[p..p + |d|] == d && s[e - |d|..e] == d
    && c !in s[p + |d|..e - |d|]
  }

  /** `\*\*([^*]+)\*\*` at position `p`. */
  function BoldAt(s: string, p: nat): (r: Option<Match>)
    requires p <= |s|
    ensures r.Some? ==> r.value.style == Bold && r.value.inner != [] && r.value.end == p + |r.value.inner| + 4 <= |s|
  {
    if p + 2 <= |s| && s[p] == '*' && s[p + 1] == '*' then
      var k := IndexOf(s[p + 2..], '*');
      if k >= 1 && p + 2 + k + 1 < |s| && s[p + 2 + k + 1] == '*' then
        Some(Match(Bold, s[p + 2..p + 2 + k], p + 4 + k))
      else
        None
    else
      None
  }

  /** A bold match spans `**x**` from `p`, and there is none exactly when no such span starts at `p`. */
  lemma BoldAtMeaning(s: string, p: nat)
    requires p <= |s|
    ensures BoldAt(s, p).Some? ==>
      Enclosed(s, p, BoldAt(s, p).value.end, "**", '*') && BoldAt(s, p).value.inner == s[p + 2..BoldAt(s, p).value.end - 2]
    ensures BoldAt(s, p).None? ==> forall e :: !Enclosed(s, p, e, "**", '*')
  {
    if p + 2 <= |s| && s[p] == '*' && s[p + 1] == '*' {
      var k := IndexOf(s[p + 2..], '*');
      if k >= 1 && p + 2 + k + 1 < |s| && s[p + 2 + k + 1] == '*' {
        IndexOfFirst(s[p + 2..], '*');
        assert s[p + 2..][..k] == s[p + 2..p + 2 + k];
      } else {
        NoBoldWhenUnclosed(s, p, k);
      }
    } else if p + 2 <= |s| {
      forall e
        ensures !Enclosed(s, p, e, "**", '*')
      {
        if p + 4 < e <= |s| {
          assert s[p..p + 2][0] == s[p] && s[p..p + 2][1] == s[p + 1];
        }
      }
    }
  }

  /** When the first `*` after `**` is not followed by `*`, or comes at once, no bold match starts at `p`. */
  lemma NoBoldWhenUnclosed(s: string, p: nat, k: nat)
    requires p + 2 <= |s| && s[p] == '*' && s[p + 1] == '*' && k == IndexOf(s[p + 2..], '*')
    requires !(k >= 1 && p + 2 + k + 1 < |s| && s[p + 2 + k + 1] == '*')
    ensures forall e :: !Enclosed(s, p, e, "**", '*')
  {
    forall e | Enclosed(s, p, e, "**", '*')
      ensures false
    {
      BoldEnd(s, p, e);
    }
  }

  /** A bold match ending at `e` closes at the first `*` after its opening `**`. */
  lemma BoldEnd(s: string, p: nat, e: int)
    requires Enclosed(s, p, e, "**", '*')
    ensures IndexOf(s[p + 2..], '*') == e - 4 - p && s[e - 1] == '*'
  {
    var t := s[p + 2..];
    assert s[e - 2..e][0] == s[e - 2] && s[e - 2..e][1] == s[e - 1];
    assert t[..e - 4 - p] == s[p + 2..e - 2];
    IndexOfAt(t, '*', e - 4 - p);
  }

  /** `\*([^*]+)\*` (with `c == '*'`) or `` `([^`]+)` `` (with `c == '`'`) at position `p`. */
  function EnclosedAt(s: string, p: nat, c: char, st: Style): (r: Option<Match>)
    requires p <= |s|
    ensures r.Some? ==> r.value.style == st && r.value.inner != [] && r.value.end == p + |r.value.inner| + 2 <= |s|
  {
    if p < |s| && s[p] == c then
      var k := IndexOf(s[p + 1..], c);
      if k >= 1 && p + 1 + k < |s| then
        Some(Match(st, s[p + 1..p + 1 + k], p + 2 + k))
      else
        None
    else
      None
  }

  /** A `c`-enclosed match spans `cxc` from `p`, and there is none exactly when no such span starts at `p`. */
  lemma EnclosedAtMeaning(s: string, p: nat, c: char, st: Style)
    requires p <= |s|
    ensures EnclosedAt(s, p, c, st).Some? ==>
      Enclosed(s, p, EnclosedAt(s, p, c, st).value.end, [c], c) &&
      EnclosedAt(s, p, c, st).value.inner == s[p + 1..EnclosedAt(s, p, c, st).value.end - 1]
    ensures EnclosedAt(s, p, c, st).None? ==> forall e :: !Enclosed(s, p, e, [c], c)
  {
    if p < |s| && s[p] == c {
      var k := IndexOf(s[p + 1..], c);
      if k >= 1 && p + 1 + k < |s| {
        IndexOfFirst(s[p + 1..], c);
        assert s[p + 1..][..k] == s[p + 1..p + 1 + k];
      } else {
        NoEnclosedWhenUnclosed(s, p, c, k);
      }
    } else if p < |s| {
      forall e
        ensures !Enclosed(s, p, e, [c], c)
      {
        if p + 2 < e <= |s| {
          assert s[p..p + 1][0] == s[p];
        }
      }
    }
  }

  /** When the next `c` comes at once or never, no `c`-enclosed match starts at `p`. */
  lemma NoEnclosedWhenUnclosed(s: string, p: nat, c: char, k: nat)
    requires p < |s| && s[p] == c && k == IndexOf(s[p + 1..], c)
    requires !(k >= 1 && p + 1 + k < |s|)
    ensures forall e :: !Enclosed(s, p, e, [c], c)
  {
    forall e | Enclosed(s, p, e, [c], c)
      ensures false
    {
      EnclosedEnd(s, p, e, c);
    }
  }

  /** A `c`-enclosed match ending at `e` closes at the first `c` after its opening one. */
  lemma EnclosedEnd(s: string, p: nat, e: int, c: char)
    requires Enclosed(s, p, e, [c], c)
    ensures IndexOf(s[p + 1..], c) == e - 2 - p
  {
    var t := s[p + 1..];
    assert s[e - 1..e][0] == s[e - 1];
    assert t[..e - 2 - p] == s[p + 1..e - 1];
    IndexOfAt(t, c, e - 2 - p);
  }

  /**
   * The alternatives tried in order at position `p`: `**x**`, then `*x*`,
   * then `` `x` ``, where `x` is one or more characters other than the
   * delimiter.  A match is the first alternative that applies, its inner
   * text is what lies between the delimiters, and there is no match exactly
   * when no alternative applies.
   */
  function MatchAt(s: string, p: nat): (r: Option<Match>)
    requires p <= |s|
    ensures r.Some? ==> r.value.style != Plain && r.value.inner != []
    ensures r.Some? ==> r.value.end == p + |r.value.inner| + DelimWidth(r.value.style) <= |s|
  {
    match BoldAt(s, p)
    case Some(m) => Some(m)
    case None =>
      match EnclosedAt(s, p, '*', Italic)
      case Some(m) => Some(m)
      case None => EnclosedAt(s, p, '`', Code)
  }

  /**
   * What a match at `p` means: the first alternative that spans some text
   * from `p`, with its inner text between the delimiters; no match exactly
   * when no alternative applies.
   */
  lemma MatchAtMeaning(s: string, p: nat)
    requires p <= |s|
    ensures var r := MatchAt(s, p);
      && (r.Some? && r.value.style == Bold ==>
            Enclosed(s, p, r.value.end, "**", '*') && r.value.inner == s[p + 2..r.value.end - 2])
      && (r.Some? && r.value.style == Italic ==>
            Enclosed(s, p, r.value.end, "*", '*') && r.value.inner == s[p + 1..r.value.end - 1] &&
            forall e :: !Enclosed(s, p, e, "**", '*'))
      && (r.Some? && r.value.style == Code ==>
            Enclosed(s, p, r.value.end, "`", '`') && r.value.inner == s[p + 1..r.value.end - 1] &&
            forall e :: !Enclosed(s, p, e, "**", '*') && !Enclosed(s, p, e, "*", '*'))
      && (r.None? <==>
            forall e :: !Enclosed(s, p, e, "**", '*') && !Enclosed(s, p, e, "*", '*') && !Enclosed(s, p, e, "`", '`'))
  {
    BoldAtMeaning(s, p);
    EnclosedAtMeaning(s, p, '*', Italic);
    EnclosedAtMeaning(s, p, '`', Code);
  }

  /** Concatenation of the runs' texts: what the line shows. */
  function Visible(runs: seq<Run>): string
    decreases |runs|
  {
    if |runs| == 0 then "" else runs[0].text + Visible(runs[1..])
  }

  /** Delimiter characters the runs stand for. */
  function Delims(runs: seq<Run>): nat
    decreases |runs|
  {
    if |runs| == 0 then 0 else DelimWidth(runs[0].style) + Delims(runs[1..])
  }

  lemma {:induction false} VisibleAppend(a: seq<Run>, b: seq<Run>)
    ensures Visible(a + b) == Visible(a) + Visible(b)
    ensures Delims(a + b) == Delims(a) + Delims(b)
    decreases |a|
  {
    if |a| == 0 {
      assert a + b == b;
    } else {
      assert (a + b)[1..] == a[1..] + b;
      VisibleAppend(a[1..], b);
    }
  }

  /** The runs of `s` from scan position `p`, where plain text started at `last`. */
  function Scan(s: string, p: nat, last: nat): seq<Run>
    requires last <= p <= |s|
    decreases |s| - p
  {
    if p == |s| then
      if last < |s| then [Run(Plain, s[last..])] else []
    else
      match MatchAt(s, p)
      case None => Scan(s, p + 1, last)
      case Some(m) =>
        var before := if last < p then [Run(Plain, s[last..p])] else [];
        before + [Run(m.style, m.inner)] + Scan(s, m.end, m.end)
  }

  /**
   * Every run of a scan is non-empty, and the runs account for every source
   * character from `last` on: shown characters plus delimiters.
   */
  lemma {:induction false} ScanAccounts(s: string, p: nat, last: nat)
    requires last <= p <= |s|
    ensures forall k :: 0 <= k < |Scan(s, p, last)| ==> Scan(s, p, last)[k].text != []
    ensures |Visible(Scan(s, p, last))| + Delims(Scan(s, p, last)) == |s| - last
    decreases |s| - p
  {
    if p < |s| {
      match MatchAt(s, p)
      case None => ScanAccounts(s, p + 1, last);
      case Some(m) =>
        var before := if last < p then [Run(Plain, s[last..p])] else [];
        var rest := Scan(s, m.end, m.end);
        ScanAccounts(s, m.end, m.end);
        VisibleAppend(before, [Run(m.style, m.inner)] + rest);
        VisibleAppend([Run(m.style, m.inner)], rest);
    }
  }

  /** The styled runs of a line, as `format_inline` draws them. */
  function Runs(s: string): seq<Run> {
    Scan(s, 0, 0)
  }

  /**
   * The loop of `rendered_length` from scan position `p`: the cursor grows by
   * the plain text skipped since `last` and by each match's inner text.
   */
  function LengthFrom(s: string, p: nat, last: nat): nat
    requires last <= p <= |s|
    decreases |s| - p
  {
    if p == |s| then |s| - last
    else
      match MatchAt(s, p)
      case None => LengthFrom(s, p + 1, last)
      case Some(m) => (p - last) + |m.inner| + LengthFrom(s, m.end, m.end)
  }

  /** The cursor of `rendered_length` always agrees with the length of the text the scan shows. */
  lemma {:induction false} LengthFromShown(s: string, p: nat, last: nat)
    requires last <= p <= |s|
    ensures LengthFrom(s, p, last) == |Visible(Scan(s, p, last))|
    decreases |s| - p
  {
    if p < |s| {
      match MatchAt(s, p)
      case None => LengthFromShown(s, p + 1, last);
      case Some(m) =>
        var before := if last < p then [Run(Plain, s[last..p])] else [];
        var rest := Scan(s, m.end, m.end);
        VisibleAppend(before, [Run(m.style, m.inner)] + rest);
        VisibleAppend([Run(m.style, m.inner)], rest);
        LengthFromShown(s, m.end, m.end);
    }
  }

  /** `rendered_length`. */
  function RenderedLength(s: string): nat {
    LengthFrom(s, 0, 0)
  }

  /**
   * The rendered length is the line's length less the delimiters of every
   * matched run, so it never exceeds the line's length, and it is the length
   * of what `format_inline` shows.
   */
  lemma RenderedLengthDropsDelims(s: string)
    ensures RenderedLength(s) == |s| - Delims(Runs(s))
    ensures RenderedLength(s) <= |s|
    ensures RenderedLength(s) == |Visible(Runs(s))|
  {
    LengthFromShown(s, 0, 0);
    ScanAccounts(s, 0, 0);
  }

  /** `rendered_length("**ab**c") == 3`. */
  lemma RenderedLengthExample()
    ensures RenderedLength("**ab**c") == 3
  {
    var s := "**ab**c";
    assert s[2..] == "ab**c";
    assert IndexOf("ab**c", '*') == 2;
    assert s[2..4] == "ab";
    assert BoldAt(s, 0) == Some(Match(Bold, "ab", 6));
    assert MatchAt(s, 0) == Some(Match(Bold, "ab", 6));
    assert MatchAt(s, 6) == None;
    assert LengthFrom(s, 6, 6) == 1;
  }

  /** The outcome of `format_inline._add`: the write it issues, if any, and the new cursor. */
  datatype Added = Added(write: Option<Write>, cursor: nat)

  /**
   * `format_inline._add`: draws `text` at column `x + cursor` of row `y`,
   * cut to fit before column `min(maxw, maxX)`.  It writes exactly when the
   * text is non-empty, the row is on the window and the start column is in
   * `[0, min(maxw, maxX))`; the chunk is a prefix of the text, as long as
   * fits, and the cursor moves by the chunk's length.
   */
  function Add(text: string, pair: nat, y: int, x: int, maxw: int, maxY: int, maxX: int, cursor: nat): (r: Added)
    ensures r.write.Some? <==>
      text != [] && 0 <= y < maxY && 0 <= x + cursor < Min(maxw, maxX)
    ensures r.write.None? ==> r.cursor == cursor
    ensures r.write.Some? ==>
      var w := r.write.value;
      w.row == y && w.col == x + cursor && w.pair == pair &&
      0 < |w.text| <= |text| && w.text == text[..|w.text|] &&
      w.col + |w.text| <= Min(maxw, maxX) &&
      (|w.text| < |text| ==> w.col + |w.text| == Min(maxw, maxX)) &&
      r.cursor == cursor + |w.text|
  {
    if text == [] || y < 0 || y >= maxY then Added(None, cursor)
    else
      var startX := x + cursor;
      if startX < 0 || startX >= maxX then Added(None, cursor)
      else
        var avail := Min(maxw, maxX) - startX;
        if avail <= 0 then Added(None, cursor)
        else
          var chunk := if avail < |text| then text[..avail] else text;
          Added(Some(Write(y, startX, chunk, pair)), cursor + |chunk|)
  }

  /** The colour pair `format_inline` turns on for a run. */
  function PairOf(st: Style): nat {
    match st
    case Plain => NoPair
    case Bold => BoldPair
    case Italic => ItalicPair
    case Code => CodePair
  }

  /** Concatenation of the texts a log writes. */
  function Drawn(log: seq<Write>): string
    decreases |log|
  {
    if |log| == 0 then "" else Drawn(log[..|log| - 1]) + log[|log| - 1].text
  }

  /** How many shown characters fit on row `y` from column `x`. */
  function ClipWidth(n: nat, y: int, x: int, maxw: int, maxY: int, maxX: int): nat {
    if 0 <= y < maxY && 0 <= x < maxX && x < Min(maxw, maxX)
    then (if n < Min(maxw, maxX) - x then n else Min(maxw, maxX) - x)
    else 0
  }

  /** What `format_inline` shows of `text` drawn from column `x` on row `y`. */
  function InlineShown(text: string, y: int, x: int, maxw: int, maxY: int, maxX: int): string {
    var shown := Visible(Runs(text));
    shown[..ClipWidth(|shown|, y, x, maxw, maxY, maxX)]
  }

  /**
   * A log of `format_inline` for `text` from column `x`: it shows what fits
   * of the text, on row `y`, within the text's rendered length from `x`.
   */
  predicate InlineDrawn(log: seq<Write>, text: string, y: int, x: int, maxw: int, maxY: int, maxX: int) {
    InlineFits(log, InlineShown(text, y, x, maxw, maxY, maxX), RenderedLength(text), y, x)
  }

  /** A log that draws `shown`, on row `y`, within `width` columns from `x`. */
  predicate InlineFits(log: seq<Write>, shown: string, width: nat, y: int, x: int) {
    && Drawn(log) == shown
    && forall k :: 0 <= k < |log| ==>
         log[k].row == y && x <= log[k].col && log[k].col + |log[k].text| <= x + width
  }

  /**
   * `format_inline`: draws the runs of `line` one after another from column
   * `x`.  What it writes is the line's shown text, cut to what fits; the
   * writes sit side by side on row `y`, inside `[0, min(maxw, maxX))`.  Write
   * `k` is the start of the text of run `from[k]`, later writes coming from
   * later runs, in the pair of that run's style: bold, italic and code in
   * their own pairs, plain text in none.
   */
  method FormatInline(line: string, y: int, x: int, maxw: int, maxY: int, maxX: int)
    returns (log: seq<Write>, cursor: nat, ghost from: seq<nat>)
    ensures cursor == ClipWidth(|Visible(Runs(line))|, y, x, maxw, maxY, maxX)
    ensures cursor <= |Visible(Runs(line))| && Drawn(log) == Visible(Runs(line))[..cursor]
    ensures forall k :: 0 <= k < |log| ==>
      log[k].row == y && 0 <= log[k].col && log[k].col + |log[k].text| <= Min(maxw, maxX) &&
      log[k].col == x + |Drawn(log[..k])|
    ensures FromRuns(log, from, Runs(line), |Runs(line)|)
    ensures InlineDrawn(log, line, y, x, maxw, maxY, maxX) && InlineLog(log, line, y, x, maxw, maxY, maxX)
  {
    var runs := Runs(line);
    log, cursor, from := [], 0, [];
    for k := 0 to |runs|
      invariant LaidOut(log, cursor, Visible(runs[..k]), y, x, maxw, maxY, maxX)
      invariant FromRuns(log, from, runs, k)
    {
      VisibleStep(runs, k);
      log, cursor, from := AddRun(log, cursor, Visible(runs[..k]), runs, k, from, y, x, maxw, maxY, maxX);
    }
    assert runs[..|runs|] == runs;
    RenderedLengthDropsDelims(line);
    WritesBeforeCursor(log, cursor, Visible(runs), y, x, maxw, maxY, maxX);
    assert FromRuns(log, from, runs, |runs|);
  }

  /**
   * A log of `format_inline` for `text` from column `x` of row `y`: the
   * shown text cut to what fits, written side by side from `x`, each write
   * the start of one run's text in that run's pair, the writes before it
   * spelling out the runs before that run.
   */
  ghost predicate InlineLog(log: seq<Write>, text: string, y: int, x: int, maxw: int, maxY: int, maxX: int) {
    var runs := Runs(text);
    && LaidOut(log, ClipWidth(|Visible(runs)|, y, x, maxw, maxY, maxX), Visible(runs), y, x, maxw, maxY, maxX)
    && exists from :: FromRuns(log, from, runs, |runs|)
  }

  /** `InlineLog` as a function of the log, the text and the start column `cx`, for row `y`. */
  ghost function InlineWriter(y: int, maxw: int, maxY: int, maxX: int): (seq<Write>, string, int) -> bool {
    (log, text, cx) => InlineLog(log, text, y, cx, maxw, maxY, maxX)
  }

  /** The writes laid out so far end at or before column `x + cursor`. */
  lemma WritesBeforeCursor(log: seq<Write>, cursor: nat, shown: string, y: int, x: int, maxw: int, maxY: int, maxX: int)
    requires LaidOut(log, cursor, shown, y, x, maxw, maxY, maxX)
    ensures forall k :: 0 <= k < |log| ==> x <= log[k].col && log[k].col + |log[k].text| <= x + cursor
  {
    forall k | 0 <= k < |log|
      ensures log[k].col + |log[k].text| <= x + cursor
    {
      assert log[..k + 1][..k] == log[..k];
      DrawnPrefix(log, k + 1);
    }
  }

  /** What the first `j` writes draw is a prefix of what the whole log draws. */
  lemma {:induction false} DrawnPrefix(log: seq<Write>, j: nat)
    requires j <= |log|
    ensures Drawn(log[..j]) <= Drawn(log)
    decreases |log| - j
  {
    if j < |log| {
      var init := log[..|log| - 1];
      assert init[..j] == log[..j];
      DrawnPrefix(init, j);
    } else {
      assert log[..j] == log;
    }
  }

  /** Going through one more run shows its text after what the earlier runs show. */
  lemma VisibleStep(runs: seq<Run>, k: nat)
    requires k < |runs|
    ensures Visible(runs[..k + 1]) == Visible(runs[..k]) + runs[k].text
  {
    VisibleAppend(runs[..k], [runs[k]]);
    assert runs[..k + 1] == runs[..k] + [runs[k]];
  }

  /**
   * The writes so far of `format_inline`, having gone through runs that show
   * `shown`: that text cut to what fits, written side by side on row `y`.
   */
  ghost predicate LaidOut(log: seq<Write>, cursor: nat, shown: string, y: int, x: int, maxw: int, maxY: int, maxX: int) {
    && cursor == ClipWidth(|shown|, y, x, maxw, maxY, maxX)
    && cursor <= |shown| && Drawn(log) == shown[..cursor]
    && forall j :: 0 <= j < |log| ==>
         log[j].row == y && 0 <= log[j].col && log[j].col + |log[j].text| <= Min(maxw, maxX) &&
         log[j].col == x + |Drawn(log[..j])|
  }

  /**
   * Write `k` comes from run `from[k]`, one of the first `n` runs: it is a
   * prefix of that run's text in that run's pair, runs are taken in order,
   * and the writes before it spell out exactly the runs before that run.
   */
  ghost predicate FromRuns(log: seq<Write>, from: seq<nat>, runs: seq<Run>, n: nat) {
    && |from| == |log| && n <= |runs|
    && (forall k :: 0 <= k < |log| ==>
          from[k] < n && log[k].pair == PairOf(runs[from[k]].style) && log[k].text <= runs[from[k]].text)
    && (forall k :: 0 <= k < |log| ==> Drawn(log[..k]) == Visible(runs[..from[k]]))
    && (forall k :: 0 <= k < |log| - 1 ==> from[k] < from[k + 1])
  }

  /**
   * One pass of the loop of `format_inline`: `_add` on run `n`.  The log
   * grows by at most one write, a prefix of run `n`'s text in its pair.
   */
  method AddRun(log: seq<Write>, cursor: nat, ghost shown: string, runs: seq<Run>, n: nat, ghost from: seq<nat>,
                y: int, x: int, maxw: int, maxY: int, maxX: int)
    returns (log': seq<Write>, cursor': nat, ghost from': seq<nat>)
    requires n < |runs| && shown == Visible(runs[..n])
    requires LaidOut(log, cursor, shown, y, x, maxw, maxY, maxX) && FromRuns(log, from, runs, n)
    ensures LaidOut(log', cursor', shown + runs[n].text, y, x, maxw, maxY, maxX)
    ensures FromRuns(log', from', runs, n + 1)
    ensures log' == log ||
      (|log'| == |log| + 1 && log'[..|log|] == log &&
       log'[|log|].pair == PairOf(runs[n].style) && log'[|log|].text <= runs[n].text)
  {
    var run := runs[n];
    var a := Add(run.text, PairOf(run.style), y, x, maxw, maxY, maxX, cursor);
    log', from' := log, from;
    if a.write.Some? {
      var w := a.write.value;
      LaidOutGrow(log, cursor, shown, run.text, w, a.cursor, y, x, maxw, maxY, maxX);
      assert cursor == |shown|;
      FromRunsGrow(log, from, runs, n, w);
      log', from' := log + [w], from + [n];
      assert log'[..|log|] == log;
    } else {
      FromRunsSkip(log, from, runs, n);
    }
    cursor' := a.cursor;
  }

  /** A write issued by `_add` extends the writes laid out so far. */
  lemma LaidOutGrow(log: seq<Write>, cursor: nat, shown: string, text: string, w: Write, cursor': nat,
                    y: int, x: int, maxw: int, maxY: int, maxX: int)
    requires LaidOut(log, cursor, shown, y, x, maxw, maxY, maxX)
    requires Add(text, w.pair, y, x, maxw, maxY, maxX, cursor) == Added(Some(w), cursor')
    ensures LaidOut(log + [w], cursor', shown + text, y, x, maxw, maxY, maxX)
  {
    var log' := log + [w];
    assert log'[..|log|] == log;
    assert w.col == x + |Drawn(log)|;
    forall j | 0 <= j < |log|
      ensures log'[..j] == log[..j]
    {
    }
  }

  /** A write from run `n` in that run's pair, after writes from earlier runs. */
  lemma FromRunsGrow(log: seq<Write>, from: seq<nat>, runs: seq<Run>, n: nat, w: Write)
    requires n < |runs| && FromRuns(log, from, runs, n)
    requires w.pair == PairOf(runs[n].style) && w.text <= runs[n].text
    requires Drawn(log) == Visible(runs[..n])
    ensures FromRuns(log + [w], from + [n], runs, n + 1)
  {
    var log', from' := log + [w], from + [n];
    forall k | 0 <= k < |log'|
      ensures from'[k] < n + 1 && log'[k].pair == PairOf(runs[from'[k]].style) && log'[k].text <= runs[from'[k]].text
      ensures Drawn(log'[..k]) == Visible(runs[..from'[k]])
    {
      if k < |log| {
        assert log'[k] == log[k] && from'[k] == from[k] && log'[..k] == log[..k];
      } else {
        assert log'[..k] == log;
      }
    }
  }

  /** A run that writes nothing leaves the provenance of the writes so far as it was. */
  lemma FromRunsSkip(log: seq<Write>, from: seq<nat>, runs: seq<Run>, n: nat)
    requires n < |runs| && FromRuns(log, from, runs, n)
    ensures FromRuns(log, from, runs, n + 1)
  {
  }
}
