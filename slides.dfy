/**
 * The slide splitter (`parse_markdown`).
 *
 * The document is cut into segments at separator lines (three or more `-`
 * followed only by whitespace).  The regular expression split the source uses
 * may also swallow whitespace after a separator line; since every segment is
 * stripped before it is looked at, that whitespace never matters, and the
 * split is modelled on lines.
 */
module Slides {
  import opened Text
  import opened Wrappers

  datatype Kind = TitleKind | ContentKind

  datatype Slide = Slide(kind: Kind, title: Option<string>, body: string)

  /** A line matching `^-{3,}\s*$`. */
  predicate IsSeparator(line: string) {
    var d := LeadingRun(line, '-');
    d >= 3 && IsBlank(line[d..])
  }

  /** A stripped line matching `^=+$`. */
  predicate IsEqualsRule(s: string) {
    |s| >= 1 && AllIn(s, {'='})
  }

  /** The separator lines, in document order. */
  function Separators(lines: seq<string>): seq<string>
    decreases |lines|
  {
    if |lines| == 0 then []
    else (if IsSeparator(lines[0]) then [lines[0]] else []) + Separators(lines[1..])
  }

  /** The lines that are not separators, in document order. */
  function NonSeparators(lines: seq<string>): seq<string>
    decreases |lines|
  {
    if |lines| == 0 then []
    else (if IsSeparator(lines[0]) then [] else [lines[0]]) + NonSeparators(lines[1..])
  }

  function Flatten(segs: seq<seq<string>>): seq<string>
    decreases |segs|
  {
    if |segs| == 0 then [] else segs[0] + Flatten(segs[1..])
  }

  /**
   * The segments between separator lines: one more segment than there are
   * separators, no separator inside any segment.
   */
  function Segments(lines: seq<string>): (r: seq<seq<string>>)
    ensures |r| == 1 + |Separators(lines)|
    ensures forall k, j :: 0 <= k < |r| && 0 <= j < |r[k]| ==> !IsSeparator(r[k][j])
    decreases |lines|
  {
    if |lines| == 0 then [[]]
    else
      var rest := Segments(lines[1..]);
      if IsSeparator(lines[0]) then [[]] + rest
      else [[lines[0]] + rest[0]] + rest[1..]
  }

  /** Segments keep every non-separator line, in document order. */
  lemma {:induction false} SegmentsKeepOrder(lines: seq<string>)
    ensures Flatten(Segments(lines)) == NonSeparators(lines)
    decreases |lines|
  {
    if |lines| > 0 {
      SegmentsKeepOrder(lines[1..]);
      var rest := Segments(lines[1..]);
      if IsSeparator(lines[0]) {
        assert Segments(lines) == [[]] + rest;
        assert Flatten([[]] + rest) == [] + Flatten(rest);
      } else {
        var segs := [[lines[0]] + rest[0]] + rest[1..];
        assert Segments(lines) == segs;
        assert segs[1..] == rest[1..];
        assert Flatten(rest) == rest[0] + Flatten(rest[1..]);
        assert Flatten(segs) == [lines[0]] + rest[0] + Flatten(rest[1..]);
      }
    }
  }

  /** The segments with the separator lines `seps` put back between them. */
  function Interleave(segs: seq<seq<string>>, seps: seq<string>): seq<string>
    requires |segs| == |seps| + 1
    decreases |seps|
  {
    if |seps| == 0 then segs[0] else segs[0] + [seps[0]] + Interleave(segs[1..], seps[1..])
  }

  /** A line in front of the first segment is a line in front of the whole document. */
  lemma InterleaveCons(line: string, segs: seq<seq<string>>, seps: seq<string>)
    requires |segs| == |seps| + 1
    ensures Interleave([[line] + segs[0]] + segs[1..], seps) == [line] + Interleave(segs, seps)
  {
    var segs' := [[line] + segs[0]] + segs[1..];
    assert segs'[1..] == segs[1..];
  }

  /**
   * The cuts fall exactly at the separator lines: putting the separators back
   * between the segments, in order, gives back the document's lines.
   */
  lemma {:induction false} SegmentsRoundTrip(lines: seq<string>)
    ensures Interleave(Segments(lines), Separators(lines)) == lines
    decreases |lines|
  {
    if |lines| > 0 {
      SegmentsRoundTrip(lines[1..]);
      var rest := Segments(lines[1..]);
      if IsSeparator(lines[0]) {
        var segs := [[]] + rest;
        assert Segments(lines) == segs;
        assert Separators(lines) == [lines[0]] + Separators(lines[1..]);
        assert segs[1..] == rest;
        assert lines == [lines[0]] + lines[1..];
      } else {
        assert Segments(lines) == [[lines[0]] + rest[0]] + rest[1..];
        assert Separators(lines) == Separators(lines[1..]);
        InterleaveCons(lines[0], rest, Separators(lines[1..]));
        assert lines == [lines[0]] + lines[1..];
      }
    }
  }

  /** `[line.rstrip() for line in raw.strip().splitlines()]` (lines end at `\n`). */
  function SegmentLines(raw: string): seq<string> {
    var s := Strip(raw);
    if s == [] then []
    else
      var parts := Split(s, '\n');
      seq(|parts|, k requires 0 <= k < |parts| => RStripSpace(parts[k]))
  }

  /**
   * No line of a segment holds a line break, so a slide body joined from
   * them with `"\n"` splits back into them (`SplitJoin`) when
   * `render_content` reads it.
   */
  lemma SegmentLinesUnbroken(raw: string)
    ensures forall k :: 0 <= k < |SegmentLines(raw)| ==> '\n' !in SegmentLines(raw)[k]
  {
    var s := Strip(raw);
    if s != [] {
      var parts := Split(s, '\n');
      SplitNoSep(s, '\n');
      forall k | 0 <= k < |parts|
        ensures '\n' !in RStripSpace(parts[k])
      {
        RStripShape(parts[k], Whitespace);
      }
    }
  }

  /** `any(l.strip() for l in lines)`. */
  predicate HasText(lines: seq<string>) {
    exists k :: 0 <= k < |lines| && Strip(lines[k]) != []
  }

  /** What one segment becomes: nothing when it is blank, else a title or a content slide. */
  function ClassifySegment(raw: string): Option<Slide> {
    var lines := SegmentLines(raw);
    if !HasText(lines) then None
    else if |lines| > 1 && IsEqualsRule(Strip(lines[1])) then
      Some(Slide(TitleKind, Some(Strip(lines[0])), Join(lines[2..], "\n")))
    else if StartsWith(lines[0], "#") then
      Some(Slide(ContentKind, Some(Strip(LStrip(lines[0], {'#', ' '}))), Join(lines[1..], "\n")))
    else
      Some(Slide(ContentKind, None, Join(lines, "\n")))
  }

  /** The slide a segment of lines yields, as a list of zero or one slide. */
  function SlideOf(seg: seq<string>): (r: seq<Slide>)
    ensures |r| <= 1
  {
    match ClassifySegment(Join(seg, "\n"))
    case None => []
    case Some(s) => [s]
  }

  function SlidesOf(segs: seq<seq<string>>): seq<Slide>
    decreases |segs|
  {
    if |segs| == 0 then []
    else
      SlideOf(segs[0]) + SlidesOf(segs[1..])
  }

  /** `parse_markdown`: the slides of a document, in document order. */
  function ParseMarkdown(text: string): seq<Slide> {
    SlidesOf(Segments(Split(text, '\n')))
  }

  function NonBlankCount(segs: seq<seq<string>>): nat
    decreases |segs|
  {
    if |segs| == 0 then 0
    else (if IsBlank(Join(segs[0], "\n")) then 0 else 1) + NonBlankCount(segs[1..])
  }

  /** Right-stripping keeps a first character that is not stripped. */
  lemma RStripKeepsHead(s: string, cs: set<char>)
    requires s != [] && s[0] !in cs
    ensures RStrip(s, cs) != [] && RStrip(s, cs)[0] == s[0]
  {
    RStripShape(s, cs);
  }

  /** The first line of a non-blank segment holds text. */
  lemma FirstLineHasText(raw: string)
    requires !IsBlank(raw)
    ensures SegmentLines(raw) != [] && Strip(SegmentLines(raw)[0]) != []
  {
    var s := Strip(raw);
    StripEmptyIff(raw, Whitespace);
    StripEnds(raw, Whitespace);
    var parts := Split(s, '\n');
    var i := IndexOf(s, '\n');
    assert parts[0] == s[..i];
    RStripKeepsHead(parts[0], Whitespace);
    var first := RStripSpace(parts[0]);
    assert SegmentLines(raw)[0] == first;
    StripEmptyIff(first, Whitespace);
  }

  /** A segment yields no slide exactly when it is whitespace only. */
  lemma ClassifyNoneIff(raw: string)
    ensures ClassifySegment(raw) == None <==> IsBlank(raw)
  {
    if IsBlank(raw) {
      StripEmptyIff(raw, Whitespace);
      assert SegmentLines(raw) == [];
    } else {
      FirstLineHasText(raw);
      assert HasText(SegmentLines(raw));
    }
  }

  /**
   * A non-blank segment is a title slide exactly when its second line,
   * stripped, is a run of `=`; it is then titled by its first line and its
   * body is the remaining lines.  Otherwise it is a content slide, titled
   * exactly when its first line starts with `#`, by that line without its
   * leading `#`s and spaces.
   */
  lemma ClassifyKinds(raw: string)
    requires !IsBlank(raw)
    ensures ClassifySegment(raw).Some?
    ensures var lines := SegmentLines(raw);
      var slide := ClassifySegment(raw).value;
      |lines| >= 1 &&
      (slide.kind == TitleKind <==> |lines| > 1 && IsEqualsRule(Strip(lines[1]))) &&
      (slide.kind == TitleKind ==>
        slide.title == Some(Strip(lines[0])) && slide.body == Join(lines[2..], "\n")) &&
      (slide.kind == ContentKind ==>
        slide.title == (if StartsWith(lines[0], "#") then Some(Strip(LStrip(lines[0], {'#', ' '}))) else None) &&
        slide.body == Join(if StartsWith(lines[0], "#") then lines[1..] else lines, "\n"))
  {
    ClassifyNoneIff(raw);
  }

  /** Splitting a segment list in two splits the slide list the same way. */
  lemma {:induction false} SlidesOfAppend(a: seq<seq<string>>, b: seq<seq<string>>)
    ensures SlidesOf(a + b) == SlidesOf(a) + SlidesOf(b)
    decreases |a|
  {
    if |a| == 0 {
      assert a + b == b;
    } else {
      assert (a + b)[0] == a[0];
      assert (a + b)[1..] == a[1..] + b;
      SlidesOfAppend(a[1..], b);
    }
  }

  /** One slide per non-blank segment. */
  lemma {:induction false} SlidesOfCount(segs: seq<seq<string>>)
    ensures |SlidesOf(segs)| == NonBlankCount(segs)
    decreases |segs|
  {
    if |segs| > 0 {
      SlidesOfCount(segs[1..]);
      ClassifyNoneIff(Join(segs[0], "\n"));
    }
  }

  /** Each slide is the one slide that some segment yields. */
  lemma {:induction false} SlidesOfOrigin(segs: seq<seq<string>>, k: nat)
    requires k < |SlidesOf(segs)|
    ensures exists j :: 0 <= j < |segs| && SlideOf(segs[j]) == [SlidesOf(segs)[k]]
    decreases |segs|
  {
    assert |segs| > 0;
    var here := SlideOf(segs[0]);
    var rest := SlidesOf(segs[1..]);
    assert SlidesOf(segs) == here + rest;
    if k < |here| {
      assert here == [SlidesOf(segs)[k]];
    } else {
      SlidesOfOrigin(segs[1..], k - |here|);
      assert SlidesOf(segs)[k] == rest[k - |here|];
      var j :| 0 <= j < |segs[1..]| && SlideOf(segs[1..][j]) == [rest[k - |here|]];
      assert segs[1..][j] == segs[j + 1];
    }
  }

  /**
   * `parse_markdown` yields one slide per non-blank segment of the document,
   * each the classification of its segment.
   */
  lemma ParseMarkdownSlides(text: string)
    ensures var segs := Segments(Split(text, '\n'));
      && |ParseMarkdown(text)| == NonBlankCount(segs)
      && forall k :: 0 <= k < |ParseMarkdown(text)| ==>
           exists j :: 0 <= j < |segs| && ClassifySegment(Join(segs[j], "\n")) == Some(ParseMarkdown(text)[k])
  {
    var segs := Segments(Split(text, '\n'));
    SlidesOfCount(segs);
    forall k | 0 <= k < |ParseMarkdown(text)|
      ensures exists j :: 0 <= j < |segs| && ClassifySegment(Join(segs[j], "\n")) == Some(ParseMarkdown(text)[k])
    {
      SlidesOfOrigin(segs, k);
      var j :| 0 <= j < |segs| && SlideOf(segs[j]) == [SlidesOf(segs)[k]];
    }
  }
}
