/**
 * The slide body painter: the `format_text` dispatch for one source line and
 * the `render_content` loop over a slide body.
 *
 * The painter keeps two cursors: the terminal row `y` it draws on next and
 * the source line `i` it reads next.  A table advances `i` by all its lines
 * and `y` by its drawn height; a level-1 heading advances `y` by the height
 * of its banner; fenced code is buffered until its closing fence and then
 * drawn one row per line.  The banner font and the diagram renderer are
 * parameters: `banner(t)` is the banner's lines for the text `t`, and
 * `diagram(d)` the lines drawn for a `mermaid` block `d`.
 */
module Painter {
  import opened Text
  import opened Wrappers
  import opened Screen
  import opened Inline
  import opened Table

  /** `\[[^\]]*\]\([^)]*\)` at position `p`: a `[`, the first `]` after it, a `(` right after, and a later `)`. */
  predicate LinkAt(s: string, p: nat)
    requires p < |s|
  {
    s[p] == '[' &&
    var q := p + 1 + IndexOf(s[p + 1..], ']');
    q + 1 < |s| && s[q + 1] == '(' && IndexOf(s[q + 2..], ')') < |s| - (q + 2)
  }

  /**
   * `re.search(r"!\[[^\]]*\]\([^)]*\)|\[[^\]]*\]\([^)]*\)", line)`.  The
   * image alternative only matches where the link alternative matches one
   * position later, so the search succeeds exactly when a link matches.
   */
  predicate HasLink(s: string) {
    exists p :: 0 <= p < |s| && LinkAt(s, p)
  }

  /**
   * `re.match(r"^(#+) (.*)$", line)`: the heading level and the stripped
   * second group.  The level is the whole run of `#` at the start, and a
   * space must follow it.  For a line without a newline (every line of a
   * slide body) that is the whole condition, and the text is the rest of the
   * line after that space, stripped.
   */
  function HeadingOf(line: string): (r: Option<(nat, string)>)
    ensures r.Some? ==> StartsWith(line, "#")
    ensures r.Some? ==>
      var level := r.value.0;
      1 <= level < |line| && line[level] == ' ' && forall k :: 0 <= k < level ==> line[k] == '#'
    ensures '\n' !in line ==>
      var level := LeadingRun(line, '#');
      (r.Some? <==> 1 <= level < |line| && line[level] == ' ') &&
      (r.Some? ==> r.value == (level, Strip(line[level + 1..])))
  {
    var level := LeadingRun(line, '#');
    if level >= 1 && level < |line| && line[level] == ' ' then
      var rest := line[level + 1..];
      var nl := IndexOf(rest, '\n');
      assert nl < |rest| ==> rest[nl] == line[level + 1 + nl];
      assert rest[..|rest|] == rest;
      // `.` stops at a newline and `$` also matches just before a final one.
      if nl + 1 >= |rest| then Some((level, Strip(rest[..nl]))) else None
    else None
  }

  /** The branch `format_text` takes for a line. */
  datatype Form =
    | TableForm
    | LinkForm
    | QuoteForm
    | HeadingForm(level: nat, text: string)
    | BulletForm
    | PlainForm

  /** The order of the dispatch: table, link, quote, heading, bullet, plain text. */
  function FormOf(line: string, lines: seq<string>, idx: nat): Form {
    if lines != [] && StartsPipe(line) && !Rejected(lines, idx) then TableForm
    else LineForm(line)
  }

  /** The dispatch once no table starts at the line. */
  function LineForm(line: string): (r: Form)
    ensures r != TableForm
  {
    if HasLink(line) then LinkForm
    else if StartsWith(Strip(line), ">") then QuoteForm
    else if HeadingOf(line).Some? then HeadingForm(HeadingOf(line).value.0, HeadingOf(line).value.1)
    else if StartsWith(Strip(line), "- ") then BulletForm
    else PlainForm
  }

  /** `line.lstrip("> ").strip()`: the text of a quote. */
  function QuoteText(line: string): string {
    Strip(LStrip(line, {'>', ' '}))
  }

  /** `"• " + line.strip()[2:]`: the text of a bullet. */
  function BulletText(line: string): string
    requires StartsWith(Strip(line), "- ")
  {
    "• " + Strip(line)[2..]
  }

  /** The pair `format_text` turns on around the whole line (`NoPair` when none). */
  function LinePair(form: Form): nat {
    match form
    case TableForm => TablePair
    case LinkForm => NoPair
    case QuoteForm => QuotePair
    case HeadingForm(level, _) =>
      if level == 1 then HeadingOnePair else if level == 2 then HeadingTwoPair else HeadingPair
    case BulletForm => BulletPair
    case PlainForm => NoPair
  }

  /** How many of `n` rows from row `y` lie above the window's bottom `maxY`. */
  function OnWindow(n: nat, y: int, maxY: int): (r: nat)
    ensures r <= n
  {
    if y >= maxY then 0 else Min(n, maxY - y)
  }

  /** The banner lines drawn for a level-1 heading: those on the window, each on its row and cut at `maxw - x`. */
  predicate BannerLog(log: seq<Write>, lines: seq<string>, y: int, x: int, maxw: int, maxY: int) {
    && |log| == OnWindow(|lines|, y, maxY)
    && forall i :: 0 <= i < |log| ==> log[i] == Write(y + i, x, PyPrefix(lines[i], maxw - x), HeadingOnePair)
  }

  /**
   * `format_text`: draws one line (or the table starting at it) and reports
   * the rows drawn and the source lines read.  A table reads its header, its
   * separator and its rows, all `|` lines, and draws two rows more than
   * that: its three borders and its rows, as `render_table` draws the table
   * `parse_table` reads.  Any other line is read alone and drawn as
   * `LineDrawn` says.  All writes land in the rows drawn.
   */
  method FormatText(line: string, y: int, x: int, maxw: int, maxY: int, maxX: int,
                    banner: string -> seq<string>, lines: seq<string>, idx: nat)
    returns (log: seq<Write>, rows: nat, consumed: nat, pair: nat, ghost data: seq<seq<string>>, ghost widths: seq<nat>)
    ensures consumed >= 1
    ensures RowsWithin(log, y, y + rows)
    ensures pair == LinePair(FormOf(line, lines, idx))
    ensures FormOf(line, lines, idx) == TableForm ==>
      idx + consumed <= |lines| && forall k :: idx <= k < idx + consumed ==> StartsPipe(lines[k])
    ensures TextDrawn(line, lines, idx, log, rows, consumed, data, widths, y, x, maxw, maxY, maxX, banner)
  {
    data, widths := [], [];
    if lines != [] && StartsPipe(line) {
      var found;
      found, log, rows, consumed, data, widths := DrawTable(lines, idx, y, x, maxw, maxY, maxX);
      if found {
        pair := TablePair;
        return;
      }
    }
    log, rows := FormatLine(line, y, x, maxw, maxY, maxX, banner);
    consumed := 1;
    pair := LinePair(LineForm(line));
  }

  /**
   * What `format_text` draws for `line`, line `idx` of `lines`: the table
   * starting there when one does, the line alone otherwise.
   */
  ghost predicate TextDrawn(line: string, lines: seq<string>, idx: nat, log: seq<Write>, rows: nat, consumed: nat,
                            data: seq<seq<string>>, widths: seq<nat>, y: int, x: int, maxw: int, maxY: int, maxX: int,
                            banner: string -> seq<string>)
  {
    if FormOf(line, lines, idx) == TableForm then TableShown(lines, idx, log, rows, consumed, data, widths, y, x, maxw, maxY, maxX)
    else consumed == 1 && LineDrawn(log, rows, line, y, x, maxw, maxY, maxX, banner)
  }

  /**
   * The table at line `idx`: read from `consumed` lines as the rows `data`
   * with column widths `widths`, and drawn as `log` over `rows` rows.
   */
  ghost predicate TableShown(lines: seq<string>, idx: nat, log: seq<Write>, rows: nat, consumed: nat,
                             data: seq<seq<string>>, widths: seq<nat>, y: int, x: int, maxw: int, maxY: int, maxX: int)
  {
    && TableParsed(lines, idx, consumed, data, widths)
    && rows == consumed + 2
    && TableDrawn(log, data, widths, y, x, maxw, maxY, maxX)
  }

  /** The table branch of `format_text`: a table is drawn exactly when `parse_table` accepts. */
  method DrawTable(lines: seq<string>, idx: nat, y: int, x: int, maxw: int, maxY: int, maxX: int)
    returns (found: bool, log: seq<Write>, rows: nat, consumed: nat, ghost data: seq<seq<string>>, ghost widths: seq<nat>)
    ensures found <==> !Rejected(lines, idx)
    ensures RowsWithin(log, y, y + rows)
    ensures found ==> idx + consumed <= |lines| && forall k :: idx <= k < idx + consumed ==> StartsPipe(lines[k])
    ensures found ==> TableShown(lines, idx, log, rows, consumed, data, widths, y, x, maxw, maxY, maxX)
  {
    var parsed := ParseTable(lines, idx);
    if parsed.NoTable? {
      return false, [], 0, 0, [], [];
    }
    found := true;
    log, rows := DrawParsed(lines, idx, parsed, y, x, maxw, maxY, maxX);
    data, widths, consumed := parsed.data, parsed.colWidths, parsed.consumed;
  }

  /** `render_table` on the table `parse_table` read at line `idx`. */
  method DrawParsed(lines: seq<string>, idx: nat, parsed: Parsed, y: int, x: int, maxw: int, maxY: int, maxX: int)
    returns (log: seq<Write>, rows: nat)
    requires parsed.Table? && !Rejected(lines, idx)
    requires TableParsed(lines, idx, parsed.consumed, parsed.data, parsed.colWidths)
    ensures RowsWithin(log, y, y + rows)
    ensures idx + parsed.consumed <= |lines| && forall k :: idx <= k < idx + parsed.consumed ==> StartsPipe(lines[k])
    ensures TableShown(lines, idx, log, rows, parsed.consumed, parsed.data, parsed.colWidths, y, x, maxw, maxY, maxX)
  {
    log, rows := RenderTable(parsed.data, parsed.colWidths, y, x, maxw, maxY, maxX);
  }

  /**
   * What a line that starts no table draws: nothing for a link (the link
   * painter is not part of this model); a bar and the quote's text from two
   * columns on; a level-1 heading's banner, one row per banner line; the
   * inline text of other headings, bullets and plain lines from column `x`,
   * each as `format_inline` writes it.  All but the banner take one row.
   */
  ghost predicate LineDrawn(log: seq<Write>, rows: nat, line: string, y: int, x: int, maxw: int, maxY: int, maxX: int,
                      banner: string -> seq<string>)
  {
    match LineForm(line)
    case TableForm => false
    case LinkForm => rows == 1 && log == []
    case QuoteForm =>
      rows == 1 && |log| >= 1 && log[0] == Write(y, x, "│ ", QuotePair) &&
      InlineWriter(y, maxw, maxY, maxX)(log[1..], QuoteText(line), x + 2)
    case HeadingForm(level, text) =>
      if level == 1 then rows == |banner(text)| && BannerLog(log, banner(text), y, x, maxw, maxY)
      else rows == 1 && InlineWriter(y, maxw, maxY, maxX)(log, text, x)
    case BulletForm =>
      StartsWith(Strip(line), "- ") &&
      rows == 1 && InlineWriter(y, maxw, maxY, maxX)(log, BulletText(line), x)
    case PlainForm =>
      rows == 1 && InlineWriter(y, maxw, maxY, maxX)(log, line, x)
  }

  /** The branches of `format_text` after the table: link, quote, heading, bullet, plain text. */
  method FormatLine(line: string, y: int, x: int, maxw: int, maxY: int, maxX: int,
                    banner: string -> seq<string>)
    returns (log: seq<Write>, rows: nat)
    ensures RowsWithin(log, y, y + rows)
    ensures LineDrawn(log, rows, line, y, x, maxw, maxY, maxX, banner)
  {
    rows := 1;
    var cursor;
    ghost var from;
    if HasLink(line) {
      log := [];
    } else if StartsWith(Strip(line), ">") {
      var inner;
      inner, cursor, from := FormatInline(QuoteText(line), y, x + 2, maxw, maxY, maxX);
      log := [Write(y, x, "│ ", QuotePair)] + inner;
      assert log[1..] == inner;
    } else if HeadingOf(line).Some? {
      var (level, text) := HeadingOf(line).value;
      if level == 1 {
        log, rows := DrawBanner(banner(text), y, x, maxw, maxY);
      } else {
        log, cursor, from := FormatInline(text, y, x, maxw, maxY, maxX);
      }
    } else if StartsWith(Strip(line), "- ") {
      log, cursor, from := FormatInline(BulletText(line), y, x, maxw, maxY, maxX);
    } else {
      log, cursor, from := FormatInline(line, y, x, maxw, maxY, maxX);
    }
  }

  /** The banner loop of a level-1 heading: one row per banner line, drawn while on the window. */
  method DrawBanner(lines: seq<string>, y: int, x: int, maxw: int, maxY: int)
    returns (log: seq<Write>, rows: nat)
    ensures rows == |lines|
    ensures RowsWithin(log, y, y + rows)
    ensures BannerLog(log, lines, y, x, maxw, maxY)
  {
    log := [];
    for i := 0 to |lines|
      invariant RowsWithin(log, y, y + i)
      invariant |log| == OnWindow(i, y, maxY)
      invariant forall j :: 0 <= j < |log| ==> log[j] == Write(y + j, x, PyPrefix(lines[j], maxw - x), HeadingOnePair)
    {
      if y + i < maxY {
        log := log + [Write(y + i, x, PyPrefix(lines[i], maxw - x), HeadingOnePair)];
      }
    }
    rows := |lines|;
  }

  /** `line.strip().startswith("```")`: a line that opens or closes a code block. */
  predicate IsFence(line: string) {
    StartsWith(Strip(line), "```")
  }

  /** The number of fence lines among the first `n` lines. */
  function FenceCount(lines: seq<string>, n: nat): nat
    requires n <= |lines|
  {
    if n == 0 then 0
    else FenceCount(lines, n - 1) + (if IsFence(lines[n - 1]) then 1 else 0)
  }

  /** A table line is never a fence. */
  lemma FenceNotPipe(line: string)
    requires StartsPipe(line)
    ensures !IsFence(line)
  {
    var s := Strip(line);
    assert s[..1][0] == s[0];
  }

  /** Lines that are not fences leave the fence count alone. */
  lemma {:induction false} FenceCountSkip(lines: seq<string>, i: nat, c: nat)
    requires i + c <= |lines|
    requires forall k :: i <= k < i + c ==> !IsFence(lines[k])
    ensures FenceCount(lines, i + c) == FenceCount(lines, i)
    decreases c
  {
    if c > 0 {
      FenceCountSkip(lines, i, c - 1);
    }
  }

  /** `"│ " + line[:maxw - (x + 2)]`: a code line as drawn from column `x`. */
  function CodeRow(line: string, x: int, maxw: int): string {
    "│ " + PyPrefix(line, maxw - (x + 2))
  }

  /** `max(0, min(maxw, maxX) - x)`: the width a diagram line may take. */
  function DiagramWidth(x: int, maxw: int, maxX: int): nat {
    if Min(maxw, maxX) - x > 0 then Min(maxw, maxX) - x else 0
  }

  /** The code-block loop: one row per code line on the window, none when the block starts right of the window. */
  predicate CodeLog(log: seq<Write>, code: seq<string>, y: int, x: int, maxw: int, maxY: int, maxX: int) {
    && |log| == (if x < maxX then OnWindow(|code|, y, maxY) else 0)
    && forall i :: 0 <= i < |log| ==> log[i] == Write(y + i, x, CodeRow(code[i], x, maxw), CodePair)
  }

  /** A closed code block that is not `mermaid`: every line takes a row, drawn or not. */
  method DrawCode(code: seq<string>, y: int, x: int, maxw: int, maxY: int, maxX: int)
    returns (log: seq<Write>, rows: nat)
    ensures rows == |code|
    ensures RowsWithin(log, y, y + rows)
    ensures CodeLog(log, code, y, x, maxw, maxY, maxX)
  {
    log := [];
    for i := 0 to |code|
      invariant RowsWithin(log, y, y + i)
      invariant |log| == (if x < maxX then OnWindow(i, y, maxY) else 0)
      invariant forall j :: 0 <= j < |log| ==> log[j] == Write(y + j, x, CodeRow(code[j], x, maxw), CodePair)
    {
      if y + i < maxY && x < maxX {
        var w := Write(y + i, x, CodeRow(code[i], x, maxw), CodePair);
        log := log + [w];
      }
    }
    rows := |code|;
  }

  /**
   * What the drawing loop of `render_mermaid` draws of the diagram's lines
   * `lines`: each behind a bar and cut to the width left of the window, one
   * per row until the window's last row; `used` is the rows drawn.
   */
  predicate DiagramLog(log: seq<Write>, used: nat, lines: seq<string>, y: int, x: int, maxw: int, maxY: int, maxX: int) {
    && used == OnWindow(|lines|, y, maxY)
    && |log| == used
    && forall k :: 0 <= k < used ==>
         log[k] == Write(y + k, x, PyPrefix("│ " + lines[k], DiagramWidth(x, maxw, maxX)), TablePair)
  }

  /** The drawing loop of `render_mermaid`. */
  method DrawDiagram(diagram: seq<string>, y: int, x: int, maxw: int, maxY: int, maxX: int)
    returns (log: seq<Write>, used: nat)
    ensures DiagramLog(log, used, diagram, y, x, maxw, maxY, maxX)
  {
    var avail := DiagramWidth(x, maxw, maxX);
    log, used := [], 0;
    while used < |diagram|
      invariant used <= |diagram|
      invariant used == 0 || y + used - 1 < maxY
      invariant |log| == used
      invariant forall k :: 0 <= k < used ==>
        log[k] == Write(y + k, x, PyPrefix("│ " + diagram[k], avail), TablePair)
      decreases |diagram| - used
    {
      if y + used >= maxY {
        break;
      }
      log := log + [Write(y + used, x, PyPrefix("│ " + diagram[used], avail), TablePair)];
      used := used + 1;
    }
  }

  /**
   * What the closing fence of a block in `language` holding `code` draws from
   * row `y`: a `mermaid` block is handed to the diagram renderer as its lines
   * joined with newlines, any other block is drawn line by line.
   */
  predicate BlockDrawn(log: seq<Write>, used: nat, language: string, code: seq<string>,
                       y: int, x: int, maxw: int, maxY: int, maxX: int, diagram: string -> seq<string>)
  {
    if language == "mermaid" then DiagramLog(log, used, diagram(Join(code, "\n")), y, x, maxw, maxY, maxX)
    else used == |code| && CodeLog(log, code, y, x, maxw, maxY, maxX)
  }

  /** The closing fence of a code block. */
  method CloseBlock(language: string, code: seq<string>, y: int, x: int, maxw: int, maxY: int, maxX: int,
                    diagram: string -> seq<string>)
    returns (log: seq<Write>, used: nat)
    ensures RowsWithin(log, y, y + used)
    ensures BlockDrawn(log, used, language, code, y, x, maxw, maxY, maxX, diagram)
  {
    if language == "mermaid" {
      log, used := DrawDiagram(diagram(Join(code, "\n")), y, x, maxw, maxY, maxX);
    } else {
      log, used := DrawCode(code, y, x, maxw, maxY, maxX);
    }
  }

  /**
   * A line outside code goes to `format_text`; the lines it reads are never
   * fences, since a table is made of `|` lines. The `pass` it makes from the
   * loop state `c` is what `format_text` drew.
   */
  method TextStep(lines: seq<string>, i: nat, y: int, ghost c: Cursor, x: int, maxw: int, maxY: int, maxX: int,
                  banner: string -> seq<string>)
    returns (log: seq<Write>, rows: nat, consumed: nat, ghost pass: Pass)
    requires c.i == i && c.y == y
    requires i < |lines| && !IsFence(lines[i])
    ensures consumed >= 1 && i + consumed <= |lines|
    ensures RowsWithin(log, y, y + rows)
    ensures forall k :: i <= k < i + consumed ==> !IsFence(lines[k])
    ensures pass == Pass(log, rows, pass.data, pass.widths, Cursor(i + consumed, false, c.language, c.openAt, [], y + rows))
    ensures TextPass(lines, x, maxw, maxY, maxX, banner)(c, pass)
  {
    var pair;
    ghost var data, widths;
    log, rows, consumed, pair, data, widths := FormatText(lines[i], y, x, maxw, maxY, maxX, banner, lines, i);
    pass := Pass(log, rows, data, widths, Cursor(i + consumed, false, c.language, c.openAt, [], y + rows));
    TextPassIntro(lines, i, log, rows, consumed, data, widths, y, c, pass, x, maxw, maxY, maxX, banner);
    forall k | i <= k < i + consumed
      ensures !IsFence(lines[k])
    {
      if k != i {
        FenceNotPipe(lines[k]);
      }
    }
  }

  /** `line.strip()[3:].strip()`, or `"text"` when that is empty: the language of an opening fence. */
  function FenceLanguage(line: string): string
    requires IsFence(line)
  {
    var lang := Strip(Strip(line)[3..]);
    if lang == [] then "text" else lang
  }

  /** `code` is what a block opened at line `open` has buffered when line `i` is next: the lines in between, none a fence. */
  predicate Buffered(lines: seq<string>, open: nat, i: nat, code: seq<string>)
    requires open < i <= |lines|
  {
    IsFence(lines[open]) && code == lines[open + 1..i] &&
    forall k :: open < k < i ==> !IsFence(lines[k])
  }

  /** Buffering one more line. */
  lemma BufferStep(lines: seq<string>, open: nat, i: nat)
    requires open < i < |lines|
    ensures lines[open + 1..i + 1] == lines[open + 1..i] + [lines[i]]
  {
  }

  /**
   * The state of the line loop of `render_content`: the next line `i`,
   * whether a code block is open, its language, the line that opened it
   * (`openAt`, a ghost of the model) and its buffered lines, and the row `y`
   * drawn on next.
   */
  datatype Cursor = Cursor(i: nat, inCode: bool, language: string, openAt: nat, code: seq<string>, y: int)

  /**
   * The code-block state of the line loop before line `i`: a block is open
   * exactly after an odd number of fences; it was opened by the last of
   * them, whose tag is its language, and buffers the lines since.  With no
   * block open, the language is `None` (here `""`) and nothing is buffered.
   */
  ghost predicate Scanning(lines: seq<string>, c: Cursor) {
    && c.i <= |lines|
    && (c.inCode <==> FenceCount(lines, c.i) % 2 == 1)
    && (c.inCode ==> c.openAt < c.i && Buffered(lines, c.openAt, c.i, c.code) && c.language == FenceLanguage(lines[c.openAt]))
    && (!c.inCode ==> c.code == [] && c.language == "")
  }

  /**
   * One pass of the line loop: the writes `log`, the rows `rows` it moves
   * `y` by, the table read when a table is drawn, and the state after it.
   */
  datatype Pass = Pass(log: seq<Write>, rows: nat, data: seq<seq<string>>, widths: seq<nat>, next: Cursor)

  /**
   * What the pass at state `c` does: an opening fence starts a block and
   * draws nothing; a closing fence draws the block (as `closed` says) in the
   * language of its opening fence; a line inside a block is buffered; any
   * other line goes to `format_text` (as `shown` says), which may read a
   * whole table but never a fence.
   */
  ghost predicate PassDrawn(lines: seq<string>, c: Cursor, p: Pass, closed: (Cursor, Pass) -> bool, shown: (Cursor, Pass) -> bool)
    requires c.i < |lines|
  {
    var line := lines[c.i];
    if IsFence(line) && !c.inCode then
      p.log == [] && p.rows == 0 && p.next == Cursor(c.i + 1, true, FenceLanguage(line), c.i, [], c.y)
    else if IsFence(line) then
      && closed(c, p)
      && p.next == Cursor(c.i + 1, false, "", c.openAt, [], c.y + p.rows)
    else if c.inCode then
      p.log == [] && p.rows == 0 && p.next == Cursor(c.i + 1, true, c.language, c.openAt, c.code + [line], c.y)
    else
      && c.i < p.next.i <= |lines|
      && p.next == Cursor(p.next.i, false, c.language, c.openAt, [], c.y + p.rows)
      && (forall k :: c.i <= k < p.next.i ==> !IsFence(lines[k]))
      && shown(c, p)
  }

  /** A closed block drawn by `draw_mermaid` or as code, at the row of the pass. */
  ghost function BlockPass(x: int, maxw: int, maxY: int, maxX: int, diagram: string -> seq<string>): (Cursor, Pass) -> bool
  {
    (c: Cursor, p: Pass) => BlockDrawn(p.log, p.rows, c.language, c.code, c.y, x, maxw, maxY, maxX, diagram)
  }

  /** The lines from the one at the pass up to its next state, drawn by `format_text`. */
  ghost function TextPass(lines: seq<string>, x: int, maxw: int, maxY: int, maxX: int,
                          banner: string -> seq<string>): (Cursor, Pass) -> bool
  {
    (c: Cursor, p: Pass) =>
      && c.i < |lines| && c.i <= p.next.i
      && TextDrawn(lines[c.i], lines, c.i, p.log, p.rows, p.next.i - c.i, p.data, p.widths, c.y, x, maxw, maxY, maxX, banner)
  }

  /** A pass of the line loop of `render_content` over `lines`, as `PassDrawn` says. */
  ghost function LoopPass(lines: seq<string>, x: int, maxw: int, maxY: int, maxX: int,
                          banner: string -> seq<string>, diagram: string -> seq<string>): (Cursor, Pass) -> bool
  {
    (c: Cursor, p: Pass) =>
      c.i < |lines| && PassDrawn(lines, c, p, BlockPass(x, maxw, maxY, maxX, diagram), TextPass(lines, x, maxw, maxY, maxX, banner))
  }

  /** The state the passes `passes` made from state `c` leave the loop in. */
  function After(c: Cursor, passes: seq<Pass>): Cursor {
    if passes == [] then c else passes[|passes| - 1].next
  }

  /** The passes `passes`, one after the other from state `c`, each as `pass` says. */
  ghost predicate Painted(c: Cursor, passes: seq<Pass>, pass: (Cursor, Pass) -> bool)
    decreases |passes|
  {
    || passes == []
    || var n := |passes| - 1;
       Painted(c, passes[..n], pass) && pass(After(c, passes[..n]), passes[n])
  }

  /** The writes of the passes, in order. */
  function Logs(passes: seq<Pass>): seq<Write>
    decreases |passes|
  {
    if passes == [] then [] else Logs(passes[..|passes| - 1]) + passes[|passes| - 1].log
  }

  /** One more pass at the end of a run of passes. */
  lemma PaintedPush(c: Cursor, passes: seq<Pass>, p: Pass, pass: (Cursor, Pass) -> bool)
    requires Painted(c, passes, pass) && pass(After(c, passes), p)
    ensures Painted(c, passes + [p], pass) && After(c, passes + [p]) == p.next
  {
    assert (passes + [p])[..|passes|] == passes;
  }

  /** One pass of the line loop of `render_content`, at line `i`. */
  method ContentStep(lines: seq<string>, i: nat, inCode: bool, language: string, code: seq<string>, ghost openAt: nat,
                     y: int, x: int, maxw: int, maxY: int, maxX: int,
                     banner: string -> seq<string>, diagram: string -> seq<string>)
    returns (log: seq<Write>, rows: nat, i': nat, inCode': bool, language': string, code': seq<string>,
             ghost openAt': nat, ghost pass: Pass)
    requires i < |lines|
    ensures pass == Pass(log, rows, pass.data, pass.widths, Cursor(i', inCode', language', openAt', code', y + rows))
    ensures i < i' <= |lines|
    ensures RowsWithin(log, y, y + rows)
    ensures LoopPass(lines, x, maxw, maxY, maxX, banner, diagram)(Cursor(i, inCode, language, openAt, code, y), pass)
  {
    ghost var here := Cursor(i, inCode, language, openAt, code, y);
    var line := lines[i];
    if IsFence(line) && !inCode {
      log, rows, i', inCode', language', code', openAt' := [], 0, i + 1, true, FenceLanguage(line), [], i;
      pass := Pass(log, rows, [], [], Cursor(i', inCode', language', openAt', code', y + rows));
      PassOpen(lines, here, pass, x, maxw, maxY, maxX, banner, diagram);
    } else if IsFence(line) {
      log, rows := CloseBlock(language, code, y, x, maxw, maxY, maxX, diagram);
      i', inCode', language', code', openAt' := i + 1, false, "", [], openAt;
      pass := Pass(log, rows, [], [], Cursor(i', inCode', language', openAt', code', y + rows));
      PassClose(lines, here, pass, x, maxw, maxY, maxX, banner, diagram);
    } else if inCode {
      log, rows, i', inCode', language', code', openAt' := [], 0, i + 1, true, language, code + [line], openAt;
      pass := Pass(log, rows, [], [], Cursor(i', inCode', language', openAt', code', y + rows));
      PassBuffer(lines, here, pass, x, maxw, maxY, maxX, banner, diagram);
    } else {
      log, rows, i', pass := ContentText(lines, i, y, here, x, maxw, maxY, maxX, banner, diagram);
      inCode', language', code', openAt' := false, language, [], openAt;
    }
  }

  /** The pass of the line loop at a line outside a block that is no fence: `format_text` draws it. */
  method ContentText(lines: seq<string>, i: nat, y: int, ghost c: Cursor, x: int, maxw: int, maxY: int, maxX: int,
                     banner: string -> seq<string>, diagram: string -> seq<string>)
    returns (log: seq<Write>, rows: nat, i': nat, ghost pass: Pass)
    requires c.i == i && c.y == y
    requires i < |lines| && !IsFence(lines[i]) && !c.inCode
    ensures pass == Pass(log, rows, pass.data, pass.widths, Cursor(i', false, c.language, c.openAt, [], c.y + rows))
    ensures c.i < i' <= |lines|
    ensures RowsWithin(log, c.y, c.y + rows)
    ensures LoopPass(lines, x, maxw, maxY, maxX, banner, diagram)(c, pass)
  {
    var consumed;
    log, rows, consumed, pass := TextStep(lines, i, y, c, x, maxw, maxY, maxX, banner);
    i' := i + consumed;
    PassText(lines, c, pass, consumed, x, maxw, maxY, maxX, banner, diagram);
  }

  /** An opening fence outside a block opens one in the fence's language, drawing nothing. */
  lemma PassOpen(lines: seq<string>, c: Cursor, p: Pass, x: int, maxw: int, maxY: int, maxX: int,
                 banner: string -> seq<string>, diagram: string -> seq<string>)
    requires c.i < |lines| && IsFence(lines[c.i]) && !c.inCode
    requires p.log == [] && p.rows == 0 && p.next == Cursor(c.i + 1, true, FenceLanguage(lines[c.i]), c.i, [], c.y)
    ensures LoopPass(lines, x, maxw, maxY, maxX, banner, diagram)(c, p)
  {
  }

  /** A fence inside a block closes it and draws it. */
  lemma PassClose(lines: seq<string>, c: Cursor, p: Pass, x: int, maxw: int, maxY: int, maxX: int,
                  banner: string -> seq<string>, diagram: string -> seq<string>)
    requires c.i < |lines| && IsFence(lines[c.i]) && c.inCode
    requires BlockDrawn(p.log, p.rows, c.language, c.code, c.y, x, maxw, maxY, maxX, diagram)
    requires p.next == Cursor(c.i + 1, false, "", c.openAt, [], c.y + p.rows)
    ensures LoopPass(lines, x, maxw, maxY, maxX, banner, diagram)(c, p)
  {
  }

  /** Any other line inside a block is buffered, drawing nothing. */
  lemma PassBuffer(lines: seq<string>, c: Cursor, p: Pass, x: int, maxw: int, maxY: int, maxX: int,
                   banner: string -> seq<string>, diagram: string -> seq<string>)
    requires c.i < |lines| && !IsFence(lines[c.i]) && c.inCode
    requires p.log == [] && p.rows == 0 && p.next == Cursor(c.i + 1, true, c.language, c.openAt, c.code + [lines[c.i]], c.y)
    ensures LoopPass(lines, x, maxw, maxY, maxX, banner, diagram)(c, p)
  {
  }

  /** A text line outside a block, drawn by `format_text` from `consumed` lines, none a fence. */
  lemma PassText(lines: seq<string>, c: Cursor, p: Pass, consumed: nat, x: int, maxw: int, maxY: int, maxX: int,
                 banner: string -> seq<string>, diagram: string -> seq<string>)
    requires c.i < |lines| && !IsFence(lines[c.i]) && !c.inCode && consumed >= 1 && c.i + consumed <= |lines|
    requires p.next == Cursor(c.i + consumed, false, c.language, c.openAt, [], c.y + p.rows)
    requires forall k :: c.i <= k < c.i + consumed ==> !IsFence(lines[k])
    requires TextPass(lines, x, maxw, maxY, maxX, banner)(c, p)
    ensures LoopPass(lines, x, maxw, maxY, maxX, banner, diagram)(c, p)
  {
  }

  /** What `format_text` drew from line `c.i`, up to the next state of the pass. */
  lemma TextPassIntro(lines: seq<string>, i: nat, log: seq<Write>, rows: nat, consumed: nat,
                      data: seq<seq<string>>, widths: seq<nat>, y: int, c: Cursor, p: Pass,
                      x: int, maxw: int, maxY: int, maxX: int, banner: string -> seq<string>)
    requires i < |lines| && c.i == i && c.y == y
    requires p == Pass(log, rows, data, widths, Cursor(i + consumed, false, c.language, c.openAt, [], y + rows))
    requires TextDrawn(lines[i], lines, i, log, rows, consumed, data, widths, y, x, maxw, maxY, maxX, banner)
    ensures TextPass(lines, x, maxw, maxY, maxX, banner)(c, p)
  {
  }

  /** Every pass keeps the loop state in step with the fences read so far. */
  lemma ScanningPass(lines: seq<string>, c: Cursor, p: Pass, closed: (Cursor, Pass) -> bool, shown: (Cursor, Pass) -> bool)
    requires c.i < |lines| && Scanning(lines, c)
    requires PassDrawn(lines, c, p, closed, shown)
    ensures Scanning(lines, p.next)
  {
    if !IsFence(lines[c.i]) && c.inCode {
      BufferStep(lines, c.openAt, c.i);
    } else if !IsFence(lines[c.i]) {
      FenceCountSkip(lines, c.i, p.next.i - c.i);
    }
  }

  /**
   * The loop of `render_content` over the lines of a slide body: the passes
   * it makes lead from the first line, with no block open and `y` at
   * `startY`, to the end of the lines, and its writes are theirs, in order.
   * Writes land in the rows from `startY` down to the final row cursor `y`.
   * A code block left open at the end (an odd number of fence lines) is
   * never drawn: its buffered lines, those after the last fence, are
   * `dropped`.
   */
  method RenderContent(content: string, startY: int, startX: int, maxw: int, maxY: int, maxX: int,
                       banner: string -> seq<string>, diagram: string -> seq<string>)
    returns (log: seq<Write>, y: int, unclosed: bool, dropped: seq<string>, ghost passes: seq<Pass>, ghost final: Cursor)
    ensures var lines := Split(content, '\n');
      && Painted(Cursor(0, false, "", 0, [], startY), passes, LoopPass(lines, startX, maxw, maxY, maxX, banner, diagram))
      && final == After(Cursor(0, false, "", 0, [], startY), passes) && final.i == |lines|
    ensures log == Logs(passes) && y == final.y
    ensures unclosed == final.inCode && dropped == final.code
    ensures y >= startY
    ensures RowsWithin(log, startY, y)
    ensures unclosed <==> var lines := Split(content, '\n'); FenceCount(lines, |lines|) % 2 == 1
    ensures unclosed ==>
      var lines := Split(content, '\n');
      exists j :: 0 <= j < |lines| && Buffered(lines, j, |lines|, dropped)
    ensures !unclosed ==> dropped == []
  {
    var lines := Split(content, '\n');
    y := startY;
    var i := 0;
    var inCode := false;
    var language := "";
    var codeLines: seq<string> := [];
    ghost var openAt := 0;
    log := [];
    passes := [];
    ghost var start := Cursor(0, false, "", 0, [], startY);
    while i < |lines|
      invariant 0 <= i <= |lines|
      invariant y >= startY
      invariant RowsWithin(log, startY, y)
      invariant Scanning(lines, Cursor(i, inCode, language, openAt, codeLines, y))
      invariant Painted(start, passes, LoopPass(lines, startX, maxw, maxY, maxX, banner, diagram))
      invariant After(start, passes) == Cursor(i, inCode, language, openAt, codeLines, y)
      invariant log == Logs(passes)
      decreases |lines| - i
    {
      var drawn, rows;
      ghost var pass;
      ghost var here := Cursor(i, inCode, language, openAt, codeLines, y);
      drawn, rows, i, inCode, language, codeLines, openAt, pass :=
        ContentStep(lines, i, inCode, language, codeLines, openAt, y, startX, maxw, maxY, maxX, banner, diagram);
      ScanningPass(lines, here, pass, BlockPass(startX, maxw, maxY, maxX, diagram),
                   TextPass(lines, startX, maxw, maxY, maxX, banner));
      PaintedPush(start, passes, pass, LoopPass(lines, startX, maxw, maxY, maxX, banner, diagram));
      LogsPush(passes, pass);
      RowsWithinAppend(log, drawn, startY, y, y + rows);
      log, y, passes := log + drawn, y + rows, passes + [pass];
    }
    unclosed, dropped := inCode, codeLines;
    final := Cursor(i, inCode, language, openAt, codeLines, y);
  }

  /** The writes of one more pass come after those of the passes before it. */
  lemma LogsPush(passes: seq<Pass>, p: Pass)
    ensures Logs(passes + [p]) == Logs(passes) + p.log
  {
    assert (passes + [p])[..|passes|] == passes;
  }
}
