/**
 * Pipe tables: `parse_table`, `render_row` and `render_table`.
 *
 * A table is a header row, a separator row of dash cells with the same
 * number of cells, and then every following `|` row with that number of
 * cells; the first `|` row with another count ends the table and is left to
 * the painter's normal line dispatch.
 */
module Table {
  import opened Text
  import opened Wrappers
  import opened Screen
  import opened Inline

  /** `line.strip().startswith("|")`. */
  predicate StartsPipe(line: string) {
    StartsWith(Strip(line), "|")
  }

  /** `[cell.strip() for cell in line.strip("| \t").split("|")]`: never empty. */
  function Cells(line: string): (r: seq<string>)
    ensures |r| >= 1
  {
    StripEach(Split(StripChars(line, PipeBlank), '|'))
  }

  /** `[p.strip() for p in parts]`. */
  function StripEach(parts: seq<string>): (r: seq<string>)
    ensures |r| == |parts|
    decreases |parts|
  {
    if |parts| == 0 then [] else [Strip(parts[0])] + StripEach(parts[1..])
  }

  /** A stripped separator cell matching `^-+:?-*$`. */
  predicate IsRuleCell(c: string) {
    var d := LeadingRun(c, '-');
    d >= 1 && (d == |c| || (c[d] == ':' && AllIn(c[d + 1..], {'-'})))
  }

  predicate AllRuleCells(cells: seq<string>) {
    forall j :: 0 <= j < |cells| ==> IsRuleCell(cells[j])
  }

  /**
   * The three ways `parse_table` gives up: no `|` line at `start`; no `|`
   * line after it; a separator whose cell count differs from the header's
   * or one of whose cells is not a dash rule.
   */
  predicate Rejected(lines: seq<string>, start: nat) {
    || start >= |lines| || !StartsPipe(lines[start])
    || start + 1 >= |lines| || !StartsPipe(lines[start + 1])
    || |Cells(lines[start + 1])| != |Cells(lines[start])|
    || !AllRuleCells(Cells(lines[start + 1]))
  }

  /** The outcome of `parse_table`: `(None, 0)`, or the rows, the column widths and the lines consumed. */
  datatype Parsed =
    | NoTable
    | Table(data: seq<seq<string>>, colWidths: seq<nat>, consumed: nat)

  function Max(a: nat, b: nat): nat {
    if a < b then b else a
  }

  /** Every width is the largest rendered length found in its column. */
  predicate ColumnMaxima(data: seq<seq<string>>, widths: seq<nat>) {
    WidthsBound(data, widths) && WidthsAttained(data, widths)
  }

  /** No cell is longer than its column's width. */
  predicate WidthsBound(data: seq<seq<string>>, widths: seq<nat>) {
    forall c, j :: 0 <= c < |widths| && 0 <= j < |data| && c < |data[j]| ==>
      RenderedLength(data[j][c]) <= widths[c]
  }

  /** Every column's width is the length of one of its cells. */
  predicate WidthsAttained(data: seq<seq<string>>, widths: seq<nat>) {
    forall c :: 0 <= c < |widths| ==> AttainedAt(data, widths, c)
  }

  /** Column `c`'s width is the length of one of its cells. */
  predicate AttainedAt(data: seq<seq<string>>, widths: seq<nat>, c: nat)
    requires c < |widths|
  {
    exists j :: 0 <= j < |data| && c < |data[j]| && widths[c] == RenderedLength(data[j][c])
  }

  /**
   * What `parse_table` returns for a table at `start`: the header's cells,
   * then the cells of every `|` line after the separator up to the first
   * one with another cell count, the maxima of their columns as widths,
   * and the lines read (the rows and the separator).
   */
  predicate TableParsed(lines: seq<string>, start: nat, consumed: nat, data: seq<seq<string>>, widths: seq<nat>) {
    && |data| >= 1
    && consumed == |data| + 1
    && start + consumed <= |lines|
    && data[0] == Cells(lines[start])
    && (forall k :: start + 2 <= k < start + consumed ==>
          StartsPipe(lines[k]) && data[k - start - 1] == Cells(lines[k]))
    && (forall j :: 0 <= j < |data| ==> |data[j]| == |data[0]|)
    && |widths| == |data[0]|
    && ColumnMaxima(data, widths)
    && (start + consumed == |lines|
        || !StartsPipe(lines[start + consumed])
        || |Cells(lines[start + consumed])| != |data[0]|)
  }

  /** `parse_table(lines, start)`. */
  method ParseTable(lines: seq<string>, start: nat) returns (r: Parsed)
    ensures r.NoTable? <==> Rejected(lines, start)
    ensures r.Table? ==> TableParsed(lines, start, r.consumed, r.data, r.colWidths)
  {
    if start >= |lines| || !StartsPipe(lines[start]) {
      return NoTable;
    }
    // The source's `if not header` cannot fire: a split always yields a piece.
    var header := Cells(lines[start]);
    var data := [header];
    var widths: seq<nat> := seq(|header|, c requires 0 <= c < |header| => RenderedLength(header[c]));
    var cur := start + 1;
    if cur >= |lines| || !StartsPipe(lines[cur]) {
      return NoTable;
    }
    var sep := Cells(lines[cur]);
    if |sep| != |header| || !(forall j | 0 <= j < |sep| :: IsRuleCell(sep[j])) {
      return NoTable;
    }
    cur := cur + 1;
    assert forall c :: 0 <= c < |widths| ==> widths[c] == RenderedLength(data[0][c]);
    while cur < |lines| && StartsPipe(lines[cur])
      invariant start + 2 <= cur <= |lines|
      invariant |data| >= 1 && data[0] == header && cur == start + 1 + |data|
      invariant forall k :: start + 2 <= k < cur ==>
        StartsPipe(lines[k]) && data[k - start - 1] == Cells(lines[k])
      invariant forall j :: 0 <= j < |data| ==> |data[j]| == |header|
      invariant |widths| == |header|
      invariant ColumnMaxima(data, widths)
    {
      var row := Cells(lines[cur]);
      if |row| != |header| {
        break;
      }
      var before := widths;
      widths := WidenColumns(widths, row);
      ColumnMaximaGrow(data, row, before, widths);
      ghost var old_data := data;
      data := data + [row];
      assert data[|old_data|] == row && |old_data| + start + 1 == cur;
      assert forall j :: 1 <= j < |old_data| ==> data[j] == old_data[j];
      cur := cur + 1;
    }
    TableParsedIntro(lines, start, cur - start, data, widths);
    return Table(data, widths, cur - start);
  }

  /** The facts `parse_table`'s loop ends with make up a parsed table. */
  lemma TableParsedIntro(lines: seq<string>, start: nat, consumed: nat, data: seq<seq<string>>, widths: seq<nat>)
    requires |data| >= 1 && consumed == |data| + 1 && start + consumed <= |lines|
    requires data[0] == Cells(lines[start])
    requires forall k :: start + 2 <= k < start + consumed ==>
      StartsPipe(lines[k]) && data[k - start - 1] == Cells(lines[k])
    requires forall j :: 0 <= j < |data| ==> |data[j]| == |data[0]|
    requires |widths| == |data[0]| && ColumnMaxima(data, widths)
    requires start + consumed == |lines| || !StartsPipe(lines[start + consumed])
      || |Cells(lines[start + consumed])| != |data[0]|
    ensures TableParsed(lines, start, consumed, data, widths)
  {
  }

  /** The inner loop of `parse_table`: `col_widths[i] = max(col_widths[i], rendered_length(cell))`. */
  method WidenColumns(widths: seq<nat>, row: seq<string>) returns (r: seq<nat>)
    requires |row| == |widths|
    ensures |r| == |widths|
    ensures forall c :: 0 <= c < |r| ==> r[c] == Max(widths[c], RenderedLength(row[c]))
  {
    r := widths;
    for c := 0 to |row|
      invariant |r| == |widths|
      invariant forall c' :: 0 <= c' < c ==> r[c'] == Max(widths[c'], RenderedLength(row[c']))
      invariant forall c' :: c <= c' < |r| ==> r[c'] == widths[c']
    {
      r := r[c := Max(r[c], RenderedLength(row[c]))];
    }
  }

  /** Adding a row and taking column-wise maxima keeps every width a column maximum. */
  lemma ColumnMaximaGrow(data: seq<seq<string>>, row: seq<string>, before: seq<nat>, after: seq<nat>)
    requires ColumnMaxima(data, before)
    requires |row| == |before| == |after|
    requires forall c :: 0 <= c < |after| ==> after[c] == Max(before[c], RenderedLength(row[c]))
    ensures ColumnMaxima(data + [row], after)
  {
    BoundGrow(data, row, before, after);
    AttainedGrow(data, row, before, after);
  }

  lemma BoundGrow(data: seq<seq<string>>, row: seq<string>, before: seq<nat>, after: seq<nat>)
    requires WidthsBound(data, before)
    requires |row| == |before| == |after|
    requires forall c :: 0 <= c < |after| ==> after[c] == Max(before[c], RenderedLength(row[c]))
    ensures WidthsBound(data + [row], after)
  {
    var all := data + [row];
    forall c, j | 0 <= c < |after| && 0 <= j < |all| && c < |all[j]|
      ensures RenderedLength(all[j][c]) <= after[c]
    {
      if j < |data| {
        assert all[j] == data[j];
      } else {
        assert all[j] == row;
      }
    }
  }

  lemma AttainedGrow(data: seq<seq<string>>, row: seq<string>, before: seq<nat>, after: seq<nat>)
    requires WidthsAttained(data, before)
    requires |row| == |before| == |after|
    requires forall c :: 0 <= c < |after| ==> after[c] == Max(before[c], RenderedLength(row[c]))
    ensures WidthsAttained(data + [row], after)
  {
    var all := data + [row];
    forall c | 0 <= c < |after|
      ensures AttainedAt(all, after, c)
    {
      var j := |data|;
      if after[c] != RenderedLength(row[c]) {
        assert AttainedAt(data, before, c);
        j :| 0 <= j < |data| && c < |data[j]| && before[c] == RenderedLength(data[j][c]);
        assert all[j] == data[j];
      } else {
        assert all[j] == row;
      }
      assert 0 <= j < |all| && c < |all[j]| && after[c] == RenderedLength(all[j][c]);
    }
  }

  const Horizontal: char := '\U{2500}'

  /** The horizontal pieces of a border: `"─" * (w + 2)` per column. */
  function Pieces(widths: seq<nat>): seq<string> {
    seq(|widths|, c requires 0 <= c < |widths| => Repeat(Horizontal, widths[c] + 2))
  }

  /** `left + mid.join("─" * (w + 2) for w in widths) + right`. */
  function Border(left: char, mid: char, right: char, widths: seq<nat>): string {
    [left] + Join(Pieces(widths), [mid]) + [right]
  }

  function Sum(widths: seq<nat>): nat
    decreases |widths|
  {
    if |widths| == 0 then 0 else widths[0] + Sum(widths[1..])
  }

  /** Column of the `k`-th vertical bar of a row, counted from the row's left edge. */
  function Offset(widths: seq<nat>, k: nat): (r: nat)
    requires k <= |widths|
    ensures r >= 3 * k
    decreases k
  {
    if k == 0 then 0 else widths[0] + 3 + Offset(widths[1..], k - 1)
  }

  lemma {:induction false} OffsetStep(widths: seq<nat>, k: nat)
    requires k < |widths|
    ensures Offset(widths, k + 1) == Offset(widths, k) + widths[k] + 3
    decreases k
  {
    if k > 0 {
      OffsetStep(widths[1..], k - 1);
    }
  }

  lemma {:induction false} OffsetAll(widths: seq<nat>)
    ensures Offset(widths, |widths|) == Sum(widths) + 3 * |widths|
    decreases |widths|
  {
    if |widths| > 0 {
      OffsetAll(widths[1..]);
    }
  }

  /** The right part of a border, after its left corner. */
  lemma {:induction false} BorderTail(mid: char, right: char, widths: seq<nat>, k: nat)
    requires 1 <= k <= |widths|
    ensures |Join(Pieces(widths), [mid]) + [right]| == Offset(widths, |widths|)
    ensures Offset(widths, k) <= Offset(widths, |widths|)
    ensures (Join(Pieces(widths), [mid]) + [right])[Offset(widths, k) - 1] ==
      if k == |widths| then right else mid
    decreases |widths|
  {
    var ps := Pieces(widths);
    assert ps[1..] == Pieces(widths[1..]);
    if |widths| == 1 {
      assert Join(ps, [mid]) == ps[0];
      assert Offset(widths[1..], 0) == 0;
    } else {
      var tail := Join(Pieces(widths[1..]), [mid]) + [right];
      assert Join(ps, [mid]) + [right] == ps[0] + [mid] + tail;
      if k == 1 {
        BorderTail(mid, right, widths[1..], 1);
        assert Offset(widths[1..], 0) == 0;
      } else {
        BorderTail(mid, right, widths[1..], k - 1);
      }
    }
  }

  /**
   * A border is `sum(widths) + 3 * len(widths) + 1` characters long, and
   * its corner or junction characters sit exactly at the columns where
   * `render_row` draws its vertical bars.
   */
  lemma BorderMatchesRow(left: char, mid: char, right: char, widths: seq<nat>, k: nat)
    requires 1 <= |widths| && k <= |widths|
    ensures |Border(left, mid, right, widths)| == Sum(widths) + 3 * |widths| + 1
    ensures Offset(widths, k) < |Border(left, mid, right, widths)|
    ensures Border(left, mid, right, widths)[Offset(widths, k)] ==
      if k == 0 then left else if k == |widths| then right else mid
  {
    OffsetAll(widths);
    BorderTail(mid, right, widths, if k == 0 then 1 else k);
    var b := Border(left, mid, right, widths);
    assert b == [left] + (Join(Pieces(widths), [mid]) + [right]);
  }

  /** The padding `render_row` writes after a cell of rendered length `rl`: up to the width plus one space, when that is positive. */
  function PadWrites(y: int, rl: nat, width: nat, left: int): seq<Write> {
    if width + 1 > rl then [Write(y, left + 2 + rl, Repeat(' ', width + 1 - rl), NoPair)] else []
  }

  /**
   * The writes of one cell of rendered length `rl` whose bar before it is at
   * column `left`: a space, the cell's inline writes `inline` (drawn from
   * `left + 2`), the padding and the bar that closes the cell at
   * `left + width + 3`.
   */
  function CellWrites(y: int, rl: nat, width: nat, left: int, inline: seq<Write>): seq<Write> {
    [Write(y, left + 1, " ", NoPair)] + inline + PadWrites(y, rl, width, left) + [Write(y, left + width + 3, [Bar], NoPair)]
  }

  /** The writes of a row's left wall and of its first `|inlines|` cells, cell `k` of rendered length `lens[k]`. */
  function RowWrites(y: int, lens: seq<nat>, widths: seq<nat>, x: int, inlines: seq<seq<Write>>): seq<Write>
    requires |inlines| <= |lens| <= |widths|
    decreases |inlines|
  {
    if |inlines| == 0 then [Write(y, x, [Bar], NoPair)]
    else
      var k := |inlines| - 1;
      RowWrites(y, lens, widths, x, inlines[..k]) + CellWrites(y, lens[k], widths[k], x + Offset(widths, k), inlines[k])
  }

  /** What `measure` gives for each cell of `row`. */
  function Measures(row: seq<string>, measure: string -> nat): (r: seq<nat>)
    ensures |r| == |row|
    decreases |row|
  {
    if |row| == 0 then [] else [measure(row[0])] + Measures(row[1..], measure)
  }

  /** The rendered length of each cell of `row`. */
  function Lengths(row: seq<string>): (r: seq<nat>)
    ensures |r| == |row|
  {
    Measures(row, RenderedLength)
  }

  /**
   * What `show` gives for each cell of `row` whose left bar is at column `x`:
   * cell `k` is drawn from the column after the space after bar `k`.
   */
  function Placed(row: seq<string>, widths: seq<nat>, x: int, show: (string, int) -> string): (r: seq<string>)
    requires |row| <= |widths|
    ensures |r| == |row|
    decreases |row|
  {
    if |row| == 0 then []
    else [show(row[0], x + 2)] + Placed(row[1..], widths[1..], x + widths[0] + 3, show)
  }

  /** What `format_inline` shows of a text drawn from column `cx` of row `y`. */
  function Shower(y: int, maxw: int, maxY: int, maxX: int): (string, int) -> string {
    (text, cx) => InlineShown(text, y, cx, maxw, maxY, maxX)
  }

  /** What `format_inline` shows of each cell of `row` whose left bar is at column `x`. */
  function ShownTexts(row: seq<string>, y: int, widths: seq<nat>, x: int, maxw: int, maxY: int, maxX: int): (r: seq<string>)
    requires |row| <= |widths|
    ensures |r| == |row|
  {
    Placed(row, widths, x, Shower(y, maxw, maxY, maxX))
  }

  /** A row's log whose cells were measured as `lens` and `shown`, cell `k`'s inline writes being `inlines[k]`. */
  ghost predicate RowParts(log: seq<Write>, inlines: seq<seq<Write>>, lens: seq<nat>, shown: seq<string>,
                           y: int, widths: seq<nat>, x: int)
    requires |lens| <= |widths|
  {
    && |inlines| == |lens| == |shown|
    && log == RowWrites(y, lens, widths, x, inlines)
    && CellsFit(inlines, shown, lens, y, widths, x)
  }

  /** Cell `k`'s inline writes `inlines[k]` draw `shown[k]` within `lens[k]` columns from two after bar `k`. */
  ghost predicate CellsFit(inlines: seq<seq<Write>>, shown: seq<string>, lens: seq<nat>, y: int, widths: seq<nat>, x: int)
    requires |inlines| == |shown| == |lens| <= |widths|
    decreases |inlines|
  {
    || |inlines| == 0
    || var n := |inlines| - 1;
       && CellsFit(inlines[..n], shown[..n], lens[..n], y, widths, x)
       && InlineFits(inlines[n], shown[n], lens[n], y, x + Offset(widths, n) + 2)
  }

  /**
   * What `render_row` draws of `row` on terminal row `y`, the inline text of
   * cell `k` being written by `inlines[k]` as `format_inline` writes it from
   * two columns after bar `k`.
   */
  ghost predicate RowDrawn(log: seq<Write>, inlines: seq<seq<Write>>, y: int, row: seq<string>, widths: seq<nat>,
                           x: int, maxw: int, maxY: int, maxX: int)
    requires |row| <= |widths|
  {
    && RowParts(log, inlines, Lengths(row), ShownTexts(row, y, widths, x, maxw, maxY, maxX), y, widths, x)
    && CellsInline(inlines, row, widths, x, |row|, InlineWriter(y, maxw, maxY, maxX))
  }

  /** The first `n` cells' inline writes are as `inline` draws each cell from two columns after its bar. */
  ghost predicate CellsInline(inlines: seq<seq<Write>>, row: seq<string>, widths: seq<nat>, x: int, n: nat,
                              inline: (seq<Write>, string, int) -> bool)
  {
    forall k :: 0 <= k < n && k < |inlines| && k < |row| && k <= |widths| ==>
      inline(inlines[k], row[k], x + Offset(widths, k) + 2)
  }

  /**
   * `render_row`: a bar at the row's left edge, then per cell a space, the
   * cell's inline text, padding up to the column width and a closing bar.
   * The `k`-th bar sits at column `x + Offset(widths, k)`; every write is on
   * row `y`.
   */
  method RenderRow(y: int, row: seq<string>, widths: seq<nat>, x: int, maxw: int, maxY: int, maxX: int)
    returns (log: seq<Write>, used: nat, ghost inlines: seq<seq<Write>>)
    requires |row| <= |widths|
    ensures used == 1
    ensures RowsWithin(log, y, y + 1)
    ensures RowDrawn(log, inlines, y, row, widths, x, maxw, maxY, maxX)
  {
    log := [Write(y, x, [Bar], NoPair)];
    inlines := [];
    ghost var lens: seq<nat> := [];
    ghost var shown: seq<string> := [];
    var cur := x + 1;
    for i := 0 to |row|
      invariant cur == x + 1 + Offset(widths, i)
      invariant RowsWithin(log, y, y + 1)
      invariant CellsDrawn(log, inlines, lens, shown, i, y, row, widths, x, RenderedLength, Shower(y, maxw, maxY, maxX))
      invariant CellsInline(inlines, row, widths, x, i, InlineWriter(y, maxw, maxY, maxX))
    {
      log, inlines, lens, shown := RenderCellAt(log, inlines, lens, shown, i, y, row, widths, x, cur, maxw, maxY, maxX);
      CellsInlinePush(inlines, row, widths, x, i, InlineWriter(y, maxw, maxY, maxX));
      OffsetStep(widths, i);
      cur := cur + widths[i] + 3;
    }
    used := 1;
    RowDone(log, inlines, lens, shown, y, row, widths, x, maxw, maxY, maxX);
  }

  /** Cell `i` of the row, drawn after the bar at column `cur - 1`, keeps the state of the cell loop. */
  method RenderCellAt(log: seq<Write>, ghost inlines: seq<seq<Write>>, ghost lens: seq<nat>, ghost shown: seq<string>, i: nat,
                      y: int, row: seq<string>, widths: seq<nat>, x: int, cur: int, maxw: int, maxY: int, maxX: int)
    returns (log': seq<Write>, ghost inlines': seq<seq<Write>>, ghost lens': seq<nat>, ghost shown': seq<string>)
    requires |row| <= |widths| && i < |row| && cur == x + 1 + Offset(widths, i)
    requires RowsWithin(log, y, y + 1)
    requires CellsDrawn(log, inlines, lens, shown, i, y, row, widths, x, RenderedLength, Shower(y, maxw, maxY, maxX))
    ensures RowsWithin(log', y, y + 1)
    ensures CellsDrawn(log', inlines', lens', shown', i + 1, y, row, widths, x, RenderedLength, Shower(y, maxw, maxY, maxX))
    ensures inlines'[..i] == inlines && InlineWriter(y, maxw, maxY, maxX)(inlines'[i], row[i], x + Offset(widths, i) + 2)
  {
    var part, rl, inline, text := RenderCell(y, row[i], widths[i], cur - 1, maxw, maxY, maxX);
    RowsWithinConcat(log, part, y, y + 1);
    CellDrawnStep(log, inlines, lens, shown, i, part, inline, rl, text, y, row, widths, x, RenderedLength, Shower(y, maxw, maxY, maxX));
    log', inlines', lens', shown' := log + part, inlines + [inline], lens + [rl], shown + [text];
    assert inlines'[..i] == inlines;
  }

  /** One more cell drawn by `format_inline` from two columns after its bar. */
  lemma CellsInlinePush(all: seq<seq<Write>>, row: seq<string>, widths: seq<nat>, x: int, i: nat,
                        inline: (seq<Write>, string, int) -> bool)
    requires |all| == i + 1 && i < |row| <= |widths|
    requires CellsInline(all[..i], row, widths, x, i, inline)
    requires inline(all[i], row[i], x + Offset(widths, i) + 2)
    ensures CellsInline(all, row, widths, x, i + 1, inline)
  {
    forall k | 0 <= k < i + 1
      ensures inline(all[k], row[k], x + Offset(widths, k) + 2)
    {
      if k < i {
        assert all[..i][k] == all[k];
      }
    }
  }

  /**
   * The state of the cell loop of `render_row` after `i` cells, each cell
   * measured by `measure` and shown as `show` gives.
   */
  ghost predicate CellsDrawn(log: seq<Write>, inlines: seq<seq<Write>>, lens: seq<nat>, shown: seq<string>, i: nat,
                             y: int, row: seq<string>, widths: seq<nat>, x: int,
                             measure: string -> nat, show: (string, int) -> string)
    requires |row| <= |widths|
  {
    && i <= |row| && |lens| == i
    && RowParts(log, inlines, lens, shown, y, widths, x)
    && lens == Measures(row[..i], measure) && shown == Placed(row[..i], widths, x, show)
  }

  /** Drawing cell `i` keeps the state of the cell loop. */
  lemma CellDrawnStep(log: seq<Write>, inlines: seq<seq<Write>>, lens: seq<nat>, shown: seq<string>, i: nat,
                      part: seq<Write>, inline: seq<Write>, rl: nat, text: string,
                      y: int, row: seq<string>, widths: seq<nat>, x: int,
                      measure: string -> nat, show: (string, int) -> string)
    requires |row| <= |widths| && i < |row|
    requires CellsDrawn(log, inlines, lens, shown, i, y, row, widths, x, measure, show)
    requires rl == measure(row[i]) && text == show(row[i], x + Offset(widths, i) + 2)
    requires part == CellWrites(y, rl, widths[i], x + Offset(widths, i), inline)
    requires InlineFits(inline, text, rl, y, x + Offset(widths, i) + 2)
    ensures RowParts(log + part, inlines + [inline], lens + [rl], shown + [text], y, widths, x)
    ensures lens + [rl] == Measures(row[..i + 1], measure)
    ensures shown + [text] == Placed(row[..i + 1], widths, x, show)
    ensures CellsDrawn(log + part, inlines + [inline], lens + [rl], shown + [text], i + 1, y, row, widths, x, measure, show)
  {
    RowStep(log, inlines, lens, shown, part, inline, rl, text, y, widths, x);
    MeasuresPush(row, i, measure);
    PlacedPush(row, i, widths, x, show);
  }

  /** After the last cell, the loop's log is the row drawn. */
  lemma RowDone(log: seq<Write>, inlines: seq<seq<Write>>, lens: seq<nat>, shown: seq<string>,
                y: int, row: seq<string>, widths: seq<nat>, x: int, maxw: int, maxY: int, maxX: int)
    requires |row| <= |widths|
    requires CellsDrawn(log, inlines, lens, shown, |row|, y, row, widths, x, RenderedLength, Shower(y, maxw, maxY, maxX))
    requires CellsInline(inlines, row, widths, x, |row|, InlineWriter(y, maxw, maxY, maxX))
    ensures RowDrawn(log, inlines, y, row, widths, x, maxw, maxY, maxX)
  {
    assert row[..|row|] == row;
  }

  /**
   * One pass of the cell loop of `render_row`: the cell after the bar at
   * column `left`, of rendered length `rl`, whose inline writes show `text`.
   */
  method RenderCell(y: int, cell: string, width: nat, left: int, maxw: int, maxY: int, maxX: int)
    returns (part: seq<Write>, rl: nat, ghost inline: seq<Write>, ghost text: string)
    ensures rl == RenderedLength(cell) && text == InlineShown(cell, y, left + 2, maxw, maxY, maxX)
    ensures part == CellWrites(y, rl, width, left, inline)
    ensures InlineFits(inline, text, rl, y, left + 2) && InlineWriter(y, maxw, maxY, maxX)(inline, cell, left + 2)
    ensures RowsWithin(part, y, y + 1)
  {
    var contentX := left + 2;
    var cellLog, _, _ := FormatInline(cell, y, contentX, maxw, maxY, maxX);
    rl := RenderedLength(cell);
    var padLen := (width as int) - (rl as int) + 1;
    var pad: seq<Write> := [];
    if padLen > 0 {
      pad := [Write(y, contentX + rl, Repeat(' ', padLen), NoPair)];
    }
    var borderX := contentX + width + 1;
    part := [Write(y, left + 1, " ", NoPair)] + cellLog + pad + [Write(y, borderX, [Bar], NoPair)];
    inline, text := cellLog, InlineShown(cell, y, left + 2, maxw, maxY, maxX);
    CellRows(y, rl, width, left, inline);
  }

  /** A cell's writes lie on its row when its inline writes do. */
  lemma CellRows(y: int, rl: nat, width: nat, left: int, inline: seq<Write>)
    requires RowsWithin(inline, y, y + 1)
    ensures RowsWithin(CellWrites(y, rl, width, left, inline), y, y + 1)
  {
    var front := [Write(y, left + 1, " ", NoPair)];
    RowsWithinConcat(front, inline, y, y + 1);
    RowsWithinConcat(front + inline, PadWrites(y, rl, width, left), y, y + 1);
    RowsWithinConcat(front + inline + PadWrites(y, rl, width, left), [Write(y, left + width + 3, [Bar], NoPair)], y, y + 1);
  }

  /** The cell loop of `render_row` keeps the shape of its log. */
  lemma RowStep(log: seq<Write>, inlines: seq<seq<Write>>, lens: seq<nat>, shown: seq<string>, part: seq<Write>,
                inline: seq<Write>, rl: nat, text: string, y: int, widths: seq<nat>, x: int)
    requires |lens| < |widths| && RowParts(log, inlines, lens, shown, y, widths, x)
    requires part == CellWrites(y, rl, widths[|lens|], x + Offset(widths, |lens|), inline)
    requires InlineFits(inline, text, rl, y, x + Offset(widths, |lens|) + 2)
    ensures RowParts(log + part, inlines + [inline], lens + [rl], shown + [text], y, widths, x)
  {
    RowLogStep(log, inlines, lens, part, inline, rl, y, widths, x);
    FitsStep(inlines, lens, shown, inline, rl, text, y, widths, x);
  }

  /** The log of the cell loop of `render_row` is the writes of the cells drawn so far. */
  lemma RowLogStep(log: seq<Write>, inlines: seq<seq<Write>>, lens: seq<nat>, part: seq<Write>,
                   inline: seq<Write>, rl: nat, y: int, widths: seq<nat>, x: int)
    requires |inlines| == |lens| < |widths| && log == RowWrites(y, lens, widths, x, inlines)
    requires part == CellWrites(y, rl, widths[|lens|], x + Offset(widths, |lens|), inline)
    ensures log + part == RowWrites(y, lens + [rl], widths, x, inlines + [inline])
  {
    var lens' := lens + [rl];
    RowWritesPrefix(y, lens, lens', widths, x, inlines);
    RowWritesPush(y, lens', widths, x, inlines, inline);
  }

  /** Each cell's inline writes keep fitting when one more cell is drawn. */
  lemma FitsStep(inlines: seq<seq<Write>>, lens: seq<nat>, shown: seq<string>,
                 inline: seq<Write>, rl: nat, text: string, y: int, widths: seq<nat>, x: int)
    requires |inlines| == |lens| == |shown| < |widths| && CellsFit(inlines, shown, lens, y, widths, x)
    requires InlineFits(inline, text, rl, y, x + Offset(widths, |lens|) + 2)
    ensures CellsFit(inlines + [inline], shown + [text], lens + [rl], y, widths, x)
  {
    var n := |lens|;
    assert (inlines + [inline])[..n] == inlines && (shown + [text])[..n] == shown && (lens + [rl])[..n] == lens;
  }

  /** The fit of cell `k`. */
  lemma {:induction false} CellFitsAt(inlines: seq<seq<Write>>, shown: seq<string>, lens: seq<nat>, y: int, widths: seq<nat>, x: int, k: nat)
    requires |inlines| == |shown| == |lens| <= |widths| && CellsFit(inlines, shown, lens, y, widths, x) && k < |lens|
    ensures InlineFits(inlines[k], shown[k], lens[k], y, x + Offset(widths, k) + 2)
    decreases |inlines|
  {
    var n := |inlines| - 1;
    if k < n {
      CellFitsAt(inlines[..n], shown[..n], lens[..n], y, widths, x, k);
    }
  }

  /** The writes of one more cell follow those of the cells before it. */
  lemma RowWritesPush(y: int, lens: seq<nat>, widths: seq<nat>, x: int, inlines: seq<seq<Write>>, inline: seq<Write>)
    requires |inlines| < |lens| <= |widths|
    ensures RowWrites(y, lens, widths, x, inlines + [inline]) ==
      RowWrites(y, lens, widths, x, inlines) + CellWrites(y, lens[|inlines|], widths[|inlines|], x + Offset(widths, |inlines|), inline)
  {
    assert (inlines + [inline])[..|inlines|] == inlines;
  }

  /** The writes of the first cells depend only on those cells' lengths. */
  lemma {:induction false} RowWritesPrefix(y: int, lens: seq<nat>, lens': seq<nat>, widths: seq<nat>, x: int, inlines: seq<seq<Write>>)
    requires |inlines| <= |lens| <= |lens'| <= |widths| && lens'[..|lens|] == lens
    ensures RowWrites(y, lens', widths, x, inlines) == RowWrites(y, lens, widths, x, inlines)
    decreases |inlines|
  {
    if |inlines| > 0 {
      var k := |inlines| - 1;
      assert lens'[k] == lens[k];
      RowWritesPrefix(y, lens, lens', widths, x, inlines[..k]);
    }
  }

  /** Measuring one more cell. */
  lemma {:induction false} MeasuresPush(row: seq<string>, i: nat, measure: string -> nat)
    requires i < |row|
    ensures Measures(row[..i + 1], measure) == Measures(row[..i], measure) + [measure(row[i])]
    decreases i
  {
    if i > 0 {
      MeasuresPush(row[1..], i - 1, measure);
      assert row[..i + 1][1..] == row[1..][..i];
      assert row[..i][1..] == row[1..][..i - 1];
    }
  }

  /** Placing one more cell. */
  lemma {:induction false} PlacedPush(row: seq<string>, i: nat, widths: seq<nat>, x: int, show: (string, int) -> string)
    requires i < |row| <= |widths|
    ensures Placed(row[..i + 1], widths, x, show) == Placed(row[..i], widths, x, show) + [show(row[i], x + Offset(widths, i) + 2)]
    decreases i
  {
    if i > 0 {
      PlacedPush(row[1..], i - 1, widths[1..], x + widths[0] + 3, show);
      assert row[..i + 1][1..] == row[1..][..i];
      assert row[..i][1..] == row[1..][..i - 1];
    }
  }

  /** Cell `k`'s measured length is its rendered length. */
  lemma LengthsAt(row: seq<string>, k: nat)
    requires k < |row|
    ensures Lengths(row)[k] == RenderedLength(row[k])
  {
    MeasuresAt(row, k, RenderedLength);
  }

  /** Cell `k`'s measure is `measure` of cell `k`. */
  lemma {:induction false} MeasuresAt(row: seq<string>, k: nat, measure: string -> nat)
    requires k < |row|
    ensures Measures(row, measure)[k] == measure(row[k])
    decreases k
  {
    if k > 0 {
      MeasuresAt(row[1..], k - 1, measure);
    }
  }

  /** Every bar of a row: the `k`-th at column `x + Offset(widths, k)`. */
  lemma {:induction false} RowBars(y: int, lens: seq<nat>, widths: seq<nat>, x: int, inlines: seq<seq<Write>>)
    requires |inlines| <= |lens| <= |widths|
    ensures forall k :: 0 <= k <= |inlines| ==> Write(y, x + Offset(widths, k), [Bar], NoPair) in RowWrites(y, lens, widths, x, inlines)
    decreases |inlines|
  {
    if |inlines| > 0 {
      var n := |inlines| - 1;
      RowBars(y, lens, widths, x, inlines[..n]);
      OffsetStep(widths, n);
      var cell := CellWrites(y, lens[n], widths[n], x + Offset(widths, n), inlines[n]);
      assert cell[|cell| - 1] == Write(y, x + Offset(widths, n + 1), [Bar], NoPair);
    }
  }

  /**
   * A cell no wider than its column stays between its bars: its text lies
   * after the space that follows bar `k` and ends before bar `k + 1`, and
   * its padding reaches exactly up to that bar.
   */
  lemma CellBetweenBars(log: seq<Write>, inlines: seq<seq<Write>>, lens: seq<nat>, shown: seq<string>,
                        y: int, widths: seq<nat>, x: int, k: nat)
    requires |lens| <= |widths| && k < |lens|
    requires RowParts(log, inlines, lens, shown, y, widths, x)
    requires lens[k] <= widths[k]
    ensures forall j :: 0 <= j < |inlines[k]| ==>
      x + Offset(widths, k) + 2 <= inlines[k][j].col &&
      inlines[k][j].col + |inlines[k][j].text| < x + Offset(widths, k + 1)
    ensures var pad := PadWrites(y, lens[k], widths[k], x + Offset(widths, k));
      |pad| == 1 && pad[0].col + |pad[0].text| == x + Offset(widths, k + 1)
  {
    OffsetStep(widths, k);
    CellFitsAt(inlines, shown, lens, y, widths, x, k);
  }

  /**
   * Every cell of a parsed table is no wider than its column, so in each
   * row `render_row` draws, every cell's text stays between its two bars.
   */
  lemma TableCellsBetweenBars(data: seq<seq<string>>, widths: seq<nat>, j: nat, log: seq<Write>,
                              inlines: seq<seq<Write>>, lens: seq<nat>, shown: seq<string>, y: int, x: int, k: nat)
    requires ColumnMaxima(data, widths) && j < |data| && |data[j]| <= |widths| && k < |data[j]|
    requires lens == Lengths(data[j]) && RowParts(log, inlines, lens, shown, y, widths, x)
    ensures forall i :: 0 <= i < |inlines[k]| ==>
      x + Offset(widths, k) + 2 <= inlines[k][i].col &&
      inlines[k][i].col + |inlines[k][i].text| < x + Offset(widths, k + 1)
  {
    LengthsAt(data[j], k);
    assert RenderedLength(data[j][k]) <= widths[k];
    CellBetweenBars(log, inlines, lens, shown, y, widths, x, k);
  }

  function TopBorder(widths: seq<nat>): string {
    Border('\U{250C}', '\U{252C}', '\U{2510}', widths)
  }

  function MiddleBorder(widths: seq<nat>): string {
    Border('\U{251C}', '\U{253C}', '\U{2524}', widths)
  }

  function BottomBorder(widths: seq<nat>): string {
    Border('\U{2514}', '\U{2534}', '\U{2518}', widths)
  }

  /**
   * The log of `render_table` for a non-empty table: top border, header row,
   * middle border, data rows and bottom border, one terminal row each from
   * row `y`, the borders cut with Python's `[:maxw - x]`.  The header row is
   * written by `headerLog`, data row `j` by `rowLogs[j]`; the cells' inline
   * texts by `headerInlines` and `rowInlines[j]`.
   */
  ghost predicate TableRows(log: seq<Write>, headerLog: seq<Write>, headerInlines: seq<seq<Write>>,
                            rowLogs: seq<seq<Write>>, rowInlines: seq<seq<seq<Write>>>,
                            data: seq<seq<string>>, widths: seq<nat>, y: int, x: int, maxw: int, maxY: int, maxX: int)
    requires forall j :: 0 <= j < |data| ==> |data[j]| <= |widths|
  {
    && |data| >= 1
    && log == [Write(y, x, PyPrefix(TopBorder(widths), maxw - x), TablePair)] + headerLog
              + [Write(y + 2, x, PyPrefix(MiddleBorder(widths), maxw - x), TablePair)] + Stack(rowLogs)
              + [Write(y + |data| + 2, x, PyPrefix(BottomBorder(widths), maxw - x), TablePair)]
    && RowDrawn(headerLog, headerInlines, y + 1, data[0], widths, x, maxw, maxY, maxX)
    && RowsDrawn(rowLogs, rowInlines, data[1..], y + 3, RowDrawer(widths, x, maxw, maxY, maxX))
  }

  /** `render_row` drawing `row` on terminal row `y` in columns of `widths` from column `x`. */
  ghost function RowDrawer(widths: seq<nat>, x: int, maxw: int, maxY: int, maxX: int)
    : (seq<Write>, seq<seq<Write>>, int, seq<string>) -> bool
  {
    (log, inlines, y, row) => |row| <= |widths| && RowDrawn(log, inlines, y, row, widths, x, maxw, maxY, maxX)
  }

  /** Rows `rows` drawn as `rowLogs` by `drawn`, row `k` on terminal row `y + k`. */
  ghost predicate RowsDrawn(rowLogs: seq<seq<Write>>, rowInlines: seq<seq<seq<Write>>>, rows: seq<seq<string>>, y: int,
                            drawn: (seq<Write>, seq<seq<Write>>, int, seq<string>) -> bool)
    decreases |rows|
  {
    && |rowLogs| == |rowInlines| == |rows|
    && (|rows| == 0 ||
        var n := |rows| - 1;
        && RowsDrawn(rowLogs[..n], rowInlines[..n], rows[..n], y, drawn)
        && drawn(rowLogs[n], rowInlines[n], y + n, rows[n]))
  }

  /** Row `j` of `rows` drawn on terminal row `yr`, below rows `0` to `j - 1`. */
  lemma RowsDrawnStep(rowLogs: seq<seq<Write>>, rowInlines: seq<seq<seq<Write>>>, rows: seq<seq<string>>, j: nat,
                      rowLog: seq<Write>, inlines: seq<seq<Write>>, y: int, yr: int,
                      drawn: (seq<Write>, seq<seq<Write>>, int, seq<string>) -> bool)
    requires j < |rows| && yr == y + j
    requires RowsDrawn(rowLogs, rowInlines, rows[..j], y, drawn)
    requires drawn(rowLog, inlines, yr, rows[j])
    ensures RowsDrawn(rowLogs + [rowLog], rowInlines + [inlines], rows[..j + 1], y, drawn)
  {
    assert rows[..j + 1][..j] == rows[..j];
    assert (rowLogs + [rowLog])[..j] == rowLogs;
    assert (rowInlines + [inlines])[..j] == rowInlines;
  }

  /** Row `k` of rows drawn is drawn on terminal row `y + k`. */
  lemma {:induction false} RowsDrawnAt(rowLogs: seq<seq<Write>>, rowInlines: seq<seq<seq<Write>>>, rows: seq<seq<string>>,
                                       k: nat, y: int, drawn: (seq<Write>, seq<seq<Write>>, int, seq<string>) -> bool)
    requires RowsDrawn(rowLogs, rowInlines, rows, y, drawn) && k < |rows|
    ensures drawn(rowLogs[k], rowInlines[k], y + k, rows[k])
    decreases |rows|
  {
    var n := |rows| - 1;
    if k < n {
      RowsDrawnAt(rowLogs[..n], rowInlines[..n], rows[..n], k, y, drawn);
    }
  }

  /** What `render_table` draws of a non-empty table. */
  ghost predicate TableDrawn(log: seq<Write>, data: seq<seq<string>>, widths: seq<nat>,
                             y: int, x: int, maxw: int, maxY: int, maxX: int)
    requires forall j :: 0 <= j < |data| ==> |data[j]| <= |widths|
  {
    exists headerLog, headerInlines, rowLogs, rowInlines ::
      TableRows(log, headerLog, headerInlines, rowLogs, rowInlines, data, widths, y, x, maxw, maxY, maxX)
  }

  /**
   * The data-row loop of `render_table`: row `k` of `rows` on terminal row
   * `y + k`, one below the other, `|rows|` rows in all.
   */
  method RenderRows(rows: seq<seq<string>>, widths: seq<nat>, y: int, x: int, maxw: int, maxY: int, maxX: int)
    returns (body: seq<Write>, used: nat, ghost rowLogs: seq<seq<Write>>, ghost rowInlines: seq<seq<seq<Write>>>)
    requires forall j :: 0 <= j < |rows| ==> |rows[j]| <= |widths|
    ensures used == |rows|
    ensures body == Stack(rowLogs)
    ensures RowsWithin(body, y, y + used)
    ensures RowsDrawn(rowLogs, rowInlines, rows, y, RowDrawer(widths, x, maxw, maxY, maxX))
  {
    body, used, rowLogs, rowInlines := [], 0, [], [];
    for j := 0 to |rows|
      invariant used == j
      invariant body == Stack(rowLogs)
      invariant RowsWithin(body, y, y + used)
      invariant RowsDrawn(rowLogs, rowInlines, rows[..j], y, RowDrawer(widths, x, maxw, maxY, maxX))
    {
      var rowLog, m, inlines := RenderRowBelow(rowLogs, rowInlines, rows, j, widths, y, y + used, x, maxw, maxY, maxX);
      RowsWithinAppend(body, rowLog, y, y + used, y + used + 1);
      StackPush(rowLogs, rowLog);
      body, rowLogs, rowInlines := body + rowLog, rowLogs + [rowLog], rowInlines + [inlines];
      used := used + m;
    }
    assert rows[..|rows|] == rows;
  }

  /** One pass of the data-row loop of `render_table`: row `j` drawn on terminal row `yr`, below rows `0` to `j - 1`. */
  method RenderRowBelow(ghost rowLogs: seq<seq<Write>>, ghost rowInlines: seq<seq<seq<Write>>>, rows: seq<seq<string>>, j: nat,
                        widths: seq<nat>, y: int, yr: int, x: int, maxw: int, maxY: int, maxX: int)
    returns (rowLog: seq<Write>, used: nat, ghost inlines: seq<seq<Write>>)
    requires j < |rows| && |rows[j]| <= |widths| && yr == y + j
    requires RowsDrawn(rowLogs, rowInlines, rows[..j], y, RowDrawer(widths, x, maxw, maxY, maxX))
    ensures used == 1
    ensures RowsWithin(rowLog, yr, yr + 1)
    ensures RowsDrawn(rowLogs + [rowLog], rowInlines + [inlines], rows[..j + 1], y, RowDrawer(widths, x, maxw, maxY, maxX))
  {
    rowLog, used, inlines := RenderRow(yr, rows[j], widths, x, maxw, maxY, maxX);
    assert RowDrawer(widths, x, maxw, maxY, maxX)(rowLog, inlines, yr, rows[j]);
    RowsDrawnStep(rowLogs, rowInlines, rows, j, rowLog, inlines, y, yr, RowDrawer(widths, x, maxw, maxY, maxX));
  }

  /**
   * `render_table`: top border, header row, middle border, data rows, bottom
   * border, one terminal row each: `len(data) + 3` rows, all of them in
   * `[y, y + used)`.  An empty table draws nothing.
   */
  method RenderTable(data: seq<seq<string>>, widths: seq<nat>, y: int, x: int, maxw: int, maxY: int, maxX: int)
    returns (log: seq<Write>, used: nat)
    requires forall j :: 0 <= j < |data| ==> |data[j]| <= |widths|
    ensures used == if |data| == 0 then 0 else |data| + 3
    ensures RowsWithin(log, y, y + used)
    ensures |data| == 0 ==> log == []
    ensures |data| > 0 ==> TableDrawn(log, data, widths, y, x, maxw, maxY, maxX)
  {
    if |data| == 0 {
      return [], 0;
    }
    var head, n, headerLog, headerInlines := RenderHead(data[0], widths, y, x, maxw, maxY, maxX);
    used := n;
    var body, m, rowLogs, rowInlines := RenderRows(data[1..], widths, y + used, x, maxw, maxY, maxX);
    used := used + m;
    assert y + used == y + |data| + 2;
    var bottom := Write(y + used, x, PyPrefix(BottomBorder(widths), maxw - x), TablePair);
    used := used + 1;
    log := head + body + [bottom];
    TableWithin(head, body, bottom, y, |data|);
    TableDrawnIntro(log, head, headerLog, headerInlines, body, bottom, rowLogs, rowInlines, data, widths, y, x, maxw, maxY, maxX);
  }

  /** The head on rows `y` to `y + 2`, `n - 1` data rows below it and the bottom border span `n + 3` rows. */
  lemma TableWithin(head: seq<Write>, body: seq<Write>, bottom: Write, y: int, n: nat)
    requires n >= 1 && bottom.row == y + n + 2
    requires RowsWithin(head, y, y + 3) && RowsWithin(body, y + 3, y + n + 2)
    ensures RowsWithin(head + body + [bottom], y, y + n + 3)
  {
    RowsWithinAppend(head, body, y, y + 3, y + n + 2);
    RowsWithinAppend(head + body, [bottom], y, y + n + 2, y + n + 3);
  }

  /** The top border, the header row and the middle border, on rows `y` to `y + 2`. */
  method RenderHead(header: seq<string>, widths: seq<nat>, y: int, x: int, maxw: int, maxY: int, maxX: int)
    returns (head: seq<Write>, used: nat, headerLog: seq<Write>, ghost headerInlines: seq<seq<Write>>)
    requires |header| <= |widths|
    ensures used == 3
    ensures RowsWithin(head, y, y + 3)
    ensures head == [Write(y, x, PyPrefix(TopBorder(widths), maxw - x), TablePair)] + headerLog
                    + [Write(y + 2, x, PyPrefix(MiddleBorder(widths), maxw - x), TablePair)]
    ensures RowDrawn(headerLog, headerInlines, y + 1, header, widths, x, maxw, maxY, maxX)
  {
    var top := Write(y, x, PyPrefix(TopBorder(widths), maxw - x), TablePair);
    used := 1;
    var n;
    headerLog, n, headerInlines := RenderRow(y + used, header, widths, x, maxw, maxY, maxX);
    used := used + n;
    assert used == 2;
    var middle := Write(y + used, x, PyPrefix(MiddleBorder(widths), maxw - x), TablePair);
    used := used + 1;
    head := [top] + headerLog + [middle];
    RowsWithinAppend([top], headerLog, y, y + 1, y + 2);
    RowsWithinAppend([top] + headerLog, [middle], y, y + 2, y + 3);
  }

  /** A log made of a table's head, its rows drawn and its bottom border is that table drawn. */
  lemma TableDrawnIntro(log: seq<Write>, head: seq<Write>, headerLog: seq<Write>, headerInlines: seq<seq<Write>>,
                        body: seq<Write>, bottom: Write, rowLogs: seq<seq<Write>>, rowInlines: seq<seq<seq<Write>>>,
                        data: seq<seq<string>>, widths: seq<nat>, y: int, x: int, maxw: int, maxY: int, maxX: int)
    requires forall j :: 0 <= j < |data| ==> |data[j]| <= |widths|
    requires |data| >= 1
    requires log == head + body + [bottom]
    requires head == [Write(y, x, PyPrefix(TopBorder(widths), maxw - x), TablePair)] + headerLog
                    + [Write(y + 2, x, PyPrefix(MiddleBorder(widths), maxw - x), TablePair)]
    requires bottom == Write(y + |data| + 2, x, PyPrefix(BottomBorder(widths), maxw - x), TablePair)
    requires body == Stack(rowLogs)
    requires RowDrawn(headerLog, headerInlines, y + 1, data[0], widths, x, maxw, maxY, maxX)
    requires RowsDrawn(rowLogs, rowInlines, data[1..], y + 3, RowDrawer(widths, x, maxw, maxY, maxX))
    ensures TableDrawn(log, data, widths, y, x, maxw, maxY, maxX)
  {
    assert TableRows(log, headerLog, headerInlines, rowLogs, rowInlines, data, widths, y, x, maxw, maxY, maxX);
  }

  /** A table's log starts with its top border, holds its middle border and ends with its bottom border. */
  lemma TableBorders(log: seq<Write>, data: seq<seq<string>>, widths: seq<nat>, y: int, x: int, maxw: int, maxY: int, maxX: int)
    requires forall j :: 0 <= j < |data| ==> |data[j]| <= |widths|
    requires |data| > 0 && TableDrawn(log, data, widths, y, x, maxw, maxY, maxX)
    ensures |log| >= 3
    ensures log[0] == Write(y, x, PyPrefix(TopBorder(widths), maxw - x), TablePair)
    ensures Write(y + 2, x, PyPrefix(MiddleBorder(widths), maxw - x), TablePair) in log
    ensures log[|log| - 1] == Write(y + |data| + 2, x, PyPrefix(BottomBorder(widths), maxw - x), TablePair)
  {
    var headerLog, headerInlines, rowLogs, rowInlines :|
      TableRows(log, headerLog, headerInlines, rowLogs, rowInlines, data, widths, y, x, maxw, maxY, maxX);
    var i := 1 + |headerLog|;
    assert log[i] == Write(y + 2, x, PyPrefix(MiddleBorder(widths), maxw - x), TablePair);
  }
}
