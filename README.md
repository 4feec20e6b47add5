# termslide core in Dafny

termslide is a terminal slideshow for Markdown files. The document is cut into slides at `---` lines. A slide is either a title slide (a line underlined with `=`) or a content slide. Content slides may have a `#` heading and may hold emphasis, pipe tables, quotes, bullets, fenced code and Mermaid diagrams. A slide that is a single image is drawn with coloured half blocks. The arrow keys (or `h`/`l`) move between slides, and `q` or Esc quits.

This project models the computing core of `termslide.py` and proves properties of it:

- **Slides** (`slides.dfy`): the slide splitter, `parse_markdown`.
- **Inline** (`inline.dfy`): the inline emphasis scanner shared by `rendered_length` and `format_inline`, and the clipping primitive `_add`.
- **Table** (`table.dfy`): the pipe-table parser `parse_table`, and the box layout of `render_row` and `render_table`.
- **Palette** (`palette.dfy`): `rgb_to_ansi256`, and the colour-pair cache of `render_image_in_curses`.
- **Painter** (`painter.dfy`): the `format_text` dispatch and the `render_content` loop with its two cursors and its code-fence state.
- **Navigation** (`navigation.dfy`): the key loop of `run_slideshow`.
- Support modules:
  - `text.dfy` holds the Python string operations the source relies on: `strip`, `lstrip`, `rstrip`, `split`, `join`, `startswith`, and slicing with negative bounds.
  - `screen.dfy` holds the terminal as a log of `addstr` calls.
  - `wrappers.dfy` holds `Option`.

Curses output is modelled as a sequence of writes. Each write has a row, a column, a text and the colour pair that the code issuing it turned on. The window size (`maxY`, `maxX`) is a parameter. The Figlet banner font and the Mermaid renderer are function parameters that return lines.

## Model

| member | source | states |
|---|---|---|
| Slides.Segments | termslide.py:112 | Separator lines (three or more `-`, then only whitespace) cut the document into one more segment than there are separators, and no segment holds a separator line. |
| Slides.SegmentsRoundTrip | termslide.py:112 | The cuts fall exactly at the separator lines: the segments with the separator lines put back between them, in order, give back the document's lines. |
| Slides.SegmentsKeepOrder | termslide.py:112 | Concatenating the segments gives back every non-separator line, in document order. |
| Slides.ClassifyNoneIff | termslide.py:113-116 | `ClassifySegment`, one pass of the segment loop, yields no slide exactly when the segment is whitespace only. |
| Slides.ClassifyKinds | termslide.py:117-128 | A non-blank segment is a title slide exactly when it has two or more lines and its stripped second line is one or more `=`. It is then titled by its stripped first line, and its body is the remaining lines joined. Otherwise it is a content slide. Its title is the first line with its leading `#`s and spaces removed and then stripped when that line starts with `#`, and none otherwise. Its body is the lines after that first line, or else the whole segment. |
| Slides.SegmentLinesUnbroken | termslide.py:114 | No line of a segment holds a line break, so the body `"\n".join` builds splits back into its lines. |
| Slides.SlideOf | termslide.py:113-128 | Each segment yields at most one slide. |
| Slides.SlidesOfAppend | termslide.py:111-129 | Slides come out in segment order: the slides of two runs of segments are the slides of the first run followed by those of the second. |
| Slides.SlidesOfCount | termslide.py:111-129 | There is exactly one slide per non-blank segment. |
| Slides.SlidesOfOrigin | termslide.py:111-129 | Every slide is the slide of some segment. |
| Slides.ParseMarkdownSlides | termslide.py:109-129 | `ParseMarkdown` (`parse_markdown`) yields as many slides as the document has non-blank segments, and each is `ClassifySegment` of one of them. |
| Slides.FirstLineHasText | termslide.py:114-124 | The first line of a non-blank stripped segment holds text, so `lines[0]` exists wherever it is read. |
| Text.SplitJoin | termslide.py:119-127 | Lines free of `\n`, joined with `"\n"` and split at `\n` again, come back unchanged. `render_content` splits the body at termslide.py:533. |
| Text.SplitNoSep | termslide.py:533 | No piece of `s.split(c)` holds `c`. |
| Text.SplitCons | termslide.py:533 | Splitting `a + c + b`, with `c` not in `a`, gives `a` followed by the pieces of `b`. |
| Text.LStripShape | termslide.py:124 | `s.lstrip(cs)` is a suffix of `s`. What it removed is all in `cs`, and its first character is not. |
| Text.RStripShape | termslide.py:114 | `s.rstrip(cs)` is a prefix of `s`. What it removed is all in `cs`, and its last character is not. |
| Text.StripEmptyIff | termslide.py:115 | Stripping leaves nothing exactly when every character is in the set stripped, which is how `any(l.strip() ...)` tells a blank segment. |
| Text.StripEnds | termslide.py:114-124 | A non-empty stripped text neither starts nor ends with a stripped character. |
| Text.LeadingRun | termslide.py:493 | The run of `c` at the start of a text: all of it is `c`, and the character after it is not. |
| Text.IndexOfFirst | termslide.py:238 | No occurrence of `c` comes before `IndexOf(s, c)`, the first one or the end. |
| Text.PyPrefix | termslide.py:279 | `s[:k]` with Python's slice rules: a prefix of `s` whose length is `k` clamped to `len(s)`, counting from the end when `k` is negative. |
| Inline.BoldAtMeaning | termslide.py:238 | A bold match at `p` spans `**x**` with `x` its inner text and free of `*`. There is none exactly when no such span starts at `p`. |
| Inline.EnclosedAtMeaning | termslide.py:238 | An italic or code match at `p` spans `*x*` or `` `x` `` with `x` its inner text and free of the delimiter. There is none exactly when no such span starts at `p`. |
| Inline.BoldAt | termslide.py:238 | A bold match found at `p` has non-empty inner text and ends four characters after it, inside the line. |
| Inline.EnclosedAt | termslide.py:238 | An italic or code match found at `p` has non-empty inner text and ends two characters after it, inside the line. |
| Inline.BoldEnd | termslide.py:238 | In a `**x**` span, the first `*` after the opening pair is the one that closes `x`. |
| Inline.EnclosedEnd | termslide.py:238 | In a `*x*` or `` `x` `` span, the first delimiter after the opening one closes `x`. |
| Inline.NoBoldWhenUnclosed | termslide.py:238 | When there is no `*` after `**`, or no text precedes the first one, or no second `*` follows it, no bold span starts there. |
| Inline.NoEnclosedWhenUnclosed | termslide.py:238 | When no non-empty text is followed by a closing delimiter, no italic or code span starts there. |
| Inline.VisibleAppend | termslide.py:239-253 | The shown text and the delimiter count of two runs of runs are those of each, added up. |
| Inline.LaidOutGrow | termslide.py:267-293 | One more `_add` that writes keeps the writes side by side, showing the text so far cut to what fits. |
| Inline.WritesBeforeCursor | termslide.py:256-310 | Every write lies between the start column and the cursor. |
| Inline.MatchAt | termslide.py:238 | A match has non-empty inner text and a style other than plain. It ends after its inner text plus its style's delimiters, inside the line. |
| Inline.MatchAtMeaning | termslide.py:238 | The three alternatives are tried in order: a bold match spans `**x**`; an italic match spans `*x*` and no bold span starts there; a code match spans `` `x` `` and neither of the others does. The inner text lies between the delimiters. There is no match exactly when no alternative applies. |
| Inline.ScanAccounts | termslide.py:239-253 | The left-to-right scan (`Runs`) splits a line into non-empty runs. The shown characters plus the delimiters account for every character of the line. |
| Inline.LengthFromShown | termslide.py:239-253 | The cursor arithmetic of `rendered_length` always equals the length of the text the scan shows. |
| Inline.RenderedLengthDropsDelims | termslide.py:235-253 | `RenderedLength` (`rendered_length`) is the line's length less the delimiters of every matched run. It never exceeds the line's length, and it is the length of what the runs show. |
| Inline.RenderedLengthExample | termslide.py:235-253 | `rendered_length("**ab**c")` is 3. |
| Inline.Add | termslide.py:267-293 | `_add` writes exactly when the text is non-empty, the row is on the window and the start column is in `[0, min(maxw, max_x))`. The chunk is a non-empty prefix of the text that ends by `min(maxw, max_x)`, and it is cut only at that bound. The cursor moves by the chunk's length, and does not move when nothing is written. |
| Inline.FormatInline | termslide.py:256-310 | The writes spell out the line's shown text, cut to what fits from column `x`. They lie side by side on row `y`, each starting where the previous one ended, all inside `[0, min(maxw, max_x))`. The final cursor is the clipped width. Each write is a prefix of one run's text in that run's pair (bold 5, italic 6, code 7, none for plain), later writes come from later runs, and the writes before each write spell out exactly the runs before its run. |
| Inline.AddRun | termslide.py:294-310 | One pass of the run loop keeps the writes equal to the text shown so far, cut to what fits, side by side on row `y`, with the cursor at the clipped width of that text. The log only grows, by at most one write, and that write is a prefix of run `n`'s text in run `n`'s pair. |
| Table.Cells | termslide.py:327-329 | A header split always has at least one cell, so the source's empty-header return never fires. |
| Table.ParseTable | termslide.py:313-348 | It returns `(None, 0)` exactly in the three rejection cases. On success: every row has the header's cell count; row k is the cells of line `start + k + 1`; `col_widths[c]` is the largest `rendered_length` in column c; lines consumed = 1 + rows = 2 + data rows; and scanning stopped at the end, at a non-`|` line, or at the first `|` line with another cell count. |
| Table.WidenColumns | termslide.py:341-342 | Each width becomes the maximum of the old width and the new cell's rendered length. |
| Table.ColumnMaximaGrow | termslide.py:339-343 | Widening by one more row keeps every width equal to the maximum of its column. |
| Table.BoundGrow | termslide.py:339-343 | After widening by one more row, no cell is longer than its column's width. |
| Table.AttainedGrow | termslide.py:339-343 | After widening by one more row, every width is still the rendered length of some cell of its column. |
| Table.OffsetStep | termslide.py:359-370 | Each cell moves the next bar right by its column width plus three. |
| Table.Offset | termslide.py:359-370 | The k-th bar of a row is at least `3k` columns right of `x`. |
| Table.OffsetAll | termslide.py:351-371 | The closing bar of a full row sits at `x + sum(col_widths) + 3n`. |
| Table.BorderTail | termslide.py:382 | The part of a border after its left corner has length `sum + 3n`, and a junction sits just before each bar offset. |
| Table.BorderMatchesRow | termslide.py:351-405 | Every border has length `sum(col_widths) + 3n + 1`. The character at each bar offset of `render_row` is a corner or a junction, so borders and rows line up. |
| Table.RenderRow | termslide.py:351-371 | A row takes one terminal row and every write is on it. The log is the left bar, then per cell a space after its bar, the cell's inline writes, padding of `col_widths[i] - rl + 1` spaces when positive, and the closing bar at `x + Offset(col_widths, i + 1)`. Each cell's inline writes are what `format_inline` writes for that cell from two columns after its bar: its shown text, side by side, in the runs' pairs, within its rendered length. |
| Table.RenderCell | termslide.py:356-370 | One cell: its rendered length, its space, inline writes, padding and closing bar. The inline writes are what `format_inline` writes for the cell from two columns after its bar, pairs included, and fit in the rendered length. |
| Table.RenderCellAt | termslide.py:355-370 | One pass of the cell loop keeps the log equal to the writes of the cells drawn so far, each measured by `rendered_length` and shown as `format_inline` shows it. The cell just drawn has its inline writes as `format_inline` writes them from two columns after its bar. |
| Table.CellDrawnStep | termslide.py:355-370 | Drawing cell `i` extends the loop's log, lengths and shown texts by that cell. |
| Table.RowDone | termslide.py:371 | After the last cell, the loop's log is the row as `RowDrawn` states it. |
| Table.CellsInlinePush | termslide.py:355-361 | Once one more cell is written as `format_inline` writes it from two columns after its bar, the first `i + 1` cells all are. |
| Table.RowBars | termslide.py:351-370 | The k-th bar of a row is written at `x + Offset(col_widths, k)`, for the left edge and after each cell. |
| Table.CellBetweenBars | termslide.py:357-368 | A cell no wider than its column stays between its bars: its text starts two columns after bar k and ends before bar k + 1, and its padding reaches exactly to bar k + 1. |
| Table.TableCellsBetweenBars | termslide.py:339-368 | Every cell of a parsed table is no wider than its column, so in every row drawn its text stays between its two bars. |
| Table.RenderRows | termslide.py:394-395 | The data-row loop draws row k of `table_data[1:]` on terminal row `y + k`, one row each, its writes in order. |
| Table.RenderRowBelow | termslide.py:394-395 | One pass of the data-row loop draws row j on the row below the rows before it. |
| Table.RowsDrawnStep | termslide.py:394-395 | A row drawn below rows 0 to j - 1 extends the rows drawn. |
| Table.RowsDrawnAt | termslide.py:394-395 | Row k of the rows drawn is drawn on terminal row `y + k`. |
| Table.RenderHead | termslide.py:380-391 | The top border on row `y`, the header row on `y + 1` and the middle border on `y + 2`, borders cut at `maxw - x` in the table pair. |
| Table.RenderTable | termslide.py:373-405 | An empty table draws nothing and takes 0 rows. A non-empty table takes `len(table_data) + 3` rows, every write in them. Its log is the top border, the header row drawn by `render_row` on row `y + 1`, the middle border, data row k drawn on row `y + 3 + k`, and the bottom border on the last row. Every cell of every row is written as `format_inline` writes it, pairs included. |
| Table.TableDrawnIntro | termslide.py:373-405 | A head, the data rows drawn below it and the bottom border make up the table drawn. |
| Table.TableWithin | termslide.py:373-405 | The head on rows `y` to `y + 2`, the data rows below it and the bottom border lie within the table's `len(table_data) + 3` rows. |
| Table.TableBorders | termslide.py:380-401 | A drawn table's log starts with its top border, holds its middle border and ends with its bottom border. |
| Palette.Level | termslide.py:153-155 | A channel maps to a level in 0..5 that is less than half a step from `5c/255`, so Python's `round` has no tie to break. |
| Palette.RgbToAnsi256 | termslide.py:151-156 | The result lies in 16..231. |
| Palette.AnsiLevelsRoundTrip | termslide.py:151-156 | The three channel levels can be read back from the palette index. |
| Palette.PairFor | termslide.py:189-196 | A cached key keeps its id. A new key takes `next_pair` and registers its colours with `init_pair` while `next_pair < COLOR_PAIRS`, and is cached as 0 otherwise. The cache invariant is kept and no entry changes. |
| Palette.CacheRegister | termslide.py:190-193 | Registering a new key under `next_pair` keeps the cache invariant. |
| Palette.CacheExhausted | termslide.py:194-195 | Caching a new key as 0 once the ids ran out keeps the cache invariant. |
| Palette.ImageRow | termslide.py:183-201 | One terminal row of the image adds `w` ordered cached cells and keeps the cache invariant. |
| Palette.ImageCell | termslide.py:184-196 | One pixel pass appends the cell at `(y, x)` with its key's cached id, keeps the cells in row-major order and cached, and keeps the cache invariant. |
| Palette.RenderImageCells | termslide.py:180-201 | There is one cell per column of the top `h - 1` rows, in row-major order. Equal colour keys get equal pair ids. The `init_pair` ids run consecutively from 50 and stay below `COLOR_PAIRS`, with distinct keys. A non-zero id registers exactly the cell's (bottom, top) colours, and every registered key is the key of a cell drawn with its id. Ids are first drawn in the order they were given out. Id 0, drawn without a colour attribute, appears only once the ids ran out, and only on cells after every id given out was first drawn. |
| Palette.PixelLoopDone | termslide.py:180-201 | The pixel loop's state after the last row gives every promise of `RenderImageCells`. |
| Palette.ShownGrow | termslide.py:184-196 | Drawing one more cell, with an id already given out, the id just given out or 0, keeps every id drawn and keeps ids first drawn in the order they were given out. |
| Palette.ZerosLateGrow | termslide.py:189-196 | Drawing one more cell keeps id 0 late: a 0 cell gives out no new id and comes after every id given out, and a new id is given out only while no cell has id 0. |
| Palette.NoZeroWhileFree | termslide.py:189-196 | While ids remain below `COLOR_PAIRS`, no cached key has id 0, so no cell drawn so far has id 0. |
| Palette.CellsCachedGrow | termslide.py:184-196 | Drawing one more cell with its key's cached id, in a cache that only grew, keeps every cell's id the cached one. |
| Palette.InOrderGrow | termslide.py:183-186 | A cell after every cell drawn so far keeps the cells in row-major order. |
| Palette.RegisteredShown | termslide.py:189-196 | Every id given out is drawn on a cell whose key is the one registered under it. |
| Palette.CacheKeysDistinct | termslide.py:189-195 | No two registered ids share a colour key. |
| Palette.CachedCellsAgree | termslide.py:182-196 | Cells cached under the invariant agree: equal keys have equal ids, an id is 0 only once ids ran out, and otherwise it registers that cell's colours. |
| Painter.HeadingOf | termslide.py:493-496 | A heading match has a level of at least 1 and its line starts with `#`. The level is the whole run of `#` at the start of the line and a space follows it. For a line without a newline the match happens exactly then, and the text is the rest of the line after that space, stripped. |
| Painter.LineForm | termslide.py:483-523 | `LineForm` is the dispatch after the table test (link, quote, heading, bullet, plain) and never gives the table branch. `FormOf` puts the table test first. |
| Painter.FormatText | termslide.py:475-523 | It always reads at least one line. When `FormOf` gives a table, it reads its header, separator and rows, all `|` lines inside the body. The rows are `parse_table`'s result, and it draws two rows more than it reads, the table exactly as `render_table` draws it. Any other line is read alone and drawn as `LineDrawn` says, its inline text as `format_inline` writes it. Every write lies in the rows reported, and the pair turned on matches the dispatch. |
| Painter.DrawTable | termslide.py:476-481 | A table is drawn exactly when `parse_table` accepts. It then reads two or more lines, all starting with `|`, as `parse_table` reads them. It draws the rows read with their column widths as `render_table` draws them, in two rows more than it reads. |
| Painter.DrawParsed | termslide.py:479-481 | The table `parse_table` read, drawn by `render_table`. |
| Painter.FormatLine | termslide.py:483-523 | Dispatch after the table test, in order: link, quote, heading, bullet, plain. A quote draws a bar at `x` in pair 9 and then its stripped text as `format_inline` writes it from `x + 2`. A level-1 heading draws its banner, one row per line. Other headings, bullets (`"• "` plus the rest) and plain lines draw their inline text on one row as `format_inline` writes it from `x`: shown text side by side, cut to the width, in the runs' pairs. |
| Painter.DrawBanner | termslide.py:497-504 | The banner takes one row per line. Exactly the lines on the window are written, each cut at `maxw - x`. |
| Painter.FenceNotPipe | termslide.py:541 | A table line is never a fence line. |
| Painter.FenceCountSkip | termslide.py:570-572 | Lines that are not fences leave the count of fences read unchanged. |
| Painter.DrawCode | termslide.py:556-561 | A closed code block takes one row per line. Exactly the lines on the window and left of its right edge are written, as `"│ "` plus the line cut at `maxw - (x + 2)`. |
| Painter.DrawDiagram | termslide.py:422-433 | A diagram draws one row per line until the window's last row: `max(0, min(len, max_y - y))` rows. Each row is `"│ "` plus the line, cut at `max(0, min(maxw, max_x) - x)`. |
| Painter.CloseBlock | termslide.py:550-563 | A closing fence sends a `mermaid` block to the diagram painter, as its lines joined with newlines, and draws any other block line by line. |
| Painter.TextStep | termslide.py:570-572 | A line outside code goes to `format_text`. It advances the source cursor by at least one line, stays inside the body, and none of the lines read is a fence. The pass it makes moves past the lines read, with no block open, and what it draws is what `format_text` draws for that line. |
| Painter.ContentStep | termslide.py:539-572 | One pass of the line loop is as `PassDrawn` says. An opening fence starts a block in the fence's language, `"text"` when it has none, and draws nothing. A closing fence draws the block and leaves the block state. A line inside a block is buffered. Any other line is drawn by `format_text`, which moves both cursors. |
| Painter.ContentText | termslide.py:570-572 | A line outside a block that is no fence is drawn by `format_text`. The pass moves past the lines read, stays inside the body, keeps its writes in its rows, and is the text pass of the line loop. |
| Painter.PassOpen | termslide.py:541-548 | An opening fence outside a block makes the pass that opens one. |
| Painter.PassClose | termslide.py:549-565 | A fence inside a block, with the block drawn, makes the pass that closes it. |
| Painter.PassBuffer | termslide.py:566-569 | Any other line inside a block makes the pass that buffers it. |
| Painter.PassText | termslide.py:570-572 | A line outside a block drawn by `format_text` makes the pass that moves past the lines it read. |
| Painter.TextPassIntro | termslide.py:570-572 | What `format_text` drew from line `i` is the text pass from that line to the line after those it read. |
| Painter.ScanningPass | termslide.py:539-572 | Every pass keeps the block state in step with the fences read. A block is open exactly after an odd number of fences. It was opened by the last of them, whose tag is its language, and it buffers the lines since. With no block open, nothing is buffered. |
| Painter.PaintedPush | termslide.py:539 | One more pass, made from the state the earlier passes left, extends the run of passes. |
| Painter.LogsPush | termslide.py:539 | The writes of one more pass come after those of the passes before it. |
| Painter.RenderContent | termslide.py:533-572 | The loop makes passes from line 0, no block open and `y` at the start row, each as `PassDrawn` says, up to the end of the body. Its writes are theirs in order, and the final row cursor is where the last pass left it. Every write lies between the start row and the final row cursor, which never goes above the start. A block is left open at the end exactly when the body has an odd number of fence lines. Its buffered lines, those after the last fence, are then never drawn. |
| Navigation.Step | termslide.py:636-642 | The show ends exactly on `q` or Esc. A next key moves forward exactly when not on the last slide, and a previous key back exactly when not on the first. Any other key stays. Every index is a slide. |
| Navigation.TraceShape | termslide.py:604-642 | The `Trace` of the slides shown starts at the first slide, holds only valid indices, has at most one more entry than the keys read, and consecutive entries are at most one apart. |
| Navigation.TraceStopsAtQuit | termslide.py:636-638 | The show ends at the first quit key, after showing one slide per key before it plus the first. |
| Navigation.NextKeysReach | termslide.py:639-640 | `n` right-arrow presses from slide `i` end on slide `min(i + n, len - 1)`. |
| Navigation.PreviousKeysReach | termslide.py:641-642 | `n` left-arrow presses from slide `i` end on slide `max(i - n, 0)`. |
| Navigation.OtherKeysStay | termslide.py:636-642 | Keys that are neither quit, next nor previous redraw the same slide, once per key. |
| Navigation.TraceFrom | termslide.py:636-642 | From the k-th key on, the trace is the current slide, followed by the trace from the next index unless the key quits. |
| Navigation.RunSlideshow | termslide.py:604-642 | The key loop shows exactly the trace from slide 0, and every index it reads is a valid slide. |

## Left out

- Curses itself is not modelled: `clear`, `refresh`, `getch`, the terminal's reaction to a write (for example an error on a write past the window), and `init_pair` beyond the image cache's log.
- Nested `attron` calls are recorded only as the pair each piece of code turns on. A write inside a heading, quote, bullet or table carries its own pair, or `NoPair`, and `FormatText` reports the enclosing pair separately. The bitwise combination curses makes of nested attributes is not modelled.
- Inline.FormatInline: the `try`/`except curses.error` around each write is not modelled, because writes never fail in the model.
- `render_row`, the table borders and the quote bar write with no check on the row, so in the source a table or quote that reaches past the last terminal row raises a `curses.error` that nothing catches. The model records those writes like any other, because writes never fail in it.
- Pillow is not modelled: opening, resizing and letterboxing the image (floating-point ratios) are left out. `RenderImageCells` takes the letterboxed canvas as a grid of pixels.
- The "Pillow required" message and the footer lines of `render_image_in_curses` are not modelled.
- `parse_image_only` is not modelled, because it depends on file existence on disk. `RenderContent` models the path taken for bodies that are not a lone image.
- `render_links` is not modelled. Its writes use offsets from the original match positions and are not clipped. `FormatText` recognises link lines exactly, reads one line and one row for them, and records no writes.
- The Figlet banner is a parameter, `banner(text)`, that returns the banner's lines. The Mermaid library and its fallback are a parameter, `diagram(text)`, that returns the lines to draw. The unreachable code after the `try` in `render_mermaid` is not modelled.
- Navigation.RunSlideshow: drawing each slide (its title banner, its centring and its `Slide i/n` footer) is not modelled. `getch` blocks in the source; in the model the keys are a finite sequence, and the show also ends when they run out.
- Navigation.RunSlideshow requires at least one slide, because the source reads `slides[0]` before any key. A document with no slides therefore falls outside the model.
- `main`, file reading, the encoding and locale probing, and the Mermaid reminder printed after exit are not modelled, because they are I/O.
- Slides.SegmentLines: `splitlines()` is modelled as a split at `\n` only. The other line boundaries Python accepts (`\r`, `\x0b`, `\x0c`, `\x1c`-`\x1e`, `\x85`, `\u2028`, `\u2029`) are not.
- Text.Strip: whitespace is six ASCII characters (space, tab, `\n`, `\r`, `\x0b`, `\x0c`). Python's `str.strip()` also removes `\x1c` to `\x1f` and the Unicode spaces, and those are not modelled.
- Slides.Segments: the `re.split` on `^-{3,}\s*$` is modelled as a split at separator lines. Whitespace that the regular expression's `\s*` also swallows after a separator is always removed by the `strip()` of the segment, so it does not change any slide.
- Palette.Level: `round(c / 255 * 5)` is computed exactly, as `(10c + 255) / 510`, rather than in floating point. The exact value is never within 1/102 of a tie, so both round to the same level.
