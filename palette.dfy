/**
 * Colours of image slides: `rgb_to_ansi256` and the colour-pair cache of
 * `render_image_in_curses`.
 *
 * Every terminal row of an image slide shows two canvas pixels per column
 * with a lower half block: the foreground is the bottom pixel's colour, the
 * background the top pixel's.  Each (bottom, top) colour pair gets a curses
 * pair id the first time it is seen, counting up from 50 while ids remain
 * below `curses.COLOR_PAIRS`; once they run out a new pair is given id 0,
 * which draws without any colour attribute.  The cache lives for one call.
 */
module Palette {

  datatype Rgb = Rgb(r: int, g: int, b: int)

  predicate IsChannel(c: int) {
    0 <= c <= 255
  }

  predicate ValidRgb(p: Rgb) {
    IsChannel(p.r) && IsChannel(p.g) && IsChannel(p.b)
  }

  /**
   * `int(round(c / 255 * 5))` for an integer channel: the level in 0..5
   * nearest to `5c / 255`.  The distance is always below one half (there is
   * never a tie), so the rounding rule does not matter.
   */
  function Level(c: int): (l: int)
    requires IsChannel(c)
    ensures 0 <= l <= 5
    ensures -255 < 10 * c - 510 * l < 255
  {
    (10 * c + 255) / 510
  }

  /** `rgb_to_ansi256`: the index of the colour in the 6x6x6 cube of the 256-colour palette. */
  function RgbToAnsi256(p: Rgb): (n: int)
    requires ValidRgb(p)
    ensures 16 <= n <= 231
  {
    16 + 36 * Level(p.r) + 6 * Level(p.g) + Level(p.b)
  }

  /** The cube levels of a palette index in 16..231. */
  function CubeLevels(n: int): (int, int, int)
    requires 16 <= n <= 231
  {
    ((n - 16) / 36, (n - 16) / 6 % 6, (n - 16) % 6)
  }

  /** The palette index keeps each channel's level: the cube index can be read back. */
  lemma AnsiLevelsRoundTrip(p: Rgb)
    requires ValidRgb(p)
    ensures CubeLevels(RgbToAnsi256(p)) == (Level(p.r), Level(p.g), Level(p.b))
  {
    var r, g, b := Level(p.r), Level(p.g), Level(p.b);
    var m := 36 * r + 6 * g + b;
    assert RgbToAnsi256(p) - 16 == m;
    assert m / 36 == r;
    assert m / 6 == 6 * r + g;
    assert m / 6 % 6 == g;
    assert m % 6 == b;
  }

  /** The first pair id handed to image colours; lower ids belong to text styles. */
  const FirstImagePair: int := 50

  /** The cache key of a cell: the palette indices of its bottom and top pixels. */
  datatype Key = Key(bot: int, top: int)

  /** A lower half block drawn at a cell, with its pair id (0: no colour attribute). */
  datatype Cell = Cell(row: int, col: int, pair: int)

  /** A `curses.init_pair(id, fg, bg)` call. */
  datatype InitPair = InitPair(id: int, fg: int, bg: int)

  /** A canvas of `2 * rows` pixel rows of `cols` valid pixels. */
  predicate ValidCanvas(canvas: seq<seq<Rgb>>, rows: nat, cols: nat) {
    && |canvas| == 2 * rows
    && forall y :: 0 <= y < |canvas| ==>
         |canvas[y]| == cols && forall x :: 0 <= x < cols ==> ValidRgb(canvas[y][x])
  }

  function KeyAt(canvas: seq<seq<Rgb>>, rows: nat, cols: nat, y: int, x: int): Key
    requires ValidCanvas(canvas, rows, cols) && 0 <= y < rows && 0 <= x < cols
  {
    Key(RgbToAnsi256(canvas[2 * y + 1][x]), RgbToAnsi256(canvas[2 * y][x]))
  }

  /** Cell `a` comes before cell `b` in row-major order. */
  predicate Before(a: Cell, b: Cell) {
    a.row < b.row || (a.row == b.row && a.col < b.col)
  }

  /**
   * The state of the cache: ids 50, 51, ... given out in order, one
   * `init_pair` call per id, with the colours of the key it caches; a key
   * cached as 0 only once the ids ran out.
   */
  predicate CacheInvariant(cache: map<Key, int>, next: int, inits: seq<InitPair>, colorPairs: int) {
    && next == FirstImagePair + |inits|
    && (|inits| == 0 || next <= colorPairs)
    && (forall k :: 0 <= k < |inits| ==>
          inits[k].id == FirstImagePair + k &&
          Key(inits[k].fg, inits[k].bg) in cache &&
          cache[Key(inits[k].fg, inits[k].bg)] == FirstImagePair + k)
    && (forall key :: key in cache ==>
          (cache[key] == 0 && next >= colorPairs) ||
          (FirstImagePair <= cache[key] < next &&
           Key(inits[cache[key] - FirstImagePair].fg, inits[cache[key] - FirstImagePair].bg) == key))
  }

  /** Every entry of `c1` is in `c2` with the same id. */
  predicate Extends(c1: map<Key, int>, c2: map<Key, int>) {
    forall key :: key in c1 ==> key in c2 && c2[key] == c1[key]
  }

  /**
   * One cache lookup of the pixel loop: a cached key keeps its id; a new key
   * takes the next id and registers its colours while ids remain below
   * `colorPairs`, and is cached as 0 otherwise.
   */
  method PairFor(cache: map<Key, int>, next: int, inits: seq<InitPair>, colorPairs: int, key: Key)
    returns (cache': map<Key, int>, next': int, inits': seq<InitPair>, id: int)
    requires CacheInvariant(cache, next, inits, colorPairs)
    ensures CacheInvariant(cache', next', inits', colorPairs)
    ensures Extends(cache, cache') && key in cache' && cache'[key] == id
    ensures key in cache ==> id == cache[key] && next' == next && inits' == inits
    ensures key !in cache && next < colorPairs ==>
      id == next && next' == next + 1 && inits' == inits + [InitPair(next, key.bot, key.top)]
    ensures key !in cache && next >= colorPairs ==> id == 0 && next' == next && inits' == inits
  {
    cache', next', inits' := cache, next, inits;
    if key !in cache {
      if next < colorPairs {
        CacheRegister(cache, next, inits, colorPairs, key);
        inits' := inits + [InitPair(next, key.bot, key.top)];
        cache' := cache[key := next];
        next' := next + 1;
      } else {
        CacheExhausted(cache, next, inits, colorPairs, key);
        cache' := cache[key := 0];
      }
    }
    id := cache'[key];
  }

  /** Registering a new key under the next id keeps the cache invariant. */
  lemma CacheRegister(cache: map<Key, int>, next: int, inits: seq<InitPair>, colorPairs: int, key: Key)
    requires CacheInvariant(cache, next, inits, colorPairs) && key !in cache && next < colorPairs
    ensures CacheInvariant(cache[key := next], next + 1, inits + [InitPair(next, key.bot, key.top)], colorPairs)
  {
    var inits' := inits + [InitPair(next, key.bot, key.top)];
    forall k | 0 <= k < |inits|
      ensures inits'[k] == inits[k]
    {
    }
  }

  /** Caching a new key as 0 once the ids ran out keeps the cache invariant. */
  lemma CacheExhausted(cache: map<Key, int>, next: int, inits: seq<InitPair>, colorPairs: int, key: Key)
    requires CacheInvariant(cache, next, inits, colorPairs) && key !in cache && next >= colorPairs
    ensures CacheInvariant(cache[key := 0], next, inits, colorPairs)
  {
  }

  /**
   * The pixel loop of `render_image_in_curses` over a letterboxed canvas of
   * `2 * (h - 1)` pixel rows and `w` columns.  One cell per (row, column) of
   * the top `h - 1` terminal rows, in row-major order.  Equal colour keys
   * always get the same pair id; ids are 0 or in `[50, colorPairs)`; the
   * `init_pair` calls use consecutive ids from 50, distinct keys, and
   * register exactly the colours of the cells drawn with them; id 0 appears
   * only once every id below `colorPairs` is taken, and only on cells after
   * every id given out was first drawn.
   */
  method RenderImageCells(canvas: seq<seq<Rgb>>, h: nat, w: nat, colorPairs: int)
    returns (cells: seq<Cell>, inits: seq<InitPair>)
    requires h >= 1 && ValidCanvas(canvas, h - 1, w)
    ensures |cells| == (h - 1) * w
    ensures forall i :: 0 <= i < |cells| ==> 0 <= cells[i].row < h - 1 && 0 <= cells[i].col < w
    ensures forall i :: 0 <= i < |cells| - 1 ==> Before(cells[i], cells[i + 1])
    ensures forall i, j :: (0 <= i < |cells| && 0 <= j < |cells| &&
      KeyAt(canvas, h - 1, w, cells[i].row, cells[i].col) == KeyAt(canvas, h - 1, w, cells[j].row, cells[j].col)) ==>
      cells[i].pair == cells[j].pair
    ensures forall i :: 0 <= i < |cells| ==>
      (cells[i].pair == 0 && FirstImagePair + |inits| >= colorPairs) ||
      (FirstImagePair <= cells[i].pair < FirstImagePair + |inits| &&
       var reg := inits[cells[i].pair - FirstImagePair];
       Key(reg.fg, reg.bg) == KeyAt(canvas, h - 1, w, cells[i].row, cells[i].col))
    ensures |inits| == 0 || FirstImagePair + |inits| <= colorPairs
    ensures forall k :: 0 <= k < |inits| ==> inits[k].id == FirstImagePair + k
    ensures forall k, l :: 0 <= k < l < |inits| ==>
      Key(inits[k].fg, inits[k].bg) != Key(inits[l].fg, inits[l].bg)
    ensures AllKeysShown(canvas, h - 1, w, cells, inits)
    ensures IdsInOrder(cells) && ZerosLate(cells, inits)
  {
    var cache, next;
    cells, cache, next, inits := ImageRows(canvas, h - 1, w, colorPairs);
    PixelLoopDone(canvas, h - 1, w, cells, cache, next, inits, colorPairs);
  }

  /** The outer loop of the pixel loop: every terminal row but the last, from an empty cache and id 50. */
  method ImageRows(canvas: seq<seq<Rgb>>, rows: nat, w: nat, colorPairs: int)
    returns (cells: seq<Cell>, cache: map<Key, int>, next: int, inits: seq<InitPair>)
    requires ValidCanvas(canvas, rows, w)
    ensures RowsDrawn(canvas, rows, w, rows, cells, cache, next, inits, colorPairs)
  {
    cache, next := map[], FirstImagePair;
    cells, inits := [], [];
    for y := 0 to rows
      invariant RowsDrawn(canvas, rows, w, y, cells, cache, next, inits, colorPairs)
    {
      cells, cache, next, inits := ImageRow(canvas, rows, w, y, cells, cache, next, inits, colorPairs);
    }
  }

  /** What the pixel loop promises, from its state after the last terminal row. */
  lemma PixelLoopDone(canvas: seq<seq<Rgb>>, rows: nat, cols: nat, cells: seq<Cell>,
                      cache: map<Key, int>, next: int, inits: seq<InitPair>, colorPairs: int)
    requires ValidCanvas(canvas, rows, cols)
    requires RowsDrawn(canvas, rows, cols, rows, cells, cache, next, inits, colorPairs)
    ensures |cells| == rows * cols
    ensures forall i :: 0 <= i < |cells| ==> 0 <= cells[i].row < rows && 0 <= cells[i].col < cols
    ensures forall i :: 0 <= i < |cells| - 1 ==> Before(cells[i], cells[i + 1])
    ensures forall i, j :: (0 <= i < |cells| && 0 <= j < |cells| &&
      KeyAt(canvas, rows, cols, cells[i].row, cells[i].col) == KeyAt(canvas, rows, cols, cells[j].row, cells[j].col)) ==>
      cells[i].pair == cells[j].pair
    ensures forall i :: 0 <= i < |cells| ==>
      (cells[i].pair == 0 && FirstImagePair + |inits| >= colorPairs) ||
      (FirstImagePair <= cells[i].pair < FirstImagePair + |inits| &&
       var reg := inits[cells[i].pair - FirstImagePair];
       Key(reg.fg, reg.bg) == KeyAt(canvas, rows, cols, cells[i].row, cells[i].col))
    ensures |inits| == 0 || FirstImagePair + |inits| <= colorPairs
    ensures forall k :: 0 <= k < |inits| ==> inits[k].id == FirstImagePair + k
    ensures forall k, l :: 0 <= k < l < |inits| ==>
      Key(inits[k].fg, inits[k].bg) != Key(inits[l].fg, inits[l].bg)
    ensures AllKeysShown(canvas, rows, cols, cells, inits)
    ensures IdsInOrder(cells) && ZerosLate(cells, inits)
  {
    CachedCellsAgree(canvas, rows, cols, cells, cache, next, inits, colorPairs);
    RegisteredShown(canvas, rows, cols, cells, cache, next, inits, colorPairs);
  }

  /**
   * What the cache invariant says about the cells it has cached: equal keys
   * share a pair id, an id is 0 only once ids ran out and otherwise
   * registers the cell's own colours, and the registered keys are distinct.
   */
  lemma CachedCellsAgree(canvas: seq<seq<Rgb>>, rows: nat, cols: nat, cells: seq<Cell>,
                         cache: map<Key, int>, next: int, inits: seq<InitPair>, colorPairs: int)
    requires ValidCanvas(canvas, rows, cols)
    requires CacheInvariant(cache, next, inits, colorPairs) && CellsCached(canvas, rows, cols, cells, cache)
    ensures forall i, j :: (0 <= i < |cells| && 0 <= j < |cells| &&
      KeyAt(canvas, rows, cols, cells[i].row, cells[i].col) == KeyAt(canvas, rows, cols, cells[j].row, cells[j].col)) ==>
      cells[i].pair == cells[j].pair
    ensures forall i :: 0 <= i < |cells| ==>
      (cells[i].pair == 0 && FirstImagePair + |inits| >= colorPairs) ||
      (FirstImagePair <= cells[i].pair < FirstImagePair + |inits| &&
       var reg := inits[cells[i].pair - FirstImagePair];
       Key(reg.fg, reg.bg) == KeyAt(canvas, rows, cols, cells[i].row, cells[i].col))
    ensures forall k, l :: 0 <= k < l < |inits| ==>
      Key(inits[k].fg, inits[k].bg) != Key(inits[l].fg, inits[l].bg)
  {
    CacheKeysDistinct(cache, next, inits, colorPairs);
  }

  /** The inner loop of the pixel loop: the cells of terminal row `y`, appended to `cells`. */
  method ImageRow(canvas: seq<seq<Rgb>>, rows: nat, w: nat, y: nat, cells: seq<Cell>,
                  cache: map<Key, int>, next: int, inits: seq<InitPair>, colorPairs: int)
    returns (cells': seq<Cell>, cache': map<Key, int>, next': int, inits': seq<InitPair>)
    requires ValidCanvas(canvas, rows, w) && y < rows
    requires RowsDrawn(canvas, rows, w, y, cells, cache, next, inits, colorPairs)
    ensures RowsDrawn(canvas, rows, w, y + 1, cells', cache', next', inits', colorPairs)
  {
    cells', cache', next', inits' := cells, cache, next, inits;
    for x := 0 to w
      invariant CacheInvariant(cache', next', inits', colorPairs)
      invariant |cells'| == |cells| + x
      invariant RowSoFar(canvas, rows, w, y, x, cells', cache')
      invariant IdsShown(cells', inits') && IdsInOrder(cells') && ZerosLate(cells', inits')
    {
      cells', cache', next', inits' := ImageCell(canvas, rows, w, y, x, cells', cache', next', inits', colorPairs);
    }
    assert (y + 1) * w == y * w + w;
  }

  /**
   * The state of the pixel loop after the first `y` terminal rows: the
   * cache invariant holds, one cell per column of each of those rows, in
   * order, every cell cached, every id given out drawn, ids first drawn in
   * order, and id 0 drawn only after all of them.
   */
  ghost predicate RowsDrawn(canvas: seq<seq<Rgb>>, rows: nat, cols: nat, y: nat, cells: seq<Cell>,
                            cache: map<Key, int>, next: int, inits: seq<InitPair>, colorPairs: int)
    requires ValidCanvas(canvas, rows, cols)
  {
    && CacheInvariant(cache, next, inits, colorPairs)
    && |cells| == y * cols
    && (forall i :: 0 <= i < |cells| ==> cells[i].row < y)
    && (forall i :: 0 <= i < |cells| - 1 ==> Before(cells[i], cells[i + 1]))
    && CellsCached(canvas, rows, cols, cells, cache)
    && IdsShown(cells, inits) && IdsInOrder(cells) && ZerosLate(cells, inits)
  }

  /** The cells so far, up to column `x` of row `y`: in order, before that column, and cached. */
  predicate RowSoFar(canvas: seq<seq<Rgb>>, rows: nat, cols: nat, y: int, x: int, cells: seq<Cell>, cache: map<Key, int>)
    requires ValidCanvas(canvas, rows, cols)
  {
    && (forall i :: 0 <= i < |cells| ==> cells[i].row <= y && (cells[i].row == y ==> cells[i].col < x))
    && (forall i :: 0 <= i < |cells| - 1 ==> Before(cells[i], cells[i + 1]))
    && CellsCached(canvas, rows, cols, cells, cache)
  }

  /** One pass of the inner pixel loop: the cell at row `y`, column `x`, with the pair id of its key. */
  method ImageCell(canvas: seq<seq<Rgb>>, rows: nat, w: nat, y: nat, x: nat, cells: seq<Cell>,
                   cache: map<Key, int>, next: int, inits: seq<InitPair>, colorPairs: int)
    returns (cells': seq<Cell>, cache': map<Key, int>, next': int, inits': seq<InitPair>)
    requires ValidCanvas(canvas, rows, w) && y < rows && x < w
    requires CacheInvariant(cache, next, inits, colorPairs)
    requires RowSoFar(canvas, rows, w, y, x, cells, cache)
    requires IdsShown(cells, inits) && IdsInOrder(cells) && ZerosLate(cells, inits)
    ensures CacheInvariant(cache', next', inits', colorPairs)
    ensures |cells'| == |cells| + 1
    ensures RowSoFar(canvas, rows, w, y, x + 1, cells', cache')
    ensures IdsShown(cells', inits') && IdsInOrder(cells') && ZerosLate(cells', inits')
  {
    var key := KeyAt(canvas, rows, w, y, x);
    var id;
    cache', next', inits', id := PairFor(cache, next, inits, colorPairs, key);
    CellsCachedGrow(canvas, rows, w, cells, cache, cache', Cell(y, x, id));
    InOrderGrow(cells, Cell(y, x, id));
    ShownGrow(cells, inits, inits', Cell(y, x, id));
    if next < colorPairs {
      NoZeroWhileFree(canvas, rows, w, cells, cache, next, inits, colorPairs);
    }
    ZerosLateGrow(cells, inits, inits', Cell(y, x, id));
    cells' := cells + [Cell(y, x, id)];
  }

  /** Every registered id is the pair of some cell drawn so far. */
  ghost predicate IdsShown(cells: seq<Cell>, inits: seq<InitPair>) {
    forall id :: FirstImagePair <= id < FirstImagePair + |inits| ==> IsDrawn(cells, id)
  }

  /** Some cell is drawn with pair `id`. */
  ghost predicate IsDrawn(cells: seq<Cell>, id: int) {
    exists i :: 0 <= i < |cells| && cells[i].pair == id
  }

  /** Ids are first drawn in the order they are given out: id `p + 1` only after id `p`. */
  ghost predicate IdsInOrder(cells: seq<Cell>) {
    forall i :: 0 <= i < |cells| && cells[i].pair > FirstImagePair ==>
      exists j :: 0 <= j < i && cells[j].pair == cells[i].pair - 1
  }

  /**
   * Drawing one more cell, with an id already given out or the one just
   * given out (or 0), keeps every id shown and ids in order.
   */
  lemma ShownGrow(cells: seq<Cell>, inits: seq<InitPair>, inits': seq<InitPair>, cell: Cell)
    requires IdsShown(cells, inits) && IdsInOrder(cells)
    requires cell.pair == 0 || FirstImagePair <= cell.pair < FirstImagePair + |inits'|
    requires inits' == inits || (|inits'| == |inits| + 1 && cell.pair == FirstImagePair + |inits|)
    ensures IdsShown(cells + [cell], inits') && IdsInOrder(cells + [cell])
  {
    var all := cells + [cell];
    forall id | FirstImagePair <= id < FirstImagePair + |inits'|
      ensures IsDrawn(all, id)
    {
      if id < FirstImagePair + |inits| {
        assert IsDrawn(cells, id);
        var i :| 0 <= i < |cells| && cells[i].pair == id;
        assert all[i] == cells[i];
      } else {
        assert all[|cells|] == cell;
      }
    }
    forall i | 0 <= i < |all| && all[i].pair > FirstImagePair
      ensures exists j :: 0 <= j < i && all[j].pair == all[i].pair - 1
    {
      if i < |cells| {
        assert all[i] == cells[i];
        var j :| 0 <= j < i && cells[j].pair == cells[i].pair - 1;
        assert all[j] == cells[j];
      } else {
        assert all[i] == cell;
        assert IsDrawn(cells, cell.pair - 1);
        var j :| 0 <= j < |cells| && cells[j].pair == cell.pair - 1;
        assert all[j] == cells[j];
      }
    }
  }

  /**
   * A cell is drawn with id 0 only after every id given out was first
   * drawn: the ids ran out before that cell's key was first seen.
   */
  ghost predicate ZerosLate(cells: seq<Cell>, inits: seq<InitPair>) {
    forall i, id :: 0 <= i < |cells| && cells[i].pair == 0 && FirstImagePair <= id < FirstImagePair + |inits| ==>
      DrawnBefore(cells, i, id)
  }

  /** One of the first `n` cells is drawn with pair `id`. */
  ghost predicate DrawnBefore(cells: seq<Cell>, n: int, id: int) {
    exists j :: 0 <= j < n && j < |cells| && cells[j].pair == id
  }

  /** While ids remain, no cached cell has id 0. */
  lemma NoZeroWhileFree(canvas: seq<seq<Rgb>>, rows: nat, cols: nat, cells: seq<Cell>,
                        cache: map<Key, int>, next: int, inits: seq<InitPair>, colorPairs: int)
    requires ValidCanvas(canvas, rows, cols)
    requires CacheInvariant(cache, next, inits, colorPairs) && CellsCached(canvas, rows, cols, cells, cache)
    requires next < colorPairs
    ensures forall i :: 0 <= i < |cells| ==> cells[i].pair != 0
  {
    forall i | 0 <= i < |cells|
      ensures cells[i].pair != 0
    {
      var key := KeyAt(canvas, rows, cols, cells[i].row, cells[i].col);
      assert key in cache && cache[key] == cells[i].pair;
    }
  }

  /**
   * Drawing one more cell keeps id 0 late: a 0 cell comes with no new id
   * and after every id given out, and a new id is given out only while no
   * cell has id 0.
   */
  lemma ZerosLateGrow(cells: seq<Cell>, inits: seq<InitPair>, inits': seq<InitPair>, cell: Cell)
    requires ZerosLate(cells, inits) && IdsShown(cells, inits)
    requires cell.pair == 0 ==> inits' == inits
    requires inits' == inits || forall i :: 0 <= i < |cells| ==> cells[i].pair != 0
    ensures ZerosLate(cells + [cell], inits')
  {
    var all := cells + [cell];
    forall i, id | 0 <= i < |all| && all[i].pair == 0 && FirstImagePair <= id < FirstImagePair + |inits'|
      ensures DrawnBefore(all, i, id)
    {
      if i < |cells| {
        assert all[i] == cells[i] && inits' == inits;
        assert DrawnBefore(cells, i, id);
        var j :| 0 <= j < i && j < |cells| && cells[j].pair == id;
        assert all[j] == cells[j];
      } else {
        assert IsDrawn(cells, id);
        var j :| 0 <= j < |cells| && cells[j].pair == id;
        assert all[j] == cells[j];
      }
    }
  }

  /** The key registered under id `50 + k` is the key of a cell drawn with that id. */
  ghost predicate KeyShown(canvas: seq<seq<Rgb>>, rows: nat, cols: nat, cells: seq<Cell>, inits: seq<InitPair>, k: int)
    requires ValidCanvas(canvas, rows, cols) && 0 <= k < |inits|
  {
    exists i :: 0 <= i < |cells| && cells[i].pair == FirstImagePair + k &&
      0 <= cells[i].row < rows && 0 <= cells[i].col < cols &&
      KeyAt(canvas, rows, cols, cells[i].row, cells[i].col) == Key(inits[k].fg, inits[k].bg)
  }

  /** Every registered key is the key of a cell drawn with its id. */
  ghost predicate AllKeysShown(canvas: seq<seq<Rgb>>, rows: nat, cols: nat, cells: seq<Cell>, inits: seq<InitPair>)
    requires ValidCanvas(canvas, rows, cols)
  {
    forall k :: 0 <= k < |inits| ==> KeyShown(canvas, rows, cols, cells, inits, k)
  }

  /** The cache invariant and the drawn ids show every registered key on a cell. */
  lemma RegisteredShown(canvas: seq<seq<Rgb>>, rows: nat, cols: nat, cells: seq<Cell>,
                        cache: map<Key, int>, next: int, inits: seq<InitPair>, colorPairs: int)
    requires ValidCanvas(canvas, rows, cols)
    requires CacheInvariant(cache, next, inits, colorPairs) && CellsCached(canvas, rows, cols, cells, cache)
    requires IdsShown(cells, inits)
    ensures AllKeysShown(canvas, rows, cols, cells, inits)
  {
    forall k | 0 <= k < |inits|
      ensures KeyShown(canvas, rows, cols, cells, inits, k)
    {
      assert IsDrawn(cells, FirstImagePair + k);
      var i :| 0 <= i < |cells| && cells[i].pair == FirstImagePair + k;
      var key := KeyAt(canvas, rows, cols, cells[i].row, cells[i].col);
      assert key in cache && cache[key] == FirstImagePair + k;
      assert Key(inits[k].fg, inits[k].bg) == key;
    }
  }

  /** Caching one more cell keeps the earlier cells cached. */
  lemma CellsCachedGrow(canvas: seq<seq<Rgb>>, rows: nat, cols: nat, cells: seq<Cell>,
                        cache: map<Key, int>, cache': map<Key, int>, cell: Cell)
    requires ValidCanvas(canvas, rows, cols)
    requires CellsCached(canvas, rows, cols, cells, cache) && Extends(cache, cache')
    requires 0 <= cell.row < rows && 0 <= cell.col < cols
    requires KeyAt(canvas, rows, cols, cell.row, cell.col) in cache'
    requires cache'[KeyAt(canvas, rows, cols, cell.row, cell.col)] == cell.pair
    ensures CellsCached(canvas, rows, cols, cells + [cell], cache')
  {
    var all := cells + [cell];
    forall i | 0 <= i < |all|
      ensures 0 <= all[i].row < rows && 0 <= all[i].col < cols &&
        KeyAt(canvas, rows, cols, all[i].row, all[i].col) in cache' &&
        cache'[KeyAt(canvas, rows, cols, all[i].row, all[i].col)] == all[i].pair
    {
      if i < |cells| {
        assert all[i] == cells[i];
      }
    }
  }

  /** A cell of row `y`, column `x` goes after every cell of earlier rows and of earlier columns of row `y`. */
  lemma InOrderGrow(cells: seq<Cell>, cell: Cell)
    requires forall i :: 0 <= i < |cells| ==> cells[i].row <= cell.row && (cells[i].row == cell.row ==> cells[i].col < cell.col)
    requires forall i :: 0 <= i < |cells| - 1 ==> Before(cells[i], cells[i + 1])
    ensures forall i :: 0 <= i < |cells + [cell]| - 1 ==> Before((cells + [cell])[i], (cells + [cell])[i + 1])
    ensures forall i :: 0 <= i < |cells + [cell]| ==>
      (cells + [cell])[i].row <= cell.row && ((cells + [cell])[i].row == cell.row ==> (cells + [cell])[i].col < cell.col + 1)
  {
    var all := cells + [cell];
    forall i | 0 <= i < |all| - 1
      ensures Before(all[i], all[i + 1])
    {
      assert all[i] == cells[i];
      if i + 1 < |cells| {
        assert all[i + 1] == cells[i + 1];
      }
    }
  }

  /** Every cell's key is cached with the cell's pair id. */
  predicate CellsCached(canvas: seq<seq<Rgb>>, rows: nat, cols: nat, cells: seq<Cell>, cache: map<Key, int>)
    requires ValidCanvas(canvas, rows, cols)
  {
    forall i :: 0 <= i < |cells| ==>
      0 <= cells[i].row < rows && 0 <= cells[i].col < cols &&
      KeyAt(canvas, rows, cols, cells[i].row, cells[i].col) in cache &&
      cache[KeyAt(canvas, rows, cols, cells[i].row, cells[i].col)] == cells[i].pair
  }

  /** The cache invariant gives every registered id its own key. */
  lemma CacheKeysDistinct(cache: map<Key, int>, next: int, inits: seq<InitPair>, colorPairs: int)
    requires CacheInvariant(cache, next, inits, colorPairs)
    ensures forall k, l :: 0 <= k < l < |inits| ==>
      Key(inits[k].fg, inits[k].bg) != Key(inits[l].fg, inits[l].bg)
  {
  }
}
