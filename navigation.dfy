/**
 * The key loop of `run_slideshow`: after drawing slide `idx` it reads one
 * key; `q` or Esc ends the show, right arrow or `l` moves on unless on the
 * last slide, left arrow or `h` moves back unless on the first, and any
 * other key redraws the same slide.  Keys are given as a finite sequence;
 * the show also ends when they run out.
 */
module Navigation {
  import opened Text

  const KeyEscape: int := 27
  const KeyH: int := 104      // ord("h")
  const KeyL: int := 108      // ord("l")
  const KeyQ: int := 113      // ord("q")
  const KeyLeft: int := 260   // curses.KEY_LEFT
  const KeyRight: int := 261  // curses.KEY_RIGHT

  predicate IsQuit(key: int) {
    key == KeyQ || key == KeyEscape
  }

  predicate IsNext(key: int) {
    key == KeyRight || key == KeyL
  }

  predicate IsPrevious(key: int) {
    key == KeyLeft || key == KeyH
  }

  datatype Outcome = Quit | Show(index: int)

  /**
   * One key of the loop over `count` slides.  The show ends exactly on a
   * quit key; otherwise the index stays among the slides and moves by at
   * most one: forward only on a next key, backward only on a previous key.
   */
  function Step(idx: int, count: int, key: int): (r: Outcome)
    requires 0 <= idx < count
    ensures r.Quit? <==> IsQuit(key)
    ensures r.Show? ==> 0 <= r.index < count
    ensures r.Show? && r.index == idx + 1 ==> IsNext(key)
    ensures r.Show? && r.index == idx - 1 ==> IsPrevious(key)
    ensures r.Show? ==> idx - 1 <= r.index <= idx + 1
    ensures IsNext(key) && idx < count - 1 ==> r == Show(idx + 1)
    ensures IsPrevious(key) && idx > 0 ==> r == Show(idx - 1)
    ensures !IsQuit(key) && !IsNext(key) && !IsPrevious(key) ==> r == Show(idx)
  {
    if IsQuit(key) then Quit
    else if IsNext(key) && idx < count - 1 then Show(idx + 1)
    else if IsPrevious(key) && idx > 0 then Show(idx - 1)
    else Show(idx)
  }

  /** The slides shown, in order, starting from slide `idx` and reading `keys`. */
  function Trace(idx: int, count: int, keys: seq<int>): seq<int>
    requires 0 <= idx < count
    decreases |keys|
  {
    if |keys| == 0 then [idx]
    else
      match Step(idx, count, keys[0])
      case Quit => [idx]
      case Show(next) => [idx] + Trace(next, count, keys[1..])
  }

  /**
   * Every slide shown is one of the slides, the first shown is the start,
   * one more slide is shown per key read, and consecutive slides are at
   * most one apart.
   */
  lemma {:induction false} TraceShape(idx: int, count: int, keys: seq<int>)
    requires 0 <= idx < count
    ensures var t := Trace(idx, count, keys);
      1 <= |t| <= |keys| + 1 && t[0] == idx &&
      (forall k :: 0 <= k < |t| ==> 0 <= t[k] < count) &&
      (forall k :: 0 <= k < |t| - 1 ==> t[k] - 1 <= t[k + 1] <= t[k] + 1)
    decreases |keys|
  {
    if |keys| > 0 {
      match Step(idx, count, keys[0])
      case Quit =>
      case Show(next) =>
        TraceShape(next, count, keys[1..]);
        var rest := Trace(next, count, keys[1..]);
        assert Trace(idx, count, keys) == [idx] + rest;
    }
  }

  /** The show ends at the first quit key: one slide for the start and one per key read before it. */
  lemma {:induction false} TraceStopsAtQuit(idx: int, count: int, keys: seq<int>, q: nat)
    requires 0 <= idx < count
    requires q < |keys| && IsQuit(keys[q]) && forall k :: 0 <= k < q ==> !IsQuit(keys[k])
    ensures |Trace(idx, count, keys)| == q + 1
    decreases q
  {
    if q > 0 {
      var next := Step(idx, count, keys[0]).index;
      TraceStopsAtQuit(next, count, keys[1..], q - 1);
    }
  }

  /** `n` presses of `key`. */
  function Presses(key: int, n: nat): (r: seq<int>)
    ensures |r| == n && forall k :: 0 <= k < n ==> r[k] == key
  {
    if n == 0 then [] else [key] + Presses(key, n - 1)
  }

  /** Pressing right or `l` `n` times walks forward to slide `idx + n`, stopping at the last slide. */
  lemma {:induction false} NextKeysReach(idx: int, count: int, key: int, n: nat)
    requires 0 <= idx < count && IsNext(key)
    ensures var t := Trace(idx, count, Presses(key, n));
      t[|t| - 1] == Min(idx + n, count - 1)
    decreases n
  {
    TraceShape(idx, count, Presses(key, n));
    if n > 0 {
      var keys := Presses(key, n);
      assert keys[1..] == Presses(key, n - 1);
      var next := Step(idx, count, key).index;
      NextKeysReach(next, count, key, n - 1);
      TraceShape(next, count, keys[1..]);
      assert Trace(idx, count, keys) == [idx] + Trace(next, count, keys[1..]);
    }
  }

  /** Pressing left or `h` `n` times walks back to slide `idx - n`, stopping at the first slide. */
  lemma {:induction false} PreviousKeysReach(idx: int, count: int, key: int, n: nat)
    requires 0 <= idx < count && IsPrevious(key)
    ensures var t := Trace(idx, count, Presses(key, n));
      t[|t| - 1] == (if idx - n > 0 then idx - n else 0)
    decreases n
  {
    TraceShape(idx, count, Presses(key, n));
    if n > 0 {
      var keys := Presses(key, n);
      assert keys[1..] == Presses(key, n - 1);
      var next := Step(idx, count, key).index;
      PreviousKeysReach(next, count, key, n - 1);
      TraceShape(next, count, keys[1..]);
      assert Trace(idx, count, keys) == [idx] + Trace(next, count, keys[1..]);
    }
  }

  /** Any other key redraws the same slide: the trace stays put. */
  lemma {:induction false} OtherKeysStay(idx: int, count: int, keys: seq<int>)
    requires 0 <= idx < count
    requires forall k :: 0 <= k < |keys| ==> !IsQuit(keys[k]) && !IsNext(keys[k]) && !IsPrevious(keys[k])
    ensures var t := Trace(idx, count, keys);
      |t| == |keys| + 1 && forall k :: 0 <= k < |t| ==> t[k] == idx
    decreases |keys|
  {
    if |keys| > 0 {
      OtherKeysStay(idx, count, keys[1..]);
      assert Trace(idx, count, keys) == [idx] + Trace(idx, count, keys[1..]);
    }
  }

  /** The trace from the `k`-th key on, one step unfolded. */
  lemma TraceFrom(idx: int, count: int, keys: seq<int>, k: nat)
    requires 0 <= idx < count && k < |keys|
    ensures Step(idx, count, keys[k]).Quit? ==> Trace(idx, count, keys[k..]) == [idx]
    ensures Step(idx, count, keys[k]).Show? ==>
      Trace(idx, count, keys[k..]) == [idx] + Trace(Step(idx, count, keys[k]).index, count, keys[k + 1..])
  {
    assert keys[k..][0] == keys[k] && keys[k..][1..] == keys[k + 1..];
  }

  /**
   * The key loop of `run_slideshow` over `count` slides: the indices of the
   * slides drawn, one per pass, which is the trace from the first slide.
   * The source reads the slide at index 0 before any key, so it needs a
   * slide to show.
   */
  method RunSlideshow(count: int, keys: seq<int>) returns (shown: seq<int>)
    requires count >= 1
    ensures shown == Trace(0, count, keys)
    ensures |shown| >= 1 && shown[0] == 0
    ensures forall k :: 0 <= k < |shown| ==> 0 <= shown[k] < count
  {
    var idx := 0;
    var k := 0;
    shown := [idx];
    while k < |keys|
      invariant 0 <= k <= |keys| && 0 <= idx < count
      invariant |shown| >= 1 && shown[|shown| - 1] == idx
      invariant Trace(0, count, keys) == shown[..|shown| - 1] + Trace(idx, count, keys[k..])
      decreases |keys| - k
    {
      var outcome := Step(idx, count, keys[k]);
      TraceFrom(idx, count, keys, k);
      if outcome.Quit? {
        break;
      }
      shown := shown + [outcome.index];
      idx := outcome.index;
      k := k + 1;
    }
    assert shown == shown[..|shown| - 1] + [idx];
    TraceShape(0, count, keys);
  }
}
