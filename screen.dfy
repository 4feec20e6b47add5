/**
 * The terminal as the painter sees it: a log of `addstr` calls.
 *
 * Each write records where text was placed and the colour pair that the code
 * issuing it turned on with `attron` (`NoPair` when it draws in whatever the
 * caller turned on).  The terminal's own reaction to a write (drawing, or
 * refusing one that runs off the window) is not part of the model.
 */
module Screen {

  datatype Write = Write(row: int, col: int, text: string, pair: nat)

  const NoPair: nat := 0
  const HeadingOnePair: nat := 2
  const HeadingTwoPair: nat := 3
  const HeadingPair: nat := 4
  const BoldPair: nat := 5
  const ItalicPair: nat := 6
  const CodePair: nat := 7
  const TablePair: nat := 8
  const QuotePair: nat := 9
  const BulletPair: nat := 10

  /** The vertical bar used for table walls, quotes and code blocks. */
  const Bar: char := '\U{2502}'

  /** Every write of `log` lies on a row in `[lo, hi)`. */
  predicate RowsWithin(log: seq<Write>, lo: int, hi: int) {
    forall k :: 0 <= k < |log| ==> lo <= log[k].row < hi
  }

  /** The logs of consecutive drawing steps, one after another. */
  function Stack(logs: seq<seq<Write>>): seq<Write>
    decreases |logs|
  {
    if |logs| == 0 then [] else Stack(logs[..|logs| - 1]) + logs[|logs| - 1]
  }

  /** Stacking one more log appends it. */
  lemma StackPush(logs: seq<seq<Write>>, log: seq<Write>)
    ensures Stack(logs + [log]) == Stack(logs) + log
  {
    assert (logs + [log])[..|logs|] == logs;
  }

  /** Two logs, one above the other, form a log of the rows they span together. */
  lemma RowsWithinAppend(a: seq<Write>, b: seq<Write>, lo: int, mid: int, hi: int)
    requires RowsWithin(a, lo, mid) && RowsWithin(b, mid, hi) && lo <= mid <= hi
    ensures RowsWithin(a + b, lo, hi)
  {
    forall k | 0 <= k < |a + b|
      ensures lo <= (a + b)[k].row < hi
    {
      if k >= |a| {
        assert (a + b)[k] == b[k - |a|];
      }
    }
  }

  /** Two logs on the same rows form a log of those rows. */
  lemma RowsWithinConcat(a: seq<Write>, b: seq<Write>, lo: int, hi: int)
    requires RowsWithin(a, lo, hi) && RowsWithin(b, lo, hi)
    ensures RowsWithin(a + b, lo, hi)
  {
    forall k | 0 <= k < |a + b|
      ensures lo <= (a + b)[k].row < hi
    {
      if k >= |a| {
        assert (a + b)[k] == b[k - |a|];
      }
    }
  }
}
