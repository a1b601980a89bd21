/** The score history file: one row per finished quiz, appended in order, of
    which the history window shows the last five. */
module History {

  /** One row of the history file (`datetime`, `category`, `score`, `total`). */
  datatype HistoryRow = HistoryRow(datetime: string, category: string, score: int, total: int)

  /** How many rows the history window shows. */
  const RecentCount: nat := 5

  function Min(a: nat, b: nat): (m: nat)
  {
    if a <= b then a else b
  }

  /** The last `n` rows of `h` (all of them when there are fewer), oldest
      first, as a table's `tail(n)` gives them. */
  function Tail<T>(h: seq<T>, n: nat): (r: seq<T>)
    ensures |r| == Min(n, |h|)
    ensures r == h[|h| - |r|..]
  {
    if |h| <= n then h else Tail(h[1..], n)
  }

  /** The rows the history window shows. */
  function Recent(h: seq<HistoryRow>): (r: seq<HistoryRow>)
    ensures |r| <= RecentCount
    ensures |r| == Min(RecentCount, |h|) && r == h[|h| - |r|..]
  {
    Tail(h, RecentCount)
  }

  /** A history of at most five rows is shown whole, in its order; no history
      shows nothing. */
  lemma RecentShort(h: seq<HistoryRow>)
    requires |h| <= RecentCount
    ensures Recent(h) == h
  {
  }

  /** Appending a row slides the window: the new row is shown last, after the
      rows that were shown before, less the oldest one once five were shown. */
  lemma RecentAppend(h: seq<HistoryRow>, row: HistoryRow)
    ensures Recent(h + [row]) ==
      (if |h| < RecentCount then Recent(h) else Recent(h)[1..]) + [row]
  {
    var x := h + [row];
    if |h| >= RecentCount {
      assert x[|x| - RecentCount..] == h[|h| - RecentCount + 1..] + [row];
    }
  }

  /** Right after an append, the newest row shown is the appended one. */
  lemma RecentLast(h: seq<HistoryRow>, row: HistoryRow)
    ensures var r := Recent(h + [row]); |r| > 0 && r[|r| - 1] == row
  {
    RecentAppend(h, row);
  }
}
