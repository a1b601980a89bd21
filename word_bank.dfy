/** One category's vocabulary table: the rows kept in memory while a quiz runs,
    the columns stored in the category's CSV file, and the two in-place updates
    of the `mistakes` column. */
module WordBank {
  import opened Wrappers

  /** One row of the table (`english`, `japanese`, `mistakes`). */
  datatype Entry = Entry(english: string, japanese: string, mistakes: int)

  /** A category file as read from disk: its `english` and `japanese` columns,
      and its `mistakes` column when the file has one. */
  datatype Sheet = Sheet(english: seq<string>, japanese: seq<string>, mistakes: Option<seq<int>>)

  /** Every column of a sheet has one cell per row. */
  predicate WellFormed(s: Sheet)
  {
    |s.japanese| == |s.english| &&
    (s.mistakes.Some? ==> |s.mistakes.value| == |s.english|)
  }

  /** Reading a category file into rows; a missing `mistakes` column reads as 0
      on every row. */
  function Load(s: Sheet): (t: seq<Entry>)
    requires WellFormed(s)
    ensures |t| == |s.english|
    ensures forall i :: 0 <= i < |t| ==>
      t[i].english == s.english[i] && t[i].japanese == s.japanese[i] &&
      t[i].mistakes == (if s.mistakes.Some? then s.mistakes.value[i] else 0)
  {
    seq(|s.english|, i requires 0 <= i < |s.english| =>
      Entry(s.english[i], s.japanese[i], if s.mistakes.Some? then s.mistakes.value[i] else 0))
  }

  /** Writing rows back to their category file; the `mistakes` column is always
      written. */
  function Store(t: seq<Entry>): (s: Sheet)
    ensures WellFormed(s) && s.mistakes.Some?
  {
    Sheet(seq(|t|, i requires 0 <= i < |t| => t[i].english),
          seq(|t|, i requires 0 <= i < |t| => t[i].japanese),
          Some(seq(|t|, i requires 0 <= i < |t| => t[i].mistakes)))
  }

  /** Loading a file without a `mistakes` column keeps the words, in order, and
      gives every row a count of 0. */
  lemma LoadWithoutMistakes(s: Sheet)
    requires WellFormed(s) && s.mistakes.None?
    ensures |Load(s)| == |s.english|
    ensures forall i :: 0 <= i < |s.english| ==>
      Load(s)[i] == Entry(s.english[i], s.japanese[i], 0)
  {
  }

  /** Writing rows and reading them back gives the same rows. */
  lemma LoadStore(t: seq<Entry>)
    ensures Load(Store(t)) == t
  {
    var u := Load(Store(t));
    assert |u| == |t|;
    forall i | 0 <= i < |t| ensures u[i] == t[i] {
      assert u[i] == Entry(t[i].english, t[i].japanese, t[i].mistakes);
    }
  }

  /** Reading a file that has a `mistakes` column and writing it back gives the
      same file. */
  lemma StoreLoad(s: Sheet)
    requires WellFormed(s) && s.mistakes.Some?
    ensures Store(Load(s)) == s
  {
    var r := Store(Load(s));
    assert r.english == s.english;
    assert r.japanese == s.japanese;
    assert r.mistakes.value == s.mistakes.value;
  }

  /** The count of one row after a miss on `key`. */
  function Bump(e: Entry, key: string): (r: Entry)
  {
    if e.english == key then e.(mistakes := e.mistakes + 1) else e
  }

  /** The table after a miss on `key`: every row whose `english` equals `key`
      gains one mistake, whatever its position; the other rows, the words and
      the length stay as they were. */
  function RecordMistake(t: seq<Entry>, key: string): (r: seq<Entry>)
    ensures |r| == |t|
    ensures forall i :: 0 <= i < |t| ==>
      r[i].english == t[i].english && r[i].japanese == t[i].japanese &&
      r[i].mistakes == (if t[i].english == key then t[i].mistakes + 1 else t[i].mistakes)
  {
    if t == [] then [] else [Bump(t[0], key)] + RecordMistake(t[1..], key)
  }

  /** The table after a reset: every count is 0, the words and the length stay
      as they were. */
  function ResetMistakes(t: seq<Entry>): (r: seq<Entry>)
    ensures |r| == |t|
    ensures forall i :: 0 <= i < |t| ==>
      r[i].english == t[i].english && r[i].japanese == t[i].japanese && r[i].mistakes == 0
  {
    if t == [] then [] else [t[0].(mistakes := 0)] + ResetMistakes(t[1..])
  }

  /** The number of rows whose `english` equals `key`. */
  function Occurrences(t: seq<Entry>, key: string): (n: nat)
    ensures n <= |t|
  {
    if t == [] then 0 else (if t[0].english == key then 1 else 0) + Occurrences(t[1..], key)
  }

  /** The sum of the `mistakes` column. */
  function TotalMistakes(t: seq<Entry>): (n: int)
  {
    if t == [] then 0 else t[0].mistakes + TotalMistakes(t[1..])
  }

  /** A miss on `key` adds to the table's total one mistake per row that carries
      `key`: none for an unknown word, more than one for a duplicated word. */
  lemma {:induction false} RecordMistakeTotal(t: seq<Entry>, key: string)
    ensures TotalMistakes(RecordMistake(t, key)) == TotalMistakes(t) + Occurrences(t, key)
  {
    if t != [] {
      RecordMistakeTotal(t[1..], key);
      assert RecordMistake(t, key)[1..] == RecordMistake(t[1..], key);
    }
  }

  /** A miss on a word the table does not contain changes nothing. */
  lemma RecordMistakeAbsent(t: seq<Entry>, key: string)
    requires forall i :: 0 <= i < |t| ==> t[i].english != key
    ensures RecordMistake(t, key) == t
  {
    var r := RecordMistake(t, key);
    forall i | 0 <= i < |t| ensures r[i] == t[i] {
    }
  }

  /** Two misses on the same word add two to each of its rows. */
  lemma RecordMistakeTwice(t: seq<Entry>, key: string)
    ensures var r := RecordMistake(RecordMistake(t, key), key);
      |r| == |t| &&
      forall i :: 0 <= i < |t| ==>
        r[i].english == t[i].english && r[i].japanese == t[i].japanese &&
        r[i].mistakes == (if t[i].english == key then t[i].mistakes + 2 else t[i].mistakes)
  {
  }

  /** Misses on two words give the same table in either order. */
  lemma RecordMistakeCommutes(t: seq<Entry>, a: string, b: string)
    ensures RecordMistake(RecordMistake(t, a), b) == RecordMistake(RecordMistake(t, b), a)
  {
    var x, y := RecordMistake(RecordMistake(t, a), b), RecordMistake(RecordMistake(t, b), a);
    forall i | 0 <= i < |t| ensures x[i] == y[i] {
    }
  }

  /** After a reset has been written, reading the file back gives every word
      in its place with a count of 0. */
  lemma ResetThenLoad(s: Sheet)
    requires WellFormed(s)
    ensures var t := Load(Store(ResetMistakes(Load(s))));
      |t| == |s.english| &&
      forall i :: 0 <= i < |t| ==> t[i] == Entry(s.english[i], s.japanese[i], 0)
  {
    LoadStore(ResetMistakes(Load(s)));
  }

  /** Resetting a table that was just reset changes nothing. */
  lemma ResetIdempotent(t: seq<Entry>)
    ensures ResetMistakes(ResetMistakes(t)) == ResetMistakes(t)
  {
    var x, y := ResetMistakes(ResetMistakes(t)), ResetMistakes(t);
    forall i | 0 <= i < |t| ensures x[i] == y[i] {
    }
  }

  /** After a reset the table's total is 0. */
  lemma {:induction false} ResetTotal(t: seq<Entry>)
    ensures TotalMistakes(ResetMistakes(t)) == 0
  {
    if t != [] {
      ResetTotal(t[1..]);
      assert ResetMistakes(t)[1..] == ResetMistakes(t[1..]);
    }
  }
}
