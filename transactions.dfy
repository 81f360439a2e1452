/**
 * The transaction table before aggregation: the rows as read from the file, the
 * coercion of the ls_date and NILAI (USD) columns, the removal of incomplete rows
 * (rfm.py only) and the split of the table into two halves (prepare_data.py only).
 *
 * Dates are whole day numbers and values are integers. Parsing a date or a number is
 * done by a library the model does not see, so both parsers are parameters that
 * return None where the library yields NaT or NaN.
 */
module Transactions {
  import opened Wrappers

  /** A line of the transaction file: cells as text; an importer_name cell that read_csv reads as NaN is None. */
  datatype RawRow = RawRow(importer: Option<string>, date: string, value: string, lsNumber: Option<string>)

  /** A transaction after coercion; None marks a NaT date, a NaN value or a missing cell. */
  datatype Row = Row(importer: Option<string>, date: Option<int>, value: Option<int>, lsNumber: Option<string>)

  /** Removes every thousands separator from the text of a value. */
  function StripCommas(s: string): string
  {
    if s == [] then []
    else (if s[0] == ',' then [] else [s[0]]) + StripCommas(s[1..])
  }

  /** No comma is left, and every other character is kept as often as it occurred. */
  lemma {:induction false} StripCommasSpec(s: string)
    ensures ',' !in StripCommas(s)
    ensures forall c :: c != ',' ==> multiset(StripCommas(s))[c] == multiset(s)[c]
    ensures |StripCommas(s)| == |s| - multiset(s)[',']
    decreases |s|
  {
    if s != [] {
      assert s == [s[0]] + s[1..];
      StripCommasSpec(s[1..]);
    }
  }

  /** Removal works piece by piece, so the other characters keep their order. */
  lemma {:induction false} StripCommasAppend(a: string, b: string)
    ensures StripCommas(a + b) == StripCommas(a) + StripCommas(b)
    decreases |a|
  {
    if a != [] {
      assert (a + b)[1..] == a[1..] + b;
      StripCommasAppend(a[1..], b);
    } else {
      assert a + b == b;
    }
  }

  /** Text without commas is left as it is, so a column that was already numeric is not changed. */
  lemma {:induction false} StripCommasNoComma(s: string)
    requires ',' !in s
    ensures StripCommas(s) == s
    decreases |s|
  {
    if s != [] {
      assert s == [s[0]] + s[1..];
      StripCommasNoComma(s[1..]);
    }
  }

  /** The coercion of one line: date and value parsed, commas stripped from the value first. */
  function Coerce(raw: RawRow, parseDate: string -> Option<int>, parseNumber: string -> Option<int>): Row
  {
    Row(raw.importer, parseDate(raw.date), parseNumber(StripCommas(raw.value)), raw.lsNumber)
  }

  /** A row that has a date, a value and an importer. */
  predicate Complete(row: Row)
  {
    row.importer.Some? && row.date.Some? && row.value.Some?
  }

  /** The rows that have a date, a value and an importer, in their original order. */
  function CompleteRows(rows: seq<Row>): (kept: seq<Row>)
    ensures forall row :: row in kept <==> row in rows && Complete(row)
    ensures |kept| <= |rows|
  {
    if rows == [] then []
    else
      var last := rows[|rows| - 1];
      assert rows == rows[..|rows| - 1] + [last];
      CompleteRows(rows[..|rows| - 1]) + (if Complete(last) then [last] else [])
  }

  /** Dropping incomplete rows works piece by piece, so the kept rows keep their order. */
  lemma {:induction false} CompleteRowsAppend(a: seq<Row>, b: seq<Row>)
    ensures CompleteRows(a + b) == CompleteRows(a) + CompleteRows(b)
    decreases |b|
  {
    if b == [] {
      assert a + b == a;
    } else {
      var b' := b[..|b| - 1];
      assert (a + b)[..|a + b| - 1] == a + b';
      CompleteRowsAppend(a, b');
    }
  }

  /** Dropping changes nothing when every row is complete. */
  lemma {:induction false} CompleteRowsAllComplete(rows: seq<Row>)
    requires forall row :: row in rows ==> Complete(row)
    ensures CompleteRows(rows) == rows
    decreases |rows|
  {
    if rows != [] {
      var init := rows[..|rows| - 1];
      assert forall row :: row in init ==> row in rows;
      CompleteRowsAllComplete(init);
      assert rows == init + [rows[|rows| - 1]];
    }
  }

  /** The transaction DataFrame that the scripts load and then change in place. */
  class TransactionFrame {
    var rows: seq<Row>

    /** Loads the file and coerces ls_date and NILAI (USD), unparsable cells becoming NaT / NaN. */
    constructor Read(raw: seq<RawRow>, parseDate: string -> Option<int>, parseNumber: string -> Option<int>)
      ensures |rows| == |raw|
      ensures forall i :: 0 <= i < |raw| ==> rows[i] == Coerce(raw[i], parseDate, parseNumber)
    {
      var coerced: seq<Row> := [];
      for i := 0 to |raw|
        invariant |coerced| == i
        invariant forall k :: 0 <= k < i ==> coerced[k] == Coerce(raw[k], parseDate, parseNumber)
      {
        coerced := coerced + [Coerce(raw[i], parseDate, parseNumber)];
      }
      rows := coerced;
    }

    /** Drops, in place, every row lacking a date, a value or an importer. */
    method DropIncomplete()
      modifies this
      ensures rows == CompleteRows(old(rows))
    {
      var kept: seq<Row> := [];
      for i := 0 to |rows|
        invariant kept == CompleteRows(rows[..i])
      {
        assert rows[..i + 1][..i] == rows[..i];
        if Complete(rows[i]) {
          kept := kept + [rows[i]];
        }
      }
      assert rows[..|rows|] == rows;
      rows := kept;
    }
  }

  /** The two halves the transaction table is saved in; concatenated they give the table back. */
  function Halves<T>(s: seq<T>): (parts: (seq<T>, seq<T>))
    ensures parts.0 + parts.1 == s
    ensures |parts.0| == |s| / 2
    ensures |parts.1| - |parts.0| in {0, 1}
  {
    (s[..|s| / 2], s[|s| / 2..])
  }
}
