/**
 * Grouping the transactions by importer_name: the snapshot date, and for each
 * importer the latest date, the number of counted rows and the sum of the values,
 * giving the Recency_days, Frequency and Monetary columns.
 *
 * NaT dates and NaN values are skipped the way the library's max, count and sum
 * skip them, and rows without an importer fall out of the grouping; after the
 * cleaning of rfm.py no such row is left, while prepare_data.py keeps them.
 */
module Aggregation {
  import opened Wrappers
  import opened Transactions
  import Names
  import Sequences

  /** The larger of two optional dates, a missing one being skipped. */
  function Later(a: Option<int>, b: Option<int>): Option<int>
  {
    if a.None? then b
    else if b.None? then a
    else if a.value < b.value then b
    else a
  }

  /** A row of the given importer. */
  predicate Of(row: Row, name: string)
  {
    row.importer == Some(name)
  }

  /** The latest date in the table, NaT skipped; None when no row has a date. */
  function MaxDate(rows: seq<Row>): (d: Option<int>)
    ensures d.None? <==> forall row :: row in rows ==> row.date.None?
    ensures d.Some? ==> exists row :: row in rows && row.date == d
    ensures d.Some? ==> forall row :: row in rows && row.date.Some? ==> row.date.value <= d.value
  {
    if rows == [] then None
    else
      var init, last := rows[..|rows| - 1], rows[|rows| - 1];
      assert rows == init + [last];
      Later(MaxDate(init), last.date)
  }

  /** The date recencies are measured from: one day after the latest date in the table. */
  function Snapshot(rows: seq<Row>): (s: Option<int>)
    ensures s.Some? ==> forall row :: row in rows && row.date.Some? ==> row.date.value < s.value
  {
    if MaxDate(rows).Some? then Some(MaxDate(rows).value + 1) else None
  }

  /** The latest date among the importer's rows, NaT skipped; None when none of them has a date. */
  function LatestOf(rows: seq<Row>, name: string): (d: Option<int>)
    ensures d.None? <==> forall row :: row in rows && Of(row, name) ==> row.date.None?
    ensures d.Some? ==> exists row :: row in rows && Of(row, name) && row.date == d
    ensures d.Some? ==> forall row :: row in rows && Of(row, name) && row.date.Some? ==> row.date.value <= d.value
  {
    if rows == [] then None
    else
      var init, last := rows[..|rows| - 1], rows[|rows| - 1];
      assert rows == init + [last];
      if Of(last, name) then Later(LatestOf(init, name), last.date) else LatestOf(init, name)
  }

  /**
   * Whether the row is counted for Frequency: the count is taken on ls_number when the
   * file has that column and on ls_date otherwise, and only non-missing cells count.
   */
  predicate Counted(row: Row, onLsNumber: bool)
  {
    if onLsNumber then row.lsNumber.Some? else row.date.Some?
  }

  /** The number of the importer's rows. */
  function Occurrences(rows: seq<Row>, name: string): nat
  {
    if rows == [] then 0
    else Occurrences(rows[..|rows| - 1], name) + (if Of(rows[|rows| - 1], name) then 1 else 0)
  }

  /** Frequency: the number of the importer's rows whose counted cell is present. */
  function CountOf(rows: seq<Row>, name: string, onLsNumber: bool): nat
  {
    if rows == [] then 0
    else
      var last := rows[|rows| - 1];
      CountOf(rows[..|rows| - 1], name, onLsNumber) + (if Of(last, name) && Counted(last, onLsNumber) then 1 else 0)
  }

  /** Monetary: the sum of the importer's values, NaN skipped. */
  function TotalOf(rows: seq<Row>, name: string): int
  {
    if rows == [] then 0
    else
      var last := rows[|rows| - 1];
      TotalOf(rows[..|rows| - 1], name) + (if Of(last, name) && last.value.Some? then last.value.value else 0)
  }

  /** The importers that appear in the table; the grouping has one group for each. */
  function Importers(rows: seq<Row>): set<string>
  {
    set row | row in rows && row.importer.Some? :: row.importer.value
  }

  /** The importer_name column with its missing cells left out. */
  function ImporterColumn(rows: seq<Row>): (names: seq<string>)
    ensures Sequences.Members(names) == Importers(rows)
  {
    if rows == [] then []
    else
      var init, last := rows[..|rows| - 1], rows[|rows| - 1];
      assert rows == init + [last];
      assert Importers(rows) == Importers(init) + (if last.importer.Some? then {last.importer.value} else {});
      var names := ImporterColumn(init) + (if last.importer.Some? then [last.importer.value] else []);
      assert Sequences.Members(names) == Sequences.Members(ImporterColumn(init)) + (if last.importer.Some? then {last.importer.value} else {});
      names
  }

  /** What grouping keeps for one importer. */
  datatype Group = Group(latest: Option<int>, count: nat, total: int)

  function GroupOf(rows: seq<Row>, name: string, onLsNumber: bool): Group
  {
    Group(LatestOf(rows, name), CountOf(rows, name, onLsNumber), TotalOf(rows, name))
  }

  /** A name that does not occur has an empty group. */
  lemma {:induction false} AbsentGroup(rows: seq<Row>, name: string, onLsNumber: bool)
    requires name !in Importers(rows)
    ensures GroupOf(rows, name, onLsNumber) == Group(None, 0, 0)
    ensures Occurrences(rows, name) == 0
    decreases |rows|
  {
    if rows != [] {
      var init := rows[..|rows| - 1];
      assert rows == init + [rows[|rows| - 1]];
      assert Importers(init) <= Importers(rows);
      AbsentGroup(init, name, onLsNumber);
    }
  }

  /** The importer occurs in the table exactly when it has at least one row. */
  lemma {:induction false} OccurrencesPositive(rows: seq<Row>, name: string)
    ensures Occurrences(rows, name) > 0 <==> name in Importers(rows)
    decreases |rows|
  {
    if rows != [] {
      var init, last := rows[..|rows| - 1], rows[|rows| - 1];
      assert rows == init + [last];
      assert Importers(rows) == Importers(init) + (if last.importer.Some? then {last.importer.value} else {});
      OccurrencesPositive(init, name);
    }
  }

  /** The group change one more row brings: its own importer's group absorbs it, no other group moves. */
  function Absorb(g: Group, row: Row, onLsNumber: bool): Group
  {
    Group(Later(g.latest, row.date),
          g.count + (if Counted(row, onLsNumber) then 1 else 0),
          g.total + (if row.value.Some? then row.value.value else 0))
  }

  lemma GroupOfSnoc(rows: seq<Row>, row: Row, name: string, onLsNumber: bool)
    ensures GroupOf(rows + [row], name, onLsNumber)
              == if Of(row, name) then Absorb(GroupOf(rows, name, onLsNumber), row, onLsNumber)
                 else GroupOf(rows, name, onLsNumber)
  {
    assert (rows + [row])[..|rows|] == rows;
  }

  /**
   * Grouping one row at a time: the groups a loop over the rows builds in a map are
   * the groups of the whole table, one per importer.
   */
  method Aggregate(rows: seq<Row>, onLsNumber: bool) returns (groups: map<string, Group>)
    ensures groups.Keys == Importers(rows)
    ensures forall name :: name in groups ==> groups[name] == GroupOf(rows, name, onLsNumber)
  {
    groups := map[];
    for i := 0 to |rows|
      invariant groups.Keys == Importers(rows[..i])
      invariant forall name :: name in groups ==> groups[name] == GroupOf(rows[..i], name, onLsNumber)
    {
      var row := rows[i];
      assert rows[..i + 1] == rows[..i] + [row];
      assert Importers(rows[..i + 1]) == Importers(rows[..i]) + (if row.importer.Some? then {row.importer.value} else {});
      forall name ensures GroupOf(rows[..i + 1], name, onLsNumber)
                            == if Of(row, name) then Absorb(GroupOf(rows[..i], name, onLsNumber), row, onLsNumber)
                               else GroupOf(rows[..i], name, onLsNumber) {
        GroupOfSnoc(rows[..i], row, name, onLsNumber);
      }
      if row.importer.Some? {
        var name := row.importer.value;
        if name !in groups {
          AbsentGroup(rows[..i], name, onLsNumber);
        }
        var g := if name in groups then groups[name] else Group(None, 0, 0);
        groups := groups[name := Absorb(g, row, onLsNumber)];
      }
    }
    assert rows[..|rows|] == rows;
  }

  /** Groups over two parts of a table combine into the groups of the whole table: latest dates, counts and sums. */
  lemma {:induction false} LatestOfAppend(a: seq<Row>, b: seq<Row>, name: string)
    ensures LatestOf(a + b, name) == Later(LatestOf(a, name), LatestOf(b, name))
    decreases |b|
  {
    if b == [] {
      assert a + b == a;
    } else {
      var b' := b[..|b| - 1];
      assert (a + b)[..|a + b| - 1] == a + b';
      assert (a + b)[|a + b| - 1] == b[|b| - 1];
      var last := b[|b| - 1];
      LatestOfAppend(a, b', name);
      assert LatestOf(b, name) == if Of(last, name) then Later(LatestOf(b', name), last.date) else LatestOf(b', name);
    }
  }

  lemma {:induction false} CountOfAppend(a: seq<Row>, b: seq<Row>, name: string, onLsNumber: bool)
    ensures CountOf(a + b, name, onLsNumber) == CountOf(a, name, onLsNumber) + CountOf(b, name, onLsNumber)
    decreases |b|
  {
    if b == [] {
      assert a + b == a;
    } else {
      var b' := b[..|b| - 1];
      assert (a + b)[..|a + b| - 1] == a + b';
      assert (a + b)[|a + b| - 1] == b[|b| - 1];
      CountOfAppend(a, b', name, onLsNumber);
    }
  }

  lemma {:induction false} TotalOfAppend(a: seq<Row>, b: seq<Row>, name: string)
    ensures TotalOf(a + b, name) == TotalOf(a, name) + TotalOf(b, name)
    decreases |b|
  {
    if b == [] {
      assert a + b == a;
    } else {
      var b' := b[..|b| - 1];
      assert (a + b)[..|a + b| - 1] == a + b';
      assert (a + b)[|a + b| - 1] == b[|b| - 1];
      TotalOfAppend(a, b', name);
    }
  }

  /**
   * Frequency never exceeds the importer's number of rows, and equals it when every
   * one of those rows has its counted cell.
   */
  lemma {:induction false} CountBounds(rows: seq<Row>, name: string, onLsNumber: bool)
    ensures CountOf(rows, name, onLsNumber) <= Occurrences(rows, name)
    ensures (forall row :: row in rows && Of(row, name) ==> Counted(row, onLsNumber))
              ==> CountOf(rows, name, onLsNumber) == Occurrences(rows, name)
    decreases |rows|
  {
    if rows != [] {
      var init := rows[..|rows| - 1];
      assert rows == init + [rows[|rows| - 1]];
      CountBounds(init, name, onLsNumber);
    }
  }

  /** One output row of the grouping. */
  datatype Customer = Customer(name: string, recency: Option<int>, frequency: nat, monetary: int)

  /** Recency_days is the snapshot minus the latest date; it is NaN when there is no date. */
  function CustomerOf(name: string, g: Group, snapshot: int): Customer
  {
    Customer(name, if g.latest.Some? then Some(snapshot - g.latest.value) else None, g.count, g.total)
  }

  /** The grouped table: one row per importer, in ascending order of the names. */
  function Customers(rows: seq<Row>, onLsNumber: bool, snapshot: int): seq<Customer>
  {
    var names := Names.GroupKeys(ImporterColumn(rows));
    seq(|names|, i requires 0 <= i < |names| => CustomerOf(names[i], GroupOf(rows, names[i], onLsNumber), snapshot))
  }

  /** The group keys are the importers, each once, in ascending order. */
  lemma ImporterKeys(rows: seq<Row>)
    ensures var names := Names.GroupKeys(ImporterColumn(rows));
      && Names.Ascending(names)
      && Sequences.Members(names) == Importers(rows)
      && |names| == |Importers(rows)|
  {
    var names := Names.GroupKeys(ImporterColumn(rows));
    Names.AscendingDistinct(names);
    Sequences.DistinctCardinality(names);
  }

  /** Row i of the grouped table is named by the i-th group key. */
  lemma CustomerNames(rows: seq<Row>, onLsNumber: bool, snapshot: int)
    ensures var names := Names.GroupKeys(ImporterColumn(rows));
      var table := Customers(rows, onLsNumber, snapshot);
      |table| == |names| && forall i :: 0 <= i < |table| ==> table[i].name == names[i]
  {
  }

  /** The grouped table lists every importer of the transactions exactly once, in ascending order. */
  lemma OneRowPerImporter(rows: seq<Row>, onLsNumber: bool, snapshot: int)
    ensures var table := Customers(rows, onLsNumber, snapshot);
      && (forall i, j :: 0 <= i < j < |table| ==> Names.Below(table[i].name, table[j].name))
      && (forall name :: name in Importers(rows) <==> exists i :: 0 <= i < |table| && table[i].name == name)
      && |table| == |Importers(rows)|
  {
    var names := Names.GroupKeys(ImporterColumn(rows));
    var table := Customers(rows, onLsNumber, snapshot);
    CustomerNames(rows, onLsNumber, snapshot);
    ImporterKeys(rows);
    forall name | name in Importers(rows)
      ensures exists i :: 0 <= i < |table| && table[i].name == name
    {
      assert name in Sequences.Members(names);
      var i :| 0 <= i < |names| && names[i] == name;
      assert table[i].name == name;
    }
    forall i | 0 <= i < |table| ensures table[i].name in Importers(rows) {
      assert names[i] in Sequences.Members(names);
    }
  }

  /**
   * Every row of the grouped table reports the importer's own latest date, count and
   * sum, and a Recency of at least one day: exactly one day for an importer whose
   * latest date is the latest date of the whole table.
   */
  lemma CustomerMetrics(rows: seq<Row>, onLsNumber: bool, i: int)
    requires MaxDate(rows).Some?
    requires 0 <= i < |Customers(rows, onLsNumber, Snapshot(rows).value)|
    ensures var c := Customers(rows, onLsNumber, Snapshot(rows).value)[i];
      && c.name in Importers(rows)
      && c.frequency == CountOf(rows, c.name, onLsNumber)
      && c.monetary == TotalOf(rows, c.name)
      && (c.recency.None? <==> LatestOf(rows, c.name).None?)
      && (c.recency.Some? ==> c.recency.value >= 1)
      && (c.recency.Some? ==> (c.recency.value == 1 <==> LatestOf(rows, c.name) == MaxDate(rows)))
  {
    var names := Names.GroupKeys(ImporterColumn(rows));
    assert names[i] in Sequences.Members(names);
  }

  /**
   * When no row has a date there is no snapshot, and then the snapshot does not matter:
   * no importer has a latest date, so every choice yields the same grouped table.
   */
  lemma SnapshotUnused(rows: seq<Row>, onLsNumber: bool, s1: int, s2: int)
    requires Snapshot(rows).None?
    ensures Customers(rows, onLsNumber, s1) == Customers(rows, onLsNumber, s2)
  {
    var t1, t2 := Customers(rows, onLsNumber, s1), Customers(rows, onLsNumber, s2);
    forall i | 0 <= i < |t1| ensures t1[i] == t2[i] {
      assert LatestOf(rows, t1[i].name).None?;
    }
  }

  /**
   * After rows lacking a date, a value or an importer are dropped, every importer has
   * a Recency, and a Frequency counted on ls_date is its number of rows, at least one.
   */
  lemma CompleteCustomer(rows: seq<Row>, name: string)
    requires forall row :: row in rows ==> Complete(row)
    requires name in Importers(rows)
    ensures LatestOf(rows, name).Some?
    ensures CountOf(rows, name, false) == Occurrences(rows, name) >= 1
  {
    var row :| row in rows && row.importer == Some(name);
    CountBounds(rows, name, false);
    OccurrencesPositive(rows, name);
  }

  /**
   * In the grouped table of complete transactions every importer has a Recency of at
   * least one day and, counted on ls_date, a Frequency of at least one.
   */
  lemma CompleteTableRow(rows: seq<Row>, onLsNumber: bool, i: int)
    requires forall row :: row in rows ==> Complete(row)
    requires MaxDate(rows).Some?
    requires 0 <= i < |Customers(rows, onLsNumber, Snapshot(rows).value)|
    ensures var c := Customers(rows, onLsNumber, Snapshot(rows).value)[i];
      && c.recency.Some? && c.recency.value >= 1
      && (!onLsNumber ==> c.frequency >= 1)
  {
    var c := Customers(rows, onLsNumber, Snapshot(rows).value)[i];
    CustomerMetrics(rows, onLsNumber, i);
    CompleteCustomer(rows, c.name);
  }
}
