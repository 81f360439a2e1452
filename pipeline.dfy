/**
 * The two scripts end to end. rfm.py loads the transactions, coerces them, drops
 * incomplete rows, groups them by importer, scores Recency, Frequency and Monetary
 * into quartiles and names a segment for every importer. prepare_data.py does the
 * same without dropping rows, with its own copy of the classifier, and also splits
 * the transaction table into two halves.
 *
 * A library error ends rfm.py with a message and no output, and ends prepare_data.py
 * with an exception; both are modelled as a Failed outcome that says which step failed.
 */
module Pipeline {
  import opened Wrappers
  import opened Segments
  import opened Transactions
  import opened Aggregation
  import opened Quantiles
  import Names
  import Sequences

  /** The column whose quartile cut failed. */
  datatype Column = RecencyColumn | FrequencyColumn | MonetaryColumn

  /** Why a script stops: the snapshot date is NaT, or a quartile cut raised. */
  datatype Failure = NoDate | CutFailed(column: Column)

  datatype Outcome<T> = Failed(failure: Failure) | Done(value: T)

  /** The three score columns of the grouped table. */
  datatype Scores = Scores(r: seq<Score>, f: seq<Score>, m: seq<Score>)

  /** One row of the RFM output: the importer's metrics, its three scores and its segment. */
  datatype ScoredCustomer = ScoredCustomer(customer: Customer, r: Score, f: Score, m: Score, segment: Segment)

  /** What rfm.py writes: the scored table, every row carrying the snapshot date. */
  datatype RfmOutput = RfmOutput(table: seq<ScoredCustomer>, snapshot: int)

  /** What prepare_data.py writes: the scored table and the two halves of the transactions. */
  datatype PrepareOutput = PrepareOutput(table: seq<ScoredCustomer>, part1: seq<Row>, part2: seq<Row>)

  /** Recency is labelled from 4 (most recent quarter) down to 1. */
  const RecencyLabels: seq<Quartile> := [4, 3, 2, 1]

  /** The ranks of Frequency and Monetary are labelled from 1 (lowest quarter) up to 4. */
  const RankLabels: seq<Quartile> := [1, 2, 3, 4]

  /** Every line of the file, coerced. */
  function CoerceAll(raw: seq<RawRow>, parseDate: string -> Option<int>, parseNumber: string -> Option<int>): (rows: seq<Row>)
    ensures |rows| == |raw|
  {
    seq(|raw|, i requires 0 <= i < |raw| => Coerce(raw[i], parseDate, parseNumber))
  }

  function Recencies(table: seq<Customer>): (col: seq<Option<int>>)
    ensures |col| == |table|
    ensures forall i :: 0 <= i < |table| ==> col[i] == table[i].recency
  {
    seq(|table|, i requires 0 <= i < |table| => table[i].recency)
  }

  function Frequencies(table: seq<Customer>): (col: seq<int>)
    ensures |col| == |table|
  {
    seq(|table|, i requires 0 <= i < |table| => table[i].frequency as int)
  }

  function Monetaries(table: seq<Customer>): (col: seq<int>)
    ensures |col| == |table|
  {
    seq(|table|, i requires 0 <= i < |table| => table[i].monetary)
  }

  /**
   * The three quartile cuts, in the order the scripts make them: Recency_days itself,
   * then the first-come ranks of Frequency and of Monetary.
   */
  function ScoreColumns(table: seq<Customer>): (s: Outcome<Scores>)
    ensures s.Done? ==> |s.value.r| == |table| && |s.value.f| == |table| && |s.value.m| == |table|
  {
    var r := QCut(Recencies(table), RecencyLabels);
    if r.None? then Failed(CutFailed(RecencyColumn))
    else
      var fRanks := AllPresent(FirstRanks(Frequencies(table)));
      var f := QCut(fRanks, RankLabels);
      if f.None? then Failed(CutFailed(FrequencyColumn))
      else
        var mRanks := AllPresent(FirstRanks(Monetaries(table)));
        var m := QCut(mRanks, RankLabels);
        if m.None? then Failed(CutFailed(MonetaryColumn))
        else Done(Scores(r.value, f.value, m.value))
  }

  /** A missing Recency gives a NaN R_Score and nothing else does; F_Score and M_Score are never NaN. */
  lemma ScoreCells(table: seq<Customer>, i: int)
    requires ScoreColumns(table).Done? && 0 <= i < |table|
    ensures var s := ScoreColumns(table).value;
      && (s.r[i].NaN? <==> table[i].recency.None?)
      && s.f[i].Label? && s.m[i].Label?
  {
    var fRanks := AllPresent(FirstRanks(Frequencies(table)));
    var mRanks := AllPresent(FirstRanks(Monetaries(table)));
    assert Recencies(table)[i] == table[i].recency;
    assert fRanks[i].Some? && mRanks[i].Some?;
  }

  /** The segment rule of prepare_data.py, over the texts of the score cells. */
  function PrepareSegment(r: Score, f: Score, m: Score): Segment
  {
    ClassifyText(Text(r), Text(f), Text(m))
  }

  /** The scored table: each importer's row with its scores and the segment the rule gives them. */
  function Apply(table: seq<Customer>, s: Scores, segmentOf: (Score, Score, Score) -> Segment): (out: seq<ScoredCustomer>)
    requires |s.r| == |table| && |s.f| == |table| && |s.m| == |table|
    ensures |out| == |table|
    ensures forall i :: 0 <= i < |table| ==> out[i].customer == table[i]
  {
    seq(|table|, i requires 0 <= i < |table| =>
      ScoredCustomer(table[i], s.r[i], s.f[i], s.m[i], segmentOf(s.r[i], s.f[i], s.m[i])))
  }

  /** Row i of the scored table: the importer's row, its three score cells and the segment of those cells. */
  lemma ApplyRow(table: seq<Customer>, s: Scores, segmentOf: (Score, Score, Score) -> Segment, i: int)
    requires |s.r| == |table| && |s.f| == |table| && |s.m| == |table|
    requires 0 <= i < |table|
    ensures Apply(table, s, segmentOf)[i] == ScoredCustomer(table[i], s.r[i], s.f[i], s.m[i], segmentOf(s.r[i], s.f[i], s.m[i]))
  {
  }

  /** Grouping, scoring and segmenting, as both scripts do it once the rows are coerced. */
  function ScoredTable(rows: seq<Row>, onLsNumber: bool, snapshot: int,
                       segmentOf: (Score, Score, Score) -> Segment): Outcome<seq<ScoredCustomer>>
  {
    var table := Customers(rows, onLsNumber, snapshot);
    var scoring := ScoreColumns(table);
    if scoring.Failed? then Failed(scoring.failure)
    else Done(Apply(table, scoring.value, segmentOf))
  }

  /** rfm.py once the snapshot date is known: the scored table, each row stamped with that date. */
  function RfmAt(rows: seq<Row>, onLsNumber: bool, snapshot: int): Outcome<RfmOutput>
  {
    var scored := ScoredTable(rows, onLsNumber, snapshot, Classify);
    if scored.Failed? then Failed(scored.failure)
    else Done(RfmOutput(scored.value, snapshot))
  }

  /**
   * rfm.py from the cleaned transactions to the table it saves; without any row left
   * the snapshot date is NaT, and formatting it for the output file name raises.
   */
  function RfmFromRows(rows: seq<Row>, onLsNumber: bool): Outcome<RfmOutput>
  {
    if Snapshot(rows).None? then Failed(NoDate) else RfmAt(rows, onLsNumber, Snapshot(rows).value)
  }

  /** rfm.py from the lines of the file to the table it saves. */
  function RfmScript(raw: seq<RawRow>, parseDate: string -> Option<int>, parseNumber: string -> Option<int>,
                     onLsNumber: bool): Outcome<RfmOutput>
  {
    RfmFromRows(CompleteRows(CoerceAll(raw, parseDate, parseNumber)), onLsNumber)
  }

  /**
   * The snapshot of prepare_data.py. Without any date it is NaT and so is every
   * Recency_days; no importer then has a latest date, so the number used here is never
   * looked at.
   */
  function PrepareSnapshot(rows: seq<Row>): int
  {
    if Snapshot(rows).Some? then Snapshot(rows).value else 0
  }

  /** prepare_data.py from the lines of the file to the table and the two halves it saves. */
  function PrepareScript(raw: seq<RawRow>, parseDate: string -> Option<int>, parseNumber: string -> Option<int>,
                         onLsNumber: bool): Outcome<PrepareOutput>
  {
    var rows := CoerceAll(raw, parseDate, parseNumber);
    var scored := ScoredTable(rows, onLsNumber, PrepareSnapshot(rows), PrepareSegment);
    if scored.Failed? then Failed(scored.failure)
    else
      var halves := Halves(rows);
      Done(PrepareOutput(scored.value, halves.0, halves.1))
  }

  /**
   * groupby('importer_name').agg(...).reset_index(): the groups of the transactions,
   * read off in ascending order of the names.
   */
  method GroupTable(rows: seq<Row>, onLsNumber: bool, snapshot: int) returns (table: seq<Customer>)
    ensures table == Customers(rows, onLsNumber, snapshot)
  {
    var groups := Aggregate(rows, onLsNumber);
    var names := Names.GroupKeys(ImporterColumn(rows));
    assert Sequences.Members(names) == groups.Keys;
    ghost var target := Customers(rows, onLsNumber, snapshot);
    table := [];
    for i := 0 to |names|
      invariant table == target[..i]
    {
      var name := names[i];
      assert name in Sequences.Members(names);
      assert target[i] == CustomerOf(name, groups[name], snapshot);
      table := table + [CustomerOf(name, groups[name], snapshot)];
    }
    assert target[..|names|] == target;
  }

  /** apply(rfm_segment_detail, axis=1): the segment of every row, one row at a time. */
  method ApplySegments(table: seq<Customer>, s: Scores, segmentOf: (Score, Score, Score) -> Segment)
    returns (out: seq<ScoredCustomer>)
    requires |s.r| == |table| && |s.f| == |table| && |s.m| == |table|
    ensures out == Apply(table, s, segmentOf)
  {
    out := [];
    for i := 0 to |table|
      invariant |out| == i
      invariant forall k :: 0 <= k < i ==> out[k] == Apply(table, s, segmentOf)[k]
    {
      out := out + [ScoredCustomer(table[i], s.r[i], s.f[i], s.m[i], segmentOf(s.r[i], s.f[i], s.m[i]))];
    }
  }

  /** Groups the rows, cuts the three score columns and segments every importer. */
  method ScoreRows(rows: seq<Row>, onLsNumber: bool, snapshot: int, segmentOf: (Score, Score, Score) -> Segment)
    returns (outcome: Outcome<seq<ScoredCustomer>>)
    ensures outcome == ScoredTable(rows, onLsNumber, snapshot, segmentOf)
  {
    var table := GroupTable(rows, onLsNumber, snapshot);
    var scoring := ScoreColumns(table);
    if scoring.Failed? {
      return Failed(scoring.failure);
    }
    var scored := ApplySegments(table, scoring.value, segmentOf);
    outcome := Done(scored);
  }

  /** The part of rfm.py after the snapshot date: grouping, scoring and segmenting. */
  method RfmScoreAt(rows: seq<Row>, onLsNumber: bool, snapshot: int) returns (outcome: Outcome<RfmOutput>)
    ensures outcome == RfmAt(rows, onLsNumber, snapshot)
  {
    var scored := ScoreRows(rows, onLsNumber, snapshot, Classify);
    if scored.Failed? {
      return Failed(scored.failure);
    }
    outcome := Done(RfmOutput(scored.value, snapshot));
  }

  /** The part of rfm.py after cleaning: the snapshot date, then the scored table. */
  method RfmOf(rows: seq<Row>, onLsNumber: bool) returns (outcome: Outcome<RfmOutput>)
    ensures outcome == RfmFromRows(rows, onLsNumber)
  {
    var snapshot := Snapshot(rows);
    if snapshot.None? {
      return Failed(NoDate);
    }
    outcome := RfmScoreAt(rows, onLsNumber, snapshot.value);
  }

  /** rfm.py: the transaction frame is loaded, cleaned in place, grouped, scored and segmented. */
  method RunRfm(raw: seq<RawRow>, parseDate: string -> Option<int>, parseNumber: string -> Option<int>,
                onLsNumber: bool) returns (outcome: Outcome<RfmOutput>)
    ensures outcome == RfmScript(raw, parseDate, parseNumber, onLsNumber)
  {
    var df := new TransactionFrame.Read(raw, parseDate, parseNumber);
    assert df.rows == CoerceAll(raw, parseDate, parseNumber);
    df.DropIncomplete();
    outcome := RfmOf(df.rows, onLsNumber);
  }

  /** prepare_data.py: the frame is loaded, grouped, scored and segmented, then split in two. */
  method RunPrepare(raw: seq<RawRow>, parseDate: string -> Option<int>, parseNumber: string -> Option<int>,
                    onLsNumber: bool) returns (outcome: Outcome<PrepareOutput>)
    ensures outcome == PrepareScript(raw, parseDate, parseNumber, onLsNumber)
  {
    var df := new TransactionFrame.Read(raw, parseDate, parseNumber);
    assert df.rows == CoerceAll(raw, parseDate, parseNumber);
    var rows := df.rows;
    var scored := ScoreRows(rows, onLsNumber, PrepareSnapshot(rows), PrepareSegment);
    if scored.Failed? {
      return Failed(scored.failure);
    }
    var (first, second) := Halves(rows);
    outcome := Done(PrepareOutput(scored.value, first, second));
  }

  /** The quartile cut of the ranks fails only for fewer than two rows, so only the Recency cut can fail. */
  lemma OnlyRecencyCutFails(table: seq<Customer>)
    ensures ScoreColumns(table).Failed? <==> QCut(Recencies(table), RecencyLabels).None?
    ensures ScoreColumns(table).Failed? ==> ScoreColumns(table).failure == CutFailed(RecencyColumn)
  {
    var recencies := Recencies(table);
    if QCut(recencies, RecencyLabels).Some? {
      QCutNeedsTwo(recencies, RecencyLabels);
      assert |table| >= 2;
      RankCutSucceeds(Frequencies(table), RankLabels);
      RankCutSucceeds(Monetaries(table), RankLabels);
    }
  }

  /** A more recent importer (fewer Recency_days) never gets a lower R_Score. */
  lemma RecencyScoreOrder(table: seq<Customer>, i: int, j: int)
    requires ScoreColumns(table).Done?
    requires 0 <= i < |table| && 0 <= j < |table|
    requires table[i].recency.Some? && table[j].recency.Some?
    requires table[i].recency.value <= table[j].recency.value
    ensures ScoreColumns(table).value.r[i].Label? && ScoreColumns(table).value.r[j].Label?
    ensures ScoreColumns(table).value.r[j].q <= ScoreColumns(table).value.r[i].q
  {
    var recencies := Recencies(table);
    assert recencies[i] == table[i].recency && recencies[j] == table[j].recency;
    QCutMonotone(recencies, RecencyLabels, i, j);
  }

  /**
   * F_Score and M_Score follow the order of Frequency and Monetary: a larger value never
   * gets a lower score, and of two equal values the one whose importer comes first in
   * the table never gets the higher score.
   */
  lemma RankScoreOrder(table: seq<Customer>, i: int, j: int)
    requires ScoreColumns(table).Done?
    requires 0 <= i < |table| && 0 <= j < |table| && i != j
    ensures var s := ScoreColumns(table).value;
      && s.f[i].Label? && s.f[j].Label? && s.m[i].Label? && s.m[j].Label?
      && (table[i].frequency < table[j].frequency ==> s.f[i].q <= s.f[j].q)
      && (table[i].frequency == table[j].frequency && i < j ==> s.f[i].q <= s.f[j].q)
      && (table[i].monetary < table[j].monetary ==> s.m[i].q <= s.m[j].q)
      && (table[i].monetary == table[j].monetary && i < j ==> s.m[i].q <= s.m[j].q)
  {
    var freq, money := Frequencies(table), Monetaries(table);
    assert freq[i] == table[i].frequency && freq[j] == table[j].frequency;
    assert money[i] == table[i].monetary && money[j] == table[j].monetary;
    RankColumnOrder(freq, i, j);
    RankColumnOrder(money, i, j);
  }

  /** On one ranked column: a larger value, or an equal value further down, never gets a smaller label. */
  lemma RankColumnOrder(vals: seq<int>, i: int, j: int)
    requires QCut(AllPresent(FirstRanks(vals)), RankLabels).Some?
    requires 0 <= i < |vals| && 0 <= j < |vals| && i != j
    ensures var c := QCut(AllPresent(FirstRanks(vals)), RankLabels).value;
      && c[i].Label? && c[j].Label?
      && (vals[i] < vals[j] ==> c[i].q <= c[j].q)
      && (vals[i] == vals[j] && i < j ==> c[i].q <= c[j].q)
  {
    var ranks := FirstRanks(vals);
    var xs := AllPresent(ranks);
    FirstRankOrder(vals, i, j);
    if vals[i] < vals[j] || (vals[i] == vals[j] && i < j) {
      QCutMonotone(xs, RankLabels, i, j);
    }
  }

  /** The label 1..4 of the q-th rank quarter is q itself. */
  lemma RankLabelAt(q: Quartile)
    ensures RankLabels[q - 1] == q
  {
  }

  /** The cut of a column of ranks labels each rank with its quartile. */
  lemma RankColumnQuartile(vals: seq<int>, i: int)
    requires QCut(AllPresent(FirstRanks(vals)), RankLabels).Some?
    requires 0 <= i < |vals|
    ensures QCut(AllPresent(FirstRanks(vals)), RankLabels).value[i] == Label(RankQuartile(FirstRanks(vals)[i], |vals|))
  {
    var k := FirstRanks(vals)[i];
    var q := RankQuartile(k, |vals|);
    RankCutLabel(vals, RankLabels, i);
    RankLabelAt(q);
  }

  /**
   * F_Score and M_Score are the quartiles of the ranks: with n importers, a score of at
   * most b goes exactly to ranks 1 .. 1 + b(n - 1)/4.
   */
  lemma RankScoreQuartile(table: seq<Customer>, i: int, b: int)
    requires ScoreColumns(table).Done?
    requires 0 <= i < |table| && 1 <= b <= 4
    ensures var s, n := ScoreColumns(table).value, |table|;
      var fRank, mRank := FirstRanks(Frequencies(table))[i], FirstRanks(Monetaries(table))[i];
      && s.f[i] == Label(RankQuartile(fRank, n))
      && s.m[i] == Label(RankQuartile(mRank, n))
      && (s.f[i].q <= b <==> fRank <= 1 + Position(b, n) / 4)
      && (s.m[i].q <= b <==> mRank <= 1 + Position(b, n) / 4)
  {
    var freq, money := Frequencies(table), Monetaries(table);
    var s := ScoreColumns(table).value;
    assert s.f == QCut(AllPresent(FirstRanks(freq)), RankLabels).value;
    assert s.m == QCut(AllPresent(FirstRanks(money)), RankLabels).value;
    RankColumnQuartile(freq, i);
    RankColumnQuartile(money, i);
    RankBounds(freq, i);
    RankBounds(money, i);
    RankQuartileSizes(|table|, b, FirstRanks(freq)[i]);
    RankQuartileSizes(|table|, b, FirstRanks(money)[i]);
  }

  /** Row i of the grouped table belongs to an importer, and its Recency is missing exactly when that importer has no date. */
  lemma TableRow(rows: seq<Row>, onLsNumber: bool, snapshot: int, i: int)
    requires 0 <= i < |Customers(rows, onLsNumber, snapshot)|
    ensures var c := Customers(rows, onLsNumber, snapshot)[i];
      && c.name in Importers(rows)
      && (c.recency.None? <==> LatestOf(rows, c.name).None?)
  {
    var names := Names.GroupKeys(ImporterColumn(rows));
    assert names[i] in Sequences.Members(names);
  }

  /** The two rule copies give the same segments. */
  lemma ApplyCopiesAgree(table: seq<Customer>, s: Scores)
    requires |s.r| == |table| && |s.f| == |table| && |s.m| == |table|
    ensures Apply(table, s, Classify) == Apply(table, s, PrepareSegment)
  {
    forall i | 0 <= i < |table| ensures Apply(table, s, Classify)[i] == Apply(table, s, PrepareSegment)[i] {
      CopiesAgree(s.r[i], s.f[i], s.m[i]);
      assert Classify(s.r[i], s.f[i], s.m[i]) == PrepareSegment(s.r[i], s.f[i], s.m[i]);
    }
  }

  /**
   * rfm.py writes one row per importer of the cleaned transactions, in ascending order of
   * the names.
   */
  lemma RfmTableShape(raw: seq<RawRow>, parseDate: string -> Option<int>, parseNumber: string -> Option<int>,
                      onLsNumber: bool)
    requires RfmScript(raw, parseDate, parseNumber, onLsNumber).Done?
    ensures var rows := CompleteRows(CoerceAll(raw, parseDate, parseNumber));
      var out := RfmScript(raw, parseDate, parseNumber, onLsNumber).value.table;
      && |out| == |Importers(rows)|
      && (forall i, j :: 0 <= i < j < |out| ==> Names.Below(out[i].customer.name, out[j].customer.name))
      && (forall name :: name in Importers(rows) <==> exists i :: 0 <= i < |out| && out[i].customer.name == name)
  {
    var rows := CompleteRows(CoerceAll(raw, parseDate, parseNumber));
    RfmParts(raw, parseDate, parseNumber, onLsNumber);
    var snapshot := Snapshot(rows).value;
    var table := Customers(rows, onLsNumber, snapshot);
    OneRowPerImporter(rows, onLsNumber, snapshot);
    ScoredNames(table, RfmScript(raw, parseDate, parseNumber, onLsNumber).value.table, Importers(rows));
  }

  /** Scoring keeps the rows of the grouped table, so their names, their order and their number. */
  lemma ScoredNames(table: seq<Customer>, out: seq<ScoredCustomer>, importers: set<string>)
    requires |out| == |table| && forall i :: 0 <= i < |table| ==> out[i].customer == table[i]
    requires |table| == |importers|
    requires forall i, j :: 0 <= i < j < |table| ==> Names.Below(table[i].name, table[j].name)
    requires forall name :: name in importers <==> exists i :: 0 <= i < |table| && table[i].name == name
    ensures |out| == |importers|
    ensures forall i, j :: 0 <= i < j < |out| ==> Names.Below(out[i].customer.name, out[j].customer.name)
    ensures forall name :: name in importers <==> exists i :: 0 <= i < |out| && out[i].customer.name == name
  {
    forall name | name in importers
      ensures exists i :: 0 <= i < |out| && out[i].customer.name == name
    {
      var i :| 0 <= i < |table| && table[i].name == name;
      assert out[i].customer.name == name;
    }
  }

  /** The snapshot rfm.py stamps on every row is later than every date it kept. */
  lemma RfmSnapshotAfterAll(raw: seq<RawRow>, parseDate: string -> Option<int>, parseNumber: string -> Option<int>,
                            onLsNumber: bool)
    requires RfmScript(raw, parseDate, parseNumber, onLsNumber).Done?
    ensures var rows := CompleteRows(CoerceAll(raw, parseDate, parseNumber));
      forall row :: row in rows ==> row.date.Some? && row.date.value < RfmScript(raw, parseDate, parseNumber, onLsNumber).value.snapshot
  {
  }

  /** What a successful run of rfm.py is made of: the snapshot, the grouped table and its scores. */
  lemma RfmParts(raw: seq<RawRow>, parseDate: string -> Option<int>, parseNumber: string -> Option<int>,
                 onLsNumber: bool)
    requires RfmScript(raw, parseDate, parseNumber, onLsNumber).Done?
    ensures var rows := CompleteRows(CoerceAll(raw, parseDate, parseNumber));
      && Snapshot(rows).Some?
      && var table := Customers(rows, onLsNumber, Snapshot(rows).value);
      && ScoreColumns(table).Done?
      && RfmScript(raw, parseDate, parseNumber, onLsNumber).value.table == Apply(table, ScoreColumns(table).value, Classify)
  {
  }

  /**
   * A scored row of complete transactions has all three scores, a Recency of at least
   * one day and, counted on ls_date, a Frequency of at least one; so its segment is not
   * "Others".
   */
  lemma CompleteRowScored(rows: seq<Row>, onLsNumber: bool, i: int)
    requires forall row :: row in rows ==> Complete(row)
    requires Snapshot(rows).Some?
    requires ScoreColumns(Customers(rows, onLsNumber, Snapshot(rows).value)).Done?
    requires 0 <= i < |Customers(rows, onLsNumber, Snapshot(rows).value)|
    ensures var table := Customers(rows, onLsNumber, Snapshot(rows).value);
      var c := Apply(table, ScoreColumns(table).value, Classify)[i];
      && c.segment != Others
      && c.r.Label? && c.f.Label? && c.m.Label?
      && c.customer.recency.Some? && c.customer.recency.value >= 1
      && (!onLsNumber ==> c.customer.frequency >= 1)
  {
    var table := Customers(rows, onLsNumber, Snapshot(rows).value);
    var scores := ScoreColumns(table).value;
    CompleteTableRow(rows, onLsNumber, i);
    ScoreCells(table, i);
    ApplyRow(table, scores, Classify, i);
    OthersOnlyWhenUndefined(scores.r[i], scores.f[i], scores.m[i]);
  }

  /**
   * In rfm.py every importer has its three scores, so the fallback "Others" is never
   * written; its Recency is at least one day, and a Frequency counted on ls_date is at
   * least one.
   */
  lemma RfmNeverOthers(raw: seq<RawRow>, parseDate: string -> Option<int>, parseNumber: string -> Option<int>,
                       onLsNumber: bool, i: int)
    requires RfmScript(raw, parseDate, parseNumber, onLsNumber).Done?
    requires 0 <= i < |RfmScript(raw, parseDate, parseNumber, onLsNumber).value.table|
    ensures var c := RfmScript(raw, parseDate, parseNumber, onLsNumber).value.table[i];
      && c.segment != Others
      && c.r.Label? && c.f.Label? && c.m.Label?
      && c.customer.recency.Some? && c.customer.recency.value >= 1
      && (!onLsNumber ==> c.customer.frequency >= 1)
  {
    var rows := CompleteRows(CoerceAll(raw, parseDate, parseNumber));
    RfmParts(raw, parseDate, parseNumber, onLsNumber);
    CompleteRowScored(rows, onLsNumber, i);
  }

  /**
   * In prepare_data.py, which keeps rows whose date did not parse, an importer is put in
   * "Others" exactly when none of its dates parsed.
   */
  lemma PrepareOthersExactly(raw: seq<RawRow>, parseDate: string -> Option<int>, parseNumber: string -> Option<int>,
                             onLsNumber: bool, i: int)
    requires PrepareScript(raw, parseDate, parseNumber, onLsNumber).Done?
    requires 0 <= i < |PrepareScript(raw, parseDate, parseNumber, onLsNumber).value.table|
    ensures var rows := CoerceAll(raw, parseDate, parseNumber);
      var c := PrepareScript(raw, parseDate, parseNumber, onLsNumber).value.table[i];
      && c.customer.name in Importers(rows)
      && (c.segment == Others <==> forall row :: row in rows && Of(row, c.customer.name) ==> row.date.None?)
  {
    var rows := CoerceAll(raw, parseDate, parseNumber);
    var snapshot := PrepareSnapshot(rows);
    var table := Customers(rows, onLsNumber, snapshot);
    var scores := ScoreColumns(table).value;
    var c := PrepareScript(raw, parseDate, parseNumber, onLsNumber).value.table[i];
    assert c == Apply(table, scores, PrepareSegment)[i];
    var r, f, m := scores.r[i], scores.f[i], scores.m[i];
    assert c.customer == table[i] && c.segment == PrepareSegment(r, f, m);
    TableRow(rows, onLsNumber, snapshot, i);
    ScoreCells(table, i);
    CopiesAgree(r, f, m);
    OthersOnlyWhenUndefined(r, f, m);
    assert c.segment == Others <==> table[i].recency.None?;
  }

  /** prepare_data.py saves the transactions in two halves that together give back the whole table. */
  lemma PrepareHalves(raw: seq<RawRow>, parseDate: string -> Option<int>, parseNumber: string -> Option<int>,
                      onLsNumber: bool)
    requires PrepareScript(raw, parseDate, parseNumber, onLsNumber).Done?
    ensures var out := PrepareScript(raw, parseDate, parseNumber, onLsNumber).value;
      && out.part1 + out.part2 == CoerceAll(raw, parseDate, parseNumber)
      && |out.part1| == |raw| / 2
  {
  }

  /** With the same rows and snapshot, the two rule copies succeed together and give the same table. */
  lemma ScoredTablesAgree(rows: seq<Row>, onLsNumber: bool, snapshot: int)
    ensures var rfm, prepare := ScoredTable(rows, onLsNumber, snapshot, Classify),
                                ScoredTable(rows, onLsNumber, snapshot, PrepareSegment);
      && (rfm.Done? <==> prepare.Done?)
      && (rfm.Done? ==> rfm.value == prepare.value)
  {
    var table := Customers(rows, onLsNumber, snapshot);
    var scoring := ScoreColumns(table);
    if scoring.Done? {
      ApplyCopiesAgree(table, scoring.value);
      assert ScoredTable(rows, onLsNumber, snapshot, Classify) == Done(Apply(table, scoring.value, Classify));
      assert ScoredTable(rows, onLsNumber, snapshot, PrepareSegment) == Done(Apply(table, scoring.value, PrepareSegment));
    }
  }

  /** Complete rows all have a date, so there is no snapshot only when there is no row. */
  lemma NoDateNoRows(rows: seq<Row>)
    requires forall row :: row in rows ==> Complete(row)
    ensures Snapshot(rows).None? <==> rows == []
  {
    if rows != [] {
      assert rows[0] in rows;
    }
  }

  /** An empty table cannot be cut, so scoring it fails. */
  lemma EmptyTableFails(rows: seq<Row>, onLsNumber: bool, snapshot: int)
    requires rows == []
    ensures ScoredTable(rows, onLsNumber, snapshot, PrepareSegment).Failed?
  {
    var table := Customers(rows, onLsNumber, snapshot);
    OneRowPerImporter(rows, onLsNumber, snapshot);
    assert Importers(rows) == {};
    assert Present(Recencies(table)) == [];
  }

  /**
   * On a file in which every row has a date, a value and an importer, the two scripts
   * succeed together and then write the same scored table.
   */
  lemma ScriptsAgree(raw: seq<RawRow>, parseDate: string -> Option<int>, parseNumber: string -> Option<int>,
                     onLsNumber: bool)
    requires forall row :: row in CoerceAll(raw, parseDate, parseNumber) ==> Complete(row)
    ensures var rfm, prepare := RfmScript(raw, parseDate, parseNumber, onLsNumber),
                                PrepareScript(raw, parseDate, parseNumber, onLsNumber);
      && (rfm.Done? <==> prepare.Done?)
      && (rfm.Done? ==> rfm.value.table == prepare.value.table)
  {
    var rows := CoerceAll(raw, parseDate, parseNumber);
    CompleteRowsAllComplete(rows);
    NoDateNoRows(rows);
    if Snapshot(rows).None? {
      EmptyTableFails(rows, onLsNumber, PrepareSnapshot(rows));
    } else {
      ScoredTablesAgree(rows, onLsNumber, Snapshot(rows).value);
    }
  }
}
