/** Folding of CSV rows into observations (app/services/kpi_measurement_units.py, lines 1349 to 1366
    and 1752 to 1913). A cell is what parsing made of it; numbers are reals. Business status, trends
    and file discovery are not part of this module. */
module Observations {
  import opened Sums
  import opened Wrappers

  /** A cell of a source column: a number, white space (with whether its request column is a readable
      zero), or text that is no number. */
  datatype Cell = Number(value: real) | Blank(zeroDenominator: bool) | Text

  /** Where a cell came from. */
  datatype Source = Source(file: string, line: nat, column: string, text: string)

  /** A data row of one metric: its object, the cells of the metric's source columns in header order with where they
      came from, and its time and period if they can be read. */
  datatype Row = Row(key: string, cells: seq<Cell>, sources: seq<Source>, at: Option<int>, period: Option<int>)

  /** A point of a time series. */
  datatype Point = Point(key: string, at: int, period: Option<int>, value: real, sources: seq<Source>)

  datatype RowClass = Valid(number: real) | ParseError | NotApplicable | Null

  datatype Observation =
    Observation(rows: nat, valid: nat, nulls: nat, notApplicable: nat, parseErrors: nat, zeros: nat,
                min: Option<real>, max: Option<real>, sum: real, sources: seq<Source>)

  const EMPTY := Observation(0, 0, 0, 0, 0, 0, None, None, 0.0, [])

  // ----- One row ---------------------------------------------------------------------------------

  /** The class of a row: its first number; without one, an unreadable cell counts before a zero
      denominator, and that before an empty value. */
  ghost predicate IsClass(cells: seq<Cell>, c: RowClass) {
    match c
    case Valid(number) => exists i :: 0 <= i < |cells| && cells[i] == Number(number) && NoNumber(cells[..i])
    case ParseError => NoNumber(cells) && Text in cells
    case NotApplicable => NoNumber(cells) && Text !in cells && Blank(true) in cells
    case Null => NoNumber(cells) && Text !in cells && Blank(true) !in cells
  }

  ghost predicate NoNumber(cells: seq<Cell>) { forall c :: c in cells ==> !c.Number? }

  function FirstNumber(cells: seq<Cell>): Option<real> {
    if cells == [] then None else if cells[0].Number? then Some(cells[0].value) else FirstNumber(cells[1..])
  }

  function Classify(cells: seq<Cell>): RowClass {
    match FirstNumber(cells)
    case Some(number) => Valid(number)
    case None => if Text in cells then ParseError else if Blank(true) in cells then NotApplicable else Null
  }

  lemma {:induction false} FirstNumberIs(cells: seq<Cell>)
    ensures FirstNumber(cells).None? <==> NoNumber(cells)
    ensures FirstNumber(cells).Some? ==> IsClass(cells, Valid(FirstNumber(cells).value))
  {
    if cells != [] && !cells[0].Number? {
      FirstNumberIs(cells[1..]);
      assert forall c :: c in cells <==> c == cells[0] || c in cells[1..];
      if FirstNumber(cells).Some? {
        var i :| 0 <= i < |cells[1..]| && cells[1..][i] == Number(FirstNumber(cells).value)
          && NoNumber(cells[1..][..i]);
        assert cells[..i + 1] == [cells[0]] + cells[1..][..i];
        assert cells[i + 1] == Number(FirstNumber(cells).value);
      }
    } else if cells != [] {
      assert cells[0] == Number(cells[0].value) && NoNumber(cells[..0]);
      assert cells[0] in cells;
    }
  }

  lemma {:induction false} ClassIs(cells: seq<Cell>)
    ensures IsClass(cells, Classify(cells))
  {
    FirstNumberIs(cells);
  }

  /** The loop over the source columns of a row. */
  method ClassifyRow(cells: seq<Cell>) returns (c: RowClass)
    ensures c == Classify(cells) && IsClass(cells, c)
  {
    ClassIs(cells);
    var validValues: seq<real> := [];
    var zeroDenominators := 0;
    var anyText := false;
    for n := 0 to |cells|
      invariant validValues != [] ==> FirstNumber(cells) == Some(validValues[0])
      invariant validValues == [] ==> FirstNumber(cells[n..]) == FirstNumber(cells) && NoNumber(cells[..n])
      invariant anyText <==> Text in cells[..n]
      invariant zeroDenominators > 0 <==> Blank(true) in cells[..n]
    {
      assert cells[..n + 1] == cells[..n] + [cells[n]];
      assert cells[n..][1..] == cells[n + 1..];
      match cells[n]
      case Number(value) => validValues := validValues + [value];
      case Blank(zero) => if zero { zeroDenominators := zeroDenominators + 1; }
      case Text => anyText := true;
    }
    assert cells[..|cells|] == cells;
    if validValues != [] { return Valid(validValues[0]); }
    c := if anyText then ParseError else if zeroDenominators > 0 then NotApplicable else Null;
  }

  // ----- What an observation says of its rows ----------------------------------------------------

  function Count(rows: seq<Row>, p: Row -> bool): nat {
    if rows == [] then 0 else Count(rows[..|rows| - 1], p) + if p(rows[|rows| - 1]) then 1 else 0
  }

  function IsValid(): Row -> bool { (r: Row) => Classify(r.cells).Valid? }
  function IsZero(): Row -> bool { (r: Row) => Classify(r.cells) == Valid(0.0) }
  function IsNull(): Row -> bool { (r: Row) => Classify(r.cells) == Null }
  function IsNotApplicable(): Row -> bool { (r: Row) => Classify(r.cells) == NotApplicable }
  function IsParseError(): Row -> bool { (r: Row) => Classify(r.cells) == ParseError }
  function AnyRow(): Row -> bool { (r: Row) => true }

  /** The numbers of the valid rows, in order. */
  function Numbers(rows: seq<Row>): seq<real> {
    if rows == [] then []
    else
      var c := Classify(rows[|rows| - 1].cells);
      Numbers(rows[..|rows| - 1]) + if c.Valid? then [c.number] else []
  }

  /** The sources of the rows without a number. */
  function SourcesOf(rows: seq<Row>): seq<Source> {
    if rows == [] then []
    else
      var last := rows[|rows| - 1];
      SourcesOf(rows[..|rows| - 1]) + if Classify(last.cells).Valid? then [] else last.sources
  }

  /** The points of the rows with a number and a time. */
  function SeriesOf(rows: seq<Row>): seq<Point> {
    if rows == [] then [] else SeriesOf(rows[..|rows| - 1]) + PointOf(rows[|rows| - 1])
  }

  function PointOf(row: Row): seq<Point> {
    match Classify(row.cells)
    case Valid(number) => if row.at.Some? then [Point(row.key, row.at.value, row.period, number, row.sources)] else []
    case _ => []
  }

  lemma {:induction false} SeriesConcat(a: seq<Row>, b: seq<Row>)
    ensures SeriesOf(a + b) == SeriesOf(a) + SeriesOf(b)
  {
    if b == [] {
      assert a + b == a;
    } else {
      SeriesConcat(a, b[..|b| - 1]);
      SeriesLast(a, b);
    }
  }

  lemma {:induction false} SeriesLast(a: seq<Row>, b: seq<Row>)
    requires b != [] && SeriesOf(a + b[..|b| - 1]) == SeriesOf(a) + SeriesOf(b[..|b| - 1])
    ensures SeriesOf(a + b) == SeriesOf(a) + SeriesOf(b)
  {
    hide *;
    var front, last := b[..|b| - 1], b[|b| - 1];
    SeriesOne(front, last);
    SeriesSnoc(a, front, last);
    assert b == front + [last] && a + b == a + front + [last];
  }

  lemma {:induction false} SeriesSnoc(a: seq<Row>, front: seq<Row>, last: Row)
    requires SeriesOf(a + front) == SeriesOf(a) + SeriesOf(front)
    ensures SeriesOf(a + front + [last]) == SeriesOf(a) + (SeriesOf(front) + PointOf(last))
  {
    hide *;
    SeriesOne(a + front, last);
    Associative(SeriesOf(a), SeriesOf(front), PointOf(last));
  }

  lemma {:induction false} SeriesOne(rows: seq<Row>, row: Row)
    ensures SeriesOf(rows + [row]) == SeriesOf(rows) + PointOf(row)
  {
    hide PointOf;
    assert (rows + [row])[..|rows|] == rows;
  }

  ghost predicate IsMin(xs: seq<real>, m: Option<real>) {
    match m
    case None => xs == []
    case Some(x) => x in xs && forall y :: y in xs ==> x <= y
  }

  ghost predicate IsMax(xs: seq<real>, m: Option<real>) {
    match m
    case None => xs == []
    case Some(x) => x in xs && forall y :: y in xs ==> x >= y
  }

  ghost predicate Counters(o: Observation, rows: seq<Row>) {
    && o.rows == Count(rows, AnyRow())
    && o.valid == Count(rows, IsValid())
    && o.nulls == Count(rows, IsNull())
    && o.notApplicable == Count(rows, IsNotApplicable())
    && o.parseErrors == Count(rows, IsParseError())
    && o.zeros == Count(rows, IsZero())
  }

  ghost predicate Measures(o: Observation, rows: seq<Row>) {
    && IsMin(Numbers(rows), o.min)
    && IsMax(Numbers(rows), o.max)
    && o.sum == Sum(Numbers(rows))
    && o.sources == SourcesOf(rows)
  }

  /** The observation of a list of rows, field by field. */
  ghost predicate Summarizes(o: Observation, rows: seq<Row>) {
    Counters(o, rows) && Measures(o, rows)
  }

  // ----- One more row, and merging ---------------------------------------------------------------

  function Lower(a: Option<real>, x: real): Option<real> {
    match a case None => Some(x) case Some(y) => Some(if x < y then x else y)
  }

  function Higher(a: Option<real>, x: real): Option<real> {
    match a case None => Some(x) case Some(y) => Some(if x > y then x else y)
  }

  /** The body of the row loop. */
  function AddRow(o: Observation, row: Row): Observation {
    match Classify(row.cells)
    case Valid(number) =>
      o.(rows := o.rows + 1, valid := o.valid + 1, zeros := o.zeros + (if number == 0.0 then 1 else 0),
         min := Lower(o.min, number), max := Higher(o.max, number), sum := o.sum + number)
    case ParseError => o.(rows := o.rows + 1, parseErrors := o.parseErrors + 1, sources := o.sources + row.sources)
    case NotApplicable => o.(rows := o.rows + 1, notApplicable := o.notApplicable + 1,
                             sources := o.sources + row.sources)
    case Null => o.(rows := o.rows + 1, nulls := o.nulls + 1, sources := o.sources + row.sources)
  }

  /** _merge_observation. */
  function Merge(a: Observation, b: Observation): Observation {
    Observation(a.rows + b.rows, a.valid + b.valid, a.nulls + b.nulls, a.notApplicable + b.notApplicable,
                a.parseErrors + b.parseErrors, a.zeros + b.zeros,
                if b.min.Some? then Lower(a.min, b.min.value) else a.min,
                if b.max.Some? then Higher(a.max, b.max.value) else a.max,
                a.sum + b.sum, a.sources + b.sources)
  }

  lemma {:induction false} EmptySummarizes()
    ensures Summarizes(EMPTY, [])
  {
  }

  lemma {:induction false} NumbersOne(rows: seq<Row>, row: Row)
    ensures Numbers(rows + [row]) == Numbers(rows) + match Classify(row.cells) case Valid(x) => [x] case _ => []
    ensures SourcesOf(rows + [row]) == SourcesOf(rows) + if Classify(row.cells).Valid? then [] else row.sources
  {
    assert (rows + [row])[..|rows|] == rows;
  }

  lemma {:induction false} AddRowSummarizes(o: Observation, rows: seq<Row>, row: Row)
    requires Summarizes(o, rows)
    ensures Summarizes(AddRow(o, row), rows + [row])
  {
    assert Counters(AddRow(o, row), rows + [row]) by { hide Count; hide Classify; }
    AddRowMeasures(o, rows, row);
  }

  lemma {:induction false} AddRowMeasures(o: Observation, rows: seq<Row>, row: Row)
    requires Measures(o, rows)
    ensures Measures(AddRow(o, row), rows + [row])
  {
    NumbersOne(rows, row);
    hide Classify; hide Numbers; hide SourcesOf; hide Sum;
    match Classify(row.cells)
    case Valid(x) =>
      SumOne(Numbers(rows), x);
      assert SourcesOf(rows) + [] == SourcesOf(rows);
    case _ =>
      assert Numbers(rows) + [] == Numbers(rows);
  }

  lemma {:induction false} CountConcat(a: seq<Row>, b: seq<Row>, p: Row -> bool)
    ensures Count(a + b, p) == Count(a, p) + Count(b, p)
  {
    if b == [] {
      assert a + b == a;
    } else {
      CountConcat(a, b[..|b| - 1], p);
      assert (a + b)[..|a + b| - 1] == a + b[..|b| - 1];
    }
  }

  lemma {:induction false} NumbersConcat(a: seq<Row>, b: seq<Row>)
    ensures Numbers(a + b) == Numbers(a) + Numbers(b)
  {
    hide Classify;
    if b == [] {
      assert a + b == a;
    } else {
      NumbersConcat(a, b[..|b| - 1]);
      assert (a + b)[..|a + b| - 1] == a + b[..|b| - 1];
    }
  }

  lemma {:induction false} Associative<T>(a: seq<T>, b: seq<T>, c: seq<T>)
    ensures (a + b) + c == a + (b + c)
  {
  }

  lemma {:induction false} SourcesConcat(a: seq<Row>, b: seq<Row>)
    ensures SourcesOf(a + b) == SourcesOf(a) + SourcesOf(b)
  {
    hide Classify;
    if b == [] {
      assert a + b == a;
    } else {
      var front, last := b[..|b| - 1], b[|b| - 1];
      SourcesConcat(a, front);
      NumbersOne(a + front, last);
      NumbersOne(front, last);
      hide *;
      assert b == front + [last] && a + b == (a + front) + [last];
      Associative(SourcesOf(a), SourcesOf(front), if Classify(last.cells).Valid? then [] else last.sources);
    }
  }

  lemma {:induction false} ExtremesConcat(xs: seq<real>, ys: seq<real>, a: Observation, b: Observation)
    requires IsMin(xs, a.min) && IsMax(xs, a.max) && IsMin(ys, b.min) && IsMax(ys, b.max)
    ensures IsMin(xs + ys, Merge(a, b).min) && IsMax(xs + ys, Merge(a, b).max)
  {
    assert forall y :: y in xs + ys <==> y in xs || y in ys;
  }

  /** Merging the observations of two lists of rows gives the observation of the rows together. */
  lemma {:induction false} MergeSummarizes(a: Observation, xs: seq<Row>, b: Observation, ys: seq<Row>)
    requires Summarizes(a, xs) && Summarizes(b, ys)
    ensures Summarizes(Merge(a, b), xs + ys)
  {
    CountConcat(xs, ys, AnyRow());
    CountConcat(xs, ys, IsValid());
    CountConcat(xs, ys, IsNull());
    CountConcat(xs, ys, IsNotApplicable());
    CountConcat(xs, ys, IsParseError());
    CountConcat(xs, ys, IsZero());
    NumbersConcat(xs, ys);
    SourcesConcat(xs, ys);
    SumAppend(Numbers(xs), Numbers(ys));
    ExtremesConcat(Numbers(xs), Numbers(ys), a, b);
    hide Count; hide Numbers; hide SourcesOf; hide Sum; hide IsMin; hide IsMax;
  }

  /** Two observations of the same rows are the same, so folding order cannot matter. */
  lemma {:induction false} SummaryIsUnique(a: Observation, b: Observation, rows: seq<Row>)
    requires Summarizes(a, rows) && Summarizes(b, rows)
    ensures a == b
  {
  }

  // ----- Laws of one observation -----------------------------------------------------------------

  lemma {:induction false} CountLaws(rows: seq<Row>)
    ensures Count(rows, AnyRow()) ==
      Count(rows, IsValid()) + Count(rows, IsNull()) + Count(rows, IsNotApplicable()) + Count(rows, IsParseError())
    ensures Count(rows, IsZero()) <= Count(rows, IsValid()) == |Numbers(rows)|
  {
    if rows != [] { CountLaws(rows[..|rows| - 1]); }
  }

  /** avg_value. */
  function Average(o: Observation): Option<real> {
    if o.valid > 0 then Some(o.sum / (o.valid as real)) else None
  }

  datatype ReadStatus = ReadParseError | ReadNull | ReadOk
  datatype ValuePattern = AllZero | Unknown | Normal

  function ReadStatusOf(o: Observation): ReadStatus {
    if o.parseErrors > 0 then ReadParseError else if o.nulls > 0 then ReadNull else ReadOk
  }

  function ValuePatternOf(o: Observation): ValuePattern {
    if o.valid > 0 && o.zeros == o.valid then AllZero else if o.valid == 0 then Unknown else Normal
  }

  /** What the two finalised labels of an observation say of its rows. */
  lemma {:induction false} LabelsMean(o: Observation, rows: seq<Row>)
    requires Summarizes(o, rows)
    ensures ReadStatusOf(o) == ReadParseError <==> exists r :: r in rows && Classify(r.cells) == ParseError
    ensures ReadStatusOf(o) == ReadOk <==> forall r ::
      r in rows ==> Classify(r.cells).Valid? || Classify(r.cells).NotApplicable?
    ensures ValuePatternOf(o) == Unknown <==> forall r :: r in rows ==> !Classify(r.cells).Valid?
    ensures ValuePatternOf(o) == Normal <==> exists r ::
      r in rows && Classify(r.cells).Valid? && Classify(r.cells).number != 0.0
  {
    CountSome(rows, IsParseError());
    CountSome(rows, IsNull());
    CountSome(rows, IsValid());
    ZerosAreAll(rows);
    hide Count; hide Numbers; hide SourcesOf;
  }

  lemma {:induction false} CountSome(rows: seq<Row>, p: Row -> bool)
    ensures Count(rows, p) > 0 <==> exists r :: r in rows && p(r)
  {
    if rows != [] {
      CountSome(rows[..|rows| - 1], p);
      assert rows == rows[..|rows| - 1] + [rows[|rows| - 1]];
    }
  }

  lemma {:induction false} ZerosAreAll(rows: seq<Row>)
    ensures Count(rows, IsZero()) <= Count(rows, IsValid())
    ensures Count(rows, IsZero()) == Count(rows, IsValid()) <==>
      forall r :: r in rows && Classify(r.cells).Valid? ==> Classify(r.cells).number == 0.0
  {
    hide Classify;
    if rows != [] {
      ZerosAreAll(rows[..|rows| - 1]);
      assert rows == rows[..|rows| - 1] + [rows[|rows| - 1]];
    }
  }

  /** What every observation keeps: each row is counted once, zeros are valid rows, and the average
      lies between the extremes. */
  lemma {:induction false} ObservationLaws(o: Observation, rows: seq<Row>)
    requires Summarizes(o, rows)
    ensures o.rows == |rows| == o.valid + o.nulls + o.notApplicable + o.parseErrors
    ensures o.zeros <= o.valid == |Numbers(rows)|
    ensures Average(o).Some? <==> exists r :: r in rows && Classify(r.cells).Valid?
    ensures Average(o).Some? ==>
      o.min.Some? && o.max.Some? && o.min.value <= Average(o).value <= o.max.value
  {
    CountLaws(rows);
    CountAll(rows);
    HasNumber(rows);
    hide Count; hide Numbers; hide Classify;
    if o.valid > 0 {
      SumBetween(Numbers(rows), o.min.value, o.max.value);
      MeanBetween(o.sum, o.valid, o.min.value, o.max.value);
    }
  }

  lemma {:induction false} CountAll(rows: seq<Row>)
    ensures Count(rows, AnyRow()) == |rows|
  {
    if rows != [] { CountAll(rows[..|rows| - 1]); }
  }

  lemma {:induction false} HasNumber(rows: seq<Row>)
    ensures Numbers(rows) != [] <==> exists r :: r in rows && Classify(r.cells).Valid?
  {
    if rows != [] {
      var front, last := rows[..|rows| - 1], rows[|rows| - 1];
      HasNumber(front);
      assert forall r :: r in rows <==> r in front || r == last;
    }
  }

  // ----- Files, metrics and objects --------------------------------------------------------------

  function RowsOf(rows: seq<Row>, key: string): seq<Row> {
    if rows == [] then []
    else
      var last := rows[|rows| - 1];
      RowsOf(rows[..|rows| - 1], key) + if last.key == key then [last] else []
  }

  lemma {:induction false} RowsOfConcat(a: seq<Row>, b: seq<Row>, key: string)
    ensures RowsOf(a + b, key) == RowsOf(a, key) + RowsOf(b, key)
  {
    if b == [] {
      assert a + b == a;
    } else {
      var front, last := b[..|b| - 1], b[|b| - 1];
      RowsOfConcat(a, front, key);
      assert b == front + [last] && a + b == (a + front) + [last];
      hide RowsOf;
    }
  }

  /** A dictionary of observations holds, for every object with rows, the observation of its rows. */
  ghost predicate SummarizesAll(observations: map<string, Observation>, rows: seq<Row>) {
    forall key ::
      if key in observations then RowsOf(rows, key) != [] && Summarizes(observations[key], RowsOf(rows, key))
      else RowsOf(rows, key) == []
  }

  lemma {:induction false} RowAdded(observations: map<string, Observation>, rows: seq<Row>, row: Row)
    requires SummarizesAll(observations, rows)
    ensures
      var o := if row.key in observations then observations[row.key] else EMPTY;
      SummarizesAll(observations[row.key := AddRow(o, row)], rows + [row])
  {
    hide Summarizes; hide AddRow;
    EmptySummarizes();
    var o := if row.key in observations then observations[row.key] else EMPTY;
    AddRowSummarizes(o, RowsOf(rows, row.key), row);
    forall key
      ensures RowsOf(rows + [row], key) == if row.key == key then RowsOf(rows, key) + [row] else RowsOf(rows, key) { }
    hide RowsOf;
  }

  /** The row loop of one file and metric. */
  method FoldFile(rows: seq<Row>) returns (observations: map<string, Observation>, series: seq<Point>)
    ensures SummarizesAll(observations, rows) && series == SeriesOf(rows)
  {
    hide Summarizes; hide SummarizesAll; hide AddRow; hide Classify;
    observations, series := map[], [];
    NoRows();
    for n := 0 to |rows|
      invariant SummarizesAll(observations, rows[..n]) && series == SeriesOf(rows[..n])
    {
      var row := rows[n];
      assert rows[..n + 1] == rows[..n] + [row];
      RowAdded(observations, rows[..n], row);
      var o := if row.key in observations then observations[row.key] else EMPTY;
      var c := ClassifyRow(row.cells);
      o := CountRow(o, row, c);
      observations := observations[row.key := o];
      if c.Valid? && row.at.Some? {
        series := series + [Point(row.key, row.at.value, row.period, c.number, row.sources)];
      }
    }
    assert rows[..|rows|] == rows;
  }

  lemma {:induction false} NoRows()
    ensures SummarizesAll(map[], [])
  {
  }

  /** The counter updates of the row loop. */
  method CountRow(o: Observation, row: Row, c: RowClass) returns (r: Observation)
    requires c == Classify(row.cells)
    ensures r == AddRow(o, row)
  {
    r := o.(rows := o.rows + 1);
    match c
    case ParseError => r := r.(parseErrors := r.parseErrors + 1, sources := r.sources + row.sources);
    case NotApplicable => r := r.(notApplicable := r.notApplicable + 1, sources := r.sources + row.sources);
    case Null => r := r.(nulls := r.nulls + 1, sources := r.sources + row.sources);
    case Valid(number) =>
      r := r.(valid := r.valid + 1, zeros := r.zeros + (if number == 0.0 then 1 else 0),
              min := Lower(r.min, number), max := Higher(r.max, number), sum := r.sum + number);
  }

  lemma {:induction false} AllMerged(target: map<string, Observation>, xs: seq<Row>,
                                     source: map<string, Observation>, ys: seq<Row>, merged: map<string, Observation>)
    requires SummarizesAll(target, xs) && SummarizesAll(source, ys)
    requires merged.Keys == target.Keys + source.Keys
    requires forall key :: key in merged ==>
      merged[key] == (if key !in source then target[key]
                      else if key in target then Merge(target[key], source[key]) else source[key])
    ensures SummarizesAll(merged, xs + ys)
  {
    hide Merge; hide Summarizes; hide RowsOf;
    forall key
      ensures if key in merged then RowsOf(xs + ys, key) != [] && Summarizes(merged[key], RowsOf(xs + ys, key))
              else RowsOf(xs + ys, key) == []
    {
      RowsOfConcat(xs, ys, key);
      if key in target && key in source {
        MergeSummarizes(target[key], RowsOf(xs, key), source[key], RowsOf(ys, key));
      } else if key in target {
        assert RowsOf(xs, key) + [] == RowsOf(xs, key);
      } else {
        assert [] + RowsOf(ys, key) == RowsOf(ys, key);
      }
    }
  }

  /** Merging the dictionary of one file into the one kept so far. */
  method MergeInto(target: map<string, Observation>, ghost xs: seq<Row>, source: map<string, Observation>,
                   ghost ys: seq<Row>)
    returns (merged: map<string, Observation>)
    requires SummarizesAll(target, xs) && SummarizesAll(source, ys)
    ensures SummarizesAll(merged, xs + ys)
  {
    hide Merge; hide SummarizesAll;
    merged := target;
    var left := source.Keys;
    while left != {}
      invariant left <= source.Keys
      invariant merged.Keys == target.Keys + (source.Keys - left)
      invariant forall key :: key in merged ==>
        merged[key] == (if key !in source || key in left then target[key]
                        else if key in target then Merge(target[key], source[key]) else source[key])
      decreases left
    {
      var key :| key in left;
      left := left - {key};
      merged := merged[key := if key in merged then Merge(merged[key], source[key]) else source[key]];
    }
    AllMerged(target, xs, source, ys, merged);
  }

  /** A list of rows has one dictionary of observations: folding it file by file and merging gives the
      dictionary that folding all rows at once gives. */
  lemma {:induction false} FoldedAtOnce(a: map<string, Observation>, b: map<string, Observation>, rows: seq<Row>)
    requires SummarizesAll(a, rows) && SummarizesAll(b, rows)
    ensures a == b
  {
    hide Summarizes; hide RowsOf;
    forall key ensures key in a <==> key in b { }
    forall key | key in a ensures a[key] == b[key] {
      SummaryIsUnique(a[key], b[key], RowsOf(rows, key));
    }
  }

  /** One metric of one file, in processing order. */
  datatype Chunk = Chunk(metric: string, rows: seq<Row>)

  function AllRows(chunks: seq<Chunk>): seq<Row> {
    if chunks == [] then [] else AllRows(chunks[..|chunks| - 1]) + chunks[|chunks| - 1].rows
  }

  function MetricRows(chunks: seq<Chunk>, metric: string): seq<Row> {
    if chunks == [] then []
    else
      var last := chunks[|chunks| - 1];
      MetricRows(chunks[..|chunks| - 1], metric) + if last.metric == metric then last.rows else []
  }

  /** The metrics of a measurement unit in the order they first appear. */
  function Metrics(chunks: seq<Chunk>): seq<string> {
    if chunks == [] then []
    else
      var before, metric := Metrics(chunks[..|chunks| - 1]), chunks[|chunks| - 1].metric;
      if metric in before then before else before + [metric]
  }

  ghost predicate MetricsSummarized(results: map<string, map<string, Observation>>, chunks: seq<Chunk>) {
    && (forall metric :: metric in results <==> metric in Metrics(chunks))
    && (forall metric :: metric in results ==> SummarizesAll(results[metric], MetricRows(chunks, metric)))
  }

  lemma {:induction false} UnseenMetric(chunks: seq<Chunk>, metric: string)
    requires metric !in Metrics(chunks)
    ensures MetricRows(chunks, metric) == []
  {
    if chunks != [] { UnseenMetric(chunks[..|chunks| - 1], metric); }
  }

  lemma {:induction false} ChunkAdded(results: map<string, map<string, Observation>>, chunks: seq<Chunk>, chunk: Chunk,
                                      merged: map<string, Observation>)
    requires MetricsSummarized(results, chunks)
    requires SummarizesAll(merged, MetricRows(chunks, chunk.metric) + chunk.rows)
    ensures MetricsSummarized(results[chunk.metric := merged], chunks + [chunk])
    ensures AllRows(chunks + [chunk]) == AllRows(chunks) + chunk.rows
  {
    hide SummarizesAll;
    assert (chunks + [chunk])[..|chunks|] == chunks;
    forall metric | metric in results && metric != chunk.metric
      ensures MetricRows(chunks + [chunk], metric) == MetricRows(chunks, metric) { }
  }

  /** The time series of each metric: the points of its rows in processing order. */
  ghost predicate AllSeries(series: map<string, seq<Point>>, chunks: seq<Chunk>) {
    forall metric :: HasSeries(series, chunks, metric)
  }

  lemma {:induction false} NoSeries()
    ensures AllSeries(map[], [])
  {
  }

  lemma {:induction false} MetricRowsMore(chunks: seq<Chunk>, chunk: Chunk, metric: string)
    ensures MetricRows(chunks + [chunk], metric)
         == MetricRows(chunks, metric) + if chunk.metric == metric then chunk.rows else []
    ensures metric in Metrics(chunks + [chunk]) <==> metric in Metrics(chunks) || metric == chunk.metric
  {
    assert (chunks + [chunk])[..|chunks|] == chunks;
  }

  ghost predicate HasSeries(series: map<string, seq<Point>>, chunks: seq<Chunk>, metric: string) {
    && (metric in series <==> metric in Metrics(chunks))
    && (metric in series ==> series[metric] == SeriesOf(MetricRows(chunks, metric)))
  }

  lemma {:induction false} SeriesAdded(series: map<string, seq<Point>>, chunks: seq<Chunk>, chunk: Chunk)
    requires AllSeries(series, chunks)
    ensures
      var before := if chunk.metric in series then series[chunk.metric] else [];
      AllSeries(series[chunk.metric := before + SeriesOf(chunk.rows)], chunks + [chunk])
  {
    hide MetricRows; hide Metrics; hide SeriesOf; hide HasSeries;
    var before := if chunk.metric in series then series[chunk.metric] else [];
    var now := series[chunk.metric := before + SeriesOf(chunk.rows)];
    forall metric ensures HasSeries(now, chunks + [chunk], metric) {
      SeriesStep(series, chunks, chunk, metric);
    }
  }

  lemma {:induction false} SeriesStep(series: map<string, seq<Point>>, chunks: seq<Chunk>, chunk: Chunk, metric: string)
    requires HasSeries(series, chunks, metric)
    ensures
      var before := if chunk.metric in series then series[chunk.metric] else [];
      HasSeries(series[chunk.metric := before + SeriesOf(chunk.rows)], chunks + [chunk], metric)
  {
    MetricRowsMore(chunks, chunk, metric);
    SeriesConcat(MetricRows(chunks, metric), chunk.rows);
    if metric !in Metrics(chunks) { UnseenMetric(chunks, metric); }
    assert SeriesOf([]) == [];
    hide MetricRows; hide Metrics; hide SeriesOf;
    assert MetricRows(chunks, metric) + [] == MetricRows(chunks, metric);
  }

  /** The file loop of one measurement unit: observations and a time series for each metric, and observations for each
      object over all metrics. */
  method InspectUnit(chunks: seq<Chunk>)
    returns (results: map<string, map<string, Observation>>, series: map<string, seq<Point>>,
             objects: map<string, Observation>)
    ensures MetricsSummarized(results, chunks) && AllSeries(series, chunks)
    ensures SummarizesAll(objects, AllRows(chunks))
  {
    hide SummarizesAll; hide SeriesOf; hide AllSeries;
    results, series, objects := map[], map[], map[];
    NoRows();
    NoSeries();
    for n := 0 to |chunks|
      invariant MetricsSummarized(results, chunks[..n]) && AllSeries(series, chunks[..n])
      invariant SummarizesAll(objects, AllRows(chunks[..n]))
    {
      var chunk := chunks[n];
      assert chunks[..n + 1] == chunks[..n] + [chunk];
      var observations, points := FoldFile(chunk.rows);
      var merged := observations;
      if chunk.metric in results {
        merged := MergeInto(results[chunk.metric], MetricRows(chunks[..n], chunk.metric), observations, chunk.rows);
      } else {
        UnseenMetric(chunks[..n], chunk.metric);
        assert [] + chunk.rows == chunk.rows;
      }
      ChunkAdded(results, chunks[..n], chunk, merged);
      results := results[chunk.metric := merged];
      SeriesAdded(series, chunks[..n], chunk);
      series := series[chunk.metric := (if chunk.metric in series then series[chunk.metric] else []) + points];
      objects := MergeInto(objects, AllRows(chunks[..n]), observations, chunk.rows);
    }
    assert chunks[..|chunks|] == chunks;
  }

  // ----- Object counters are sums over metrics ---------------------------------------------------

  function SumOver(metrics: seq<string>, count: string -> nat): nat {
    if metrics == [] then 0 else SumOver(metrics[..|metrics| - 1], count) + count(metrics[|metrics| - 1])
  }

  /** How many rows of an object in one metric have a property. */
  function MetricCount(chunks: seq<Chunk>, key: string, p: Row -> bool): string -> nat {
    (metric: string) => Count(RowsOf(MetricRows(chunks, metric), key), p)
  }

  lemma {:induction false} SumOverChanges(metrics: seq<string>, f: string -> nat, g: string -> nat, metric: string,
                                          d: nat)
    requires Distinct(metrics)
    requires forall m :: m in metrics ==> g(m) == f(m) + if m == metric then d else 0
    ensures SumOver(metrics, g) == SumOver(metrics, f) + if metric in metrics then d else 0
  {
    if metrics != [] {
      var front, last := metrics[..|metrics| - 1], metrics[|metrics| - 1];
      assert last in metrics && last !in front && forall m :: m in front ==> m in metrics;
      assert metrics == front + [last];
      SumOverChanges(front, f, g, metric, d);
    }
  }

  lemma {:induction false} MetricsDistinct(chunks: seq<Chunk>)
    ensures Distinct(Metrics(chunks))
  {
    if chunks != [] { MetricsDistinct(chunks[..|chunks| - 1]); }
  }

  /** The rows of an object with a property are spread over the metrics without loss or overlap. */
  lemma {:induction false} CountsAddUp(chunks: seq<Chunk>, key: string, p: Row -> bool)
    ensures Count(RowsOf(AllRows(chunks), key), p) == SumOver(Metrics(chunks), MetricCount(chunks, key, p))
  {
    if chunks != [] {
      var front, chunk := chunks[..|chunks| - 1], chunks[|chunks| - 1];
      CountsAddUp(front, key, p);
      RowsOfConcat(AllRows(front), chunk.rows, key);
      CountConcat(RowsOf(AllRows(front), key), RowsOf(chunk.rows, key), p);
      MetricsDistinct(front);
      var f, g := MetricCount(front, key, p), MetricCount(chunks, key, p);
      var d := Count(RowsOf(chunk.rows, key), p);
      hide RowsOf; hide Count; hide MetricCount;
      forall m ensures g(m) == f(m) + if m == chunk.metric then d else 0 {
        MetricCountStep(chunks, key, p, m);
      }
      SumOverChanges(Metrics(front), f, g, chunk.metric, d);
      if chunk.metric !in Metrics(front) {
        UnseenCount(front, key, p, chunk.metric);
        SumOverOne(Metrics(front), g, chunk.metric);
      }
    }
  }

  lemma {:induction false} SumOverOne(metrics: seq<string>, count: string -> nat, metric: string)
    ensures SumOver(metrics + [metric], count) == SumOver(metrics, count) + count(metric)
  {
    assert (metrics + [metric])[..|metrics|] == metrics;
  }

  lemma {:induction false} UnseenCount(chunks: seq<Chunk>, key: string, p: Row -> bool, metric: string)
    requires metric !in Metrics(chunks)
    ensures MetricCount(chunks, key, p)(metric) == 0
  {
    UnseenMetric(chunks, metric);
  }

  lemma {:induction false} MetricCountStep(chunks: seq<Chunk>, key: string, p: Row -> bool, metric: string)
    requires chunks != []
    ensures
      var front, chunk := chunks[..|chunks| - 1], chunks[|chunks| - 1];
      MetricCount(chunks, key, p)(metric) == MetricCount(front, key, p)(metric)
        + if metric == chunk.metric then Count(RowsOf(chunk.rows, key), p) else 0
  {
    var front, chunk := chunks[..|chunks| - 1], chunks[|chunks| - 1];
    if metric == chunk.metric {
      RowsOfConcat(MetricRows(front, metric), chunk.rows, key);
      CountConcat(RowsOf(MetricRows(front, metric), key), RowsOf(chunk.rows, key), p);
    } else {
      assert MetricRows(chunks, metric) == MetricRows(front, metric);
    }
  }

  datatype Counter = RowCount | ValidCount | NullCount | NotApplicableCount | ParseErrorCount | ZeroCount

  function Get(o: Observation, counter: Counter): nat {
    match counter
    case RowCount => o.rows
    case ValidCount => o.valid
    case NullCount => o.nulls
    case NotApplicableCount => o.notApplicable
    case ParseErrorCount => o.parseErrors
    case ZeroCount => o.zeros
  }

  function Counted(counter: Counter): Row -> bool {
    match counter
    case RowCount => AnyRow()
    case ValidCount => IsValid()
    case NullCount => IsNull()
    case NotApplicableCount => IsNotApplicable()
    case ParseErrorCount => IsParseError()
    case ZeroCount => IsZero()
  }

  /** The counter of a metric's observation of an object; zero where it has none. */
  function CounterOf(results: map<string, map<string, Observation>>, key: string, counter: Counter): string -> nat {
    (metric: string) =>
      if metric in results && key in results[metric] then Get(results[metric][key], counter) else 0
  }

  lemma {:induction false} CountsRows(o: Observation, rows: seq<Row>, counter: Counter)
    requires Summarizes(o, rows)
    ensures Get(o, counter) == Count(rows, Counted(counter))
  {
    hide Count;
  }

  /** Every object-level counter is the sum of that counter over the unit's metrics. */
  lemma {:induction false} ObjectCounters(chunks: seq<Chunk>, results: map<string, map<string, Observation>>,
                                          objects: map<string, Observation>, key: string, counter: Counter)
    requires MetricsSummarized(results, chunks) && SummarizesAll(objects, AllRows(chunks)) && key in objects
    ensures Get(objects[key], counter) == SumOver(Metrics(chunks), CounterOf(results, key, counter))
  {
    var p := Counted(counter);
    CountsAddUp(chunks, key, p);
    MetricsDistinct(chunks);
    var f, g := MetricCount(chunks, key, p), CounterOf(results, key, counter);
    hide Summarizes; hide Counted; hide Get; hide Count;
    CountsRows(objects[key], RowsOf(AllRows(chunks), key), counter);
    forall m | m in Metrics(chunks) ensures g(m) == f(m) {
      assert m in results;
      if key in results[m] {
        CountsRows(results[m][key], RowsOf(MetricRows(chunks, m), key), counter);
      } else {
        assert RowsOf(MetricRows(chunks, m), key) == [];
        CountNone(p);
      }
    }
    SumOverChanges(Metrics(chunks), f, g, "", 0);
  }

  lemma {:induction false} CountNone(p: Row -> bool)
    ensures Count([], p) == 0
  {
  }
}
