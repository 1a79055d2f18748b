/** From tokenized metric rows to signals, and where every cell ends up. */
module CsvLoader {
  import opened Prelude
  import opened Text
  import opened Domain
  import opened Baseline
  import Timestamps

  datatype LoadError =
    | UnsupportedCsvSchema
    | ColumnLimitExceeded
    | RowLimitExceeded
    | FieldTooLong
    | RowWidthMismatch
    | InvalidTimestamp
    | TimestampsNotOrdered
    | InvalidNumber

  datatype Limits = Limits(maxDataRows: int, maxColumns: int)

  /** What a non-empty cell reads as. */
  datatype NumberText = NotNumeric | NonFinite | Number(value: real)

  /** The records a tokenizer yields, and the error it raises after the last of them, if any. */
  datatype Tokens = Tokens(records: seq<seq<string>>, failure: Option<LoadError>)

  /** How texts are read; the reading itself is the platform's. */
  datatype Reader = Reader(csv: string -> Tokens, time: string -> Option<Instant>, number: string -> NumberText)

  datatype Table = Table(
    header: seq<string>,
    timestamps: seq<Instant>,
    columns: seq<seq<Point>>,
    rowCount: nat,
    dropped: nat)

  /** An empty or non-finite cell is a gap; anything else must be a number. */
  function CellValue(raw: string, reader: Reader): Result<Option<real>, LoadError> {
    if raw == "" then Success(None)
    else
      match reader.number(raw)
      case NotNumeric => Failure(InvalidNumber)
      case NonFinite => Success(None)
      case Number(value) => Success(Some(value))
  }

  predicate HeaderAccepted(header: seq<string>) {
    |header| >= 2 && header[0] == "time" && (forall i :: 0 <= i < |header| ==> header[i] != "") && Distinct(header)
  }

  // ----- one row -----

  /** The timestamp of a row, once its shape and order are accepted. */
  function RowTime(table: Table, row: seq<string>, limits: Limits, reader: Reader): Result<Instant, LoadError> {
    if |row| > limits.maxColumns then Failure(ColumnLimitExceeded)
    else if table.rowCount + 1 > limits.maxDataRows then Failure(RowLimitExceeded)
    else if |row| != |table.header| || |row| == 0 then Failure(RowWidthMismatch)
    else
      match reader.time(row[0])
      case None => Failure(InvalidTimestamp)
      case Some(at) =>
        if |table.timestamps| > 0 && table.timestamps[|table.timestamps| - 1] >= at then Failure(TimestampsNotOrdered)
        else Success(at)
  }

  predicate CellsReadable(cells: seq<string>, reader: Reader) {
    forall c :: 0 <= c < |cells| ==> CellValue(cells[c], reader).Success?
  }

  function Gaps(cells: seq<string>, reader: Reader): nat {
    if cells == [] then 0
    else Gaps(cells[..|cells| - 1], reader)
         + if CellValue(cells[|cells| - 1], reader) == Success(None) then 1 else 0
  }

  /** Each column grows by its cell, unless the cell is a gap. */
  function Extended(columns: seq<seq<Point>>, cells: seq<string>, at: Instant, reader: Reader): (r: seq<seq<Point>>)
    requires |cells| == |columns| && CellsReadable(cells, reader)
    ensures |r| == |columns|
    ensures forall c :: 0 <= c < |r| ==> r[c] == ExtendedBy(columns[c], CellValue(cells[c], reader).value, at)
  {
    seq(|columns|, c requires 0 <= c < |columns| => ExtendedBy(columns[c], CellValue(cells[c], reader).value, at))
  }

  function ExtendedBy(column: seq<Point>, cell: Option<real>, at: Instant): seq<Point> {
    if cell.Some? then column + [Point(at, cell.value)] else column
  }

  /** A table under construction: one column per metric, cells accounted for, times in order. */
  ghost predicate WellFormed(t: Table) {
    && |t.columns| == |t.header| - 1 && t.rowCount == |t.timestamps|
    && (forall i, j :: 0 <= i < j < |t.timestamps| ==> t.timestamps[i] < t.timestamps[j])
    && (forall c :: 0 <= c < |t.columns| ==> Ordered(t.columns[c]) && Within(t.columns[c], t.timestamps))
    && TotalPoints(t.columns) + t.dropped == t.rowCount * |t.columns|
  }

  ghost predicate Ordered(points: seq<Point>) {
    forall i, j :: 0 <= i < j < |points| ==> points[i].observedAt < points[j].observedAt
  }

  /** Points are stamped with row times. */
  ghost predicate Within(points: seq<Point>, timestamps: seq<Instant>) {
    forall i :: 0 <= i < |points| ==> points[i].observedAt in timestamps
  }

  function TotalPoints(columns: seq<seq<Point>>): nat {
    if columns == [] then 0 else TotalPoints(columns[..|columns| - 1]) + |columns[|columns| - 1]|
  }

  function AddRow(table: Table, row: seq<string>, limits: Limits, reader: Reader): Result<Table, LoadError>
    requires |table.columns| == |table.header| - 1
  {
    var at :- RowTime(table, row, limits, reader);
    if !CellsReadable(row[1..], reader) then Failure(InvalidNumber)
    else
      Success(Table(table.header, table.timestamps + [at], Extended(table.columns, row[1..], at, reader),
                    table.rowCount + 1, table.dropped + Gaps(row[1..], reader)))
  }

  // ----- all rows -----

  function Start(header: seq<string>): Table
    requires |header| >= 1
  {
    Table(header, [], seq(|header| - 1, _ => []), 0, 0)
  }

  function AddRows(header: seq<string>, rows: seq<seq<string>>, limits: Limits, reader: Reader)
    : (r: Result<Table, LoadError>)
    requires |header| >= 1
    ensures r.Success? ==> r.value.header == header && |r.value.columns| == |header| - 1
    ensures r.Success? ==> r.value.rowCount == |r.value.timestamps|
  {
    if rows == [] then Success(Start(header))
    else
      var table :- AddRows(header, rows[..|rows| - 1], limits, reader);
      AddRow(table, rows[|rows| - 1], limits, reader)
  }

  function ParseTokens(tokens: Tokens, limits: Limits, reader: Reader): (r: Result<Table, LoadError>)
    ensures r.Success? ==> |r.value.timestamps| > 0 && |r.value.columns| == |r.value.header| - 1
  {
    var records := tokens.records;
    if records == [] then Failure(if tokens.failure.Some? then tokens.failure.value else UnsupportedCsvSchema)
    else if |records[0]| > limits.maxColumns then Failure(ColumnLimitExceeded)
    else if !HeaderAccepted(records[0]) then Failure(UnsupportedCsvSchema)
    else
      var table :- AddRows(records[0], records[1..], limits, reader);
      if tokens.failure.Some? then Failure(tokens.failure.value)
      else if table.rowCount == 0 then Failure(UnsupportedCsvSchema)
      else Success(table)
  }

  /** A scan of the text by quote parity comes first; what the tokenizer then yields is checked again row by row. */
  function ParseCsv(text: string, limits: Limits, reader: Reader): (r: Result<Table, LoadError>)
    ensures r.Success? ==> |r.value.timestamps| > 0 && |r.value.columns| == |r.value.header| - 1
  {
    if TooWide(text, limits.maxColumns) then Failure(ColumnLimitExceeded)
    else ParseTokens(reader.csv(text), limits, reader)
  }

  // ----- the width of logical records -----

  /** Inside quotes: an odd number of quotes came before. */
  predicate Quoted(text: string, i: nat)
    requires i <= |text|
  {
    i > 0 && (if text[i - 1] == '"' then !Quoted(text, i - 1) else Quoted(text, i - 1))
  }

  predicate IsSeparator(text: string, i: nat)
    requires i < |text|
  {
    text[i] == ',' && !Quoted(text, i)
  }

  predicate IsBreak(text: string, i: nat)
    requires i < |text|
  {
    (text[i] == '\r' || text[i] == '\n') && !Quoted(text, i)
  }

  /** Columns of the logical record that the first `i` characters end in. */
  function Columns(text: string, i: nat): nat
    requires i <= |text|
  {
    if i == 0 || IsBreak(text, i - 1) then 1
    else Columns(text, i - 1) + if IsSeparator(text, i - 1) then 1 else 0
  }

  /** Some separator opens a column beyond the limit. */
  predicate TooWide(text: string, limit: int) {
    exists i :: 0 <= i < |text| && IsSeparator(text, i) && Columns(text, i + 1) > limit
  }

  method ValidateRecordWidth(text: string, limit: int) returns (accepted: bool)
    ensures accepted <==> !TooWide(text, limit)
  {
    var inQuotes, columns, index := false, 1, 0;
    while index < |text|
      invariant index <= |text| && inQuotes == Quoted(text, index) && columns == Columns(text, index)
      invariant forall i :: 0 <= i < index && IsSeparator(text, i) ==> Columns(text, i + 1) <= limit
    {
      var character := text[index];
      if character == '"' {
        if inQuotes && index + 1 < |text| && text[index + 1] == '"' {
          assert Columns(text, index + 1) == Columns(text, index);
          assert Columns(text, index + 2) == Columns(text, index + 1);
          index := index + 2;
          continue;
        }
        inQuotes := !inQuotes;
      } else if character == ',' && !inQuotes {
        columns := columns + 1;
        if columns > limit {
          assert IsSeparator(text, index);
          return false;
        }
      } else if (character == '\r' || character == '\n') && !inQuotes {
        columns := 1;
        if character == '\r' && index + 1 < |text| && text[index + 1] == '\n' {
          assert IsBreak(text, index + 1);
          index := index + 1;
        }
      }
      index := index + 1;
    }
    return true;
  }

  /** Once a row is rejected, so is every longer input. */
  lemma {:induction false} RejectionSticks(header: seq<string>, rows: seq<seq<string>>, k: nat, limits: Limits,
                                           reader: Reader)
    requires |header| >= 1 && k <= |rows| && AddRows(header, rows[..k], limits, reader).Failure?
    ensures AddRows(header, rows, limits, reader) == AddRows(header, rows[..k], limits, reader)
    decreases |rows| - k
  {
    hide AddRow;
    if k == |rows| {
      assert rows[..k] == rows;
    } else {
      assert rows[..k + 1][..k] == rows[..k];
      RejectionSticks(header, rows, k + 1, limits, reader);
    }
  }

  method ParseMetricCsv(text: string, limits: Limits, reader: Reader) returns (r: Result<Table, LoadError>)
    ensures r == ParseCsv(text, limits, reader)
  {
    hide TooWide, ParseTokens;
    var accepted := ValidateRecordWidth(text, limits.maxColumns);
    if !accepted {
      return Failure(ColumnLimitExceeded);
    }
    r := ReadTokens(reader.csv(text), limits, reader);
  }

  method ReadTokens(tokens: Tokens, limits: Limits, reader: Reader) returns (r: Result<Table, LoadError>)
    ensures r == ParseTokens(tokens, limits, reader)
  {
    hide AddRow, AddRows;
    var records := tokens.records;
    if records == [] {
      return Failure(if tokens.failure.Some? then tokens.failure.value else UnsupportedCsvSchema);
    }
    var header := records[0];
    if |header| > limits.maxColumns {
      return Failure(ColumnLimitExceeded);
    }
    if !HeaderAccepted(header) {
      return Failure(UnsupportedCsvSchema);
    }
    var rows := records[1..];
    var table := Start(header);
    StartsEmpty(header, limits, reader);
    for k := 0 to |rows|
      invariant AddRows(header, rows[..k], limits, reader) == Success(table)
    {
      AddRowsNext(header, rows, k, limits, reader);
      var next := ReadRow(table, rows[k], limits, reader);
      if next.Failure? {
        RejectionSticks(header, rows, k + 1, limits, reader);
        return next;
      }
      table := next.value;
    }
    assert rows[..|rows|] == rows;
    if tokens.failure.Some? {
      return Failure(tokens.failure.value);
    }
    if table.rowCount == 0 {
      return Failure(UnsupportedCsvSchema);
    }
    return Success(table);
  }

  lemma StartsEmpty(header: seq<string>, limits: Limits, reader: Reader)
    requires |header| >= 1
    ensures AddRows(header, [], limits, reader) == Success(Start(header))
  {
  }

  lemma AddRowsNext(header: seq<string>, rows: seq<seq<string>>, k: nat, limits: Limits, reader: Reader)
    requires |header| >= 1 && k < |rows| && AddRows(header, rows[..k], limits, reader).Success?
    ensures AddRows(header, rows[..k + 1], limits, reader)
            == AddRow(AddRows(header, rows[..k], limits, reader).value, rows[k], limits, reader)
  {
    hide AddRow;
    assert rows[..k + 1][..k] == rows[..k];
  }

  /** Reads one row cell by cell. */
  method ReadRow(table: Table, row: seq<string>, limits: Limits, reader: Reader) returns (r: Result<Table, LoadError>)
    requires |table.columns| == |table.header| - 1
    ensures r == AddRow(table, row, limits, reader)
  {
    hide RowTime, CellValue, CellsRead, CellsReadable, Extended, Gaps;
    var at := RowTime(table, row, limits, reader);
    if at.Failure? {
      return Failure(at.error);
    }
    AcceptedWidth(table, row, limits, reader);
    var cells := row[1..];
    var columns, dropped := table.columns, table.dropped;
    NoCellsRead(table, cells, at.value, reader);
    for c := 0 to |cells|
      invariant |columns| == |cells|
      invariant CellsRead(table, cells, c, at.value, reader, columns, dropped)
    {
      var cell := CellValue(cells[c], reader);
      if cell.Failure? {
        CellFailure(cells, c, reader);
        return Failure(cell.error);
      }
      CellReadStep(table, cells, c, at.value, reader, columns, dropped);
      if cell.value.None? {
        dropped := dropped + 1;
      } else {
        columns := columns[c := columns[c] + [Point(at.value, cell.value.value)]];
      }
    }
    AllCellsRead(table, cells, at.value, reader, columns, dropped);
    return Success(Table(table.header, table.timestamps + [at.value], columns, table.rowCount + 1, dropped));
  }

  /** What the cell loop holds once the first `c` cells are read. */
  ghost predicate CellsRead(table: Table, cells: seq<string>, c: nat, at: Instant, reader: Reader,
                            columns: seq<seq<Point>>, dropped: nat)
  {
    && c <= |cells| == |columns| == |table.columns| && CellsReadable(cells[..c], reader)
    && columns == Extended(table.columns[..c], cells[..c], at, reader) + table.columns[c..]
    && dropped == table.dropped + Gaps(cells[..c], reader)
  }

  lemma NoCellsRead(table: Table, cells: seq<string>, at: Instant, reader: Reader)
    requires |cells| == |table.columns|
    ensures CellsRead(table, cells, 0, at, reader, table.columns, table.dropped)
  {
    assert Extended([], [], at, reader) == [];
  }

  lemma AllCellsRead(table: Table, cells: seq<string>, at: Instant, reader: Reader,
                     columns: seq<seq<Point>>, dropped: nat)
    requires CellsRead(table, cells, |cells|, at, reader, columns, dropped)
    ensures CellsReadable(cells, reader) && columns == Extended(table.columns, cells, at, reader)
    ensures dropped == table.dropped + Gaps(cells, reader)
  {
    assert cells[..|cells|] == cells && table.columns[..|cells|] == table.columns;
  }

  lemma CellReadStep(table: Table, cells: seq<string>, c: nat, at: Instant, reader: Reader,
                     columns: seq<seq<Point>>, dropped: nat)
    requires c < |cells| && CellsRead(table, cells, c, at, reader, columns, dropped)
    requires CellValue(cells[c], reader).Success?
    ensures var cell := CellValue(cells[c], reader).value;
            CellsRead(table, cells, c + 1, at, reader,
                      if cell.None? then columns else columns[c := columns[c] + [Point(at, cell.value)]],
                      if cell.None? then dropped + 1 else dropped)
  {
    hide CellValue;
    var cell := CellValue(cells[c], reader).value;
    assert cells[..c + 1][..c] == cells[..c] && cells[..c + 1][c] == cells[c];
    var before, after := Extended(table.columns[..c], cells[..c], at, reader),
                         Extended(table.columns[..c + 1], cells[..c + 1], at, reader);
    assert after == before + [ExtendedBy(table.columns[c], cell, at)];
    assert columns[c] == table.columns[c];
    assert columns[c := ExtendedBy(columns[c], cell, at)] == after + table.columns[c + 1..];
  }

  lemma AcceptedWidth(table: Table, row: seq<string>, limits: Limits, reader: Reader)
    requires RowTime(table, row, limits, reader).Success?
    ensures |row| == |table.header| > 0
    ensures |table.timestamps| > 0 ==>
      table.timestamps[|table.timestamps| - 1] < RowTime(table, row, limits, reader).value
  {
  }

  lemma CellFailure(cells: seq<string>, c: nat, reader: Reader)
    requires c < |cells| && CellValue(cells[c], reader).Failure?
    ensures CellValue(cells[c], reader).error == InvalidNumber && !CellsReadable(cells, reader)
  {
  }

  // ----- conservation -----

  lemma {:induction false} ExtensionAccounts(columns: seq<seq<Point>>, cells: seq<string>, at: Instant, reader: Reader)
    requires |cells| == |columns| && CellsReadable(cells, reader)
    ensures TotalPoints(Extended(columns, cells, at, reader)) + Gaps(cells, reader) == TotalPoints(columns) + |columns|
    decreases |columns|
  {
    hide CellValue;
    if columns != [] {
      var n := |columns| - 1;
      var r := Extended(columns, cells, at, reader);
      assert r[..n] == Extended(columns[..n], cells[..n], at, reader);
      ExtensionAccounts(columns[..n], cells[..n], at, reader);
    }
  }

  lemma AddRowStaysOrdered(table: Table, at: Instant, cells: seq<string>, reader: Reader, c: nat)
    requires WellFormed(table) && |cells| == |table.columns| && CellsReadable(cells, reader) && c < |cells|
    requires |table.timestamps| > 0 ==> table.timestamps[|table.timestamps| - 1] < at
    ensures var column := Extended(table.columns, cells, at, reader)[c];
            Ordered(column) && Within(column, table.timestamps + [at])
  {
    hide TotalPoints, CellValue;
    var column := table.columns[c];
    assert Ordered(column) && Within(column, table.timestamps);
    var after := table.timestamps + [at];
    forall i | 0 <= i < |column|
      ensures column[i].observedAt < at && column[i].observedAt in after
    {
      assert column[i].observedAt in table.timestamps;
      var k :| 0 <= k < |table.timestamps| && table.timestamps[k] == column[i].observedAt;
      assert after[k] == column[i].observedAt;
    }
    assert after[|table.timestamps|] == at;
  }

  lemma AddRowKeepsForm(table: Table, row: seq<string>, limits: Limits, reader: Reader)
    requires WellFormed(table) && AddRow(table, row, limits, reader).Success?
    ensures WellFormed(AddRow(table, row, limits, reader).value)
  {
    hide RowTime, CellValue, TotalPoints, Gaps;
    AcceptedWidth(table, row, limits, reader);
    var at, cells := RowTime(table, row, limits, reader).value, row[1..];
    var next := AddRow(table, row, limits, reader).value;
    ExtensionAccounts(table.columns, cells, at, reader);
    assert next.rowCount * |table.columns| == table.rowCount * |table.columns| + |table.columns|;
    forall c | 0 <= c < |next.columns|
      ensures Ordered(next.columns[c]) && Within(next.columns[c], next.timestamps)
    {
      AddRowStaysOrdered(table, at, cells, reader, c);
    }
  }

  lemma {:induction false} StartAccounts(columns: seq<seq<Point>>)
    requires forall c :: 0 <= c < |columns| ==> columns[c] == []
    ensures TotalPoints(columns) == 0
  {
    if columns != [] {
      StartAccounts(columns[..|columns| - 1]);
    }
  }

  lemma {:induction false} AddRowsKeepForm(header: seq<string>, rows: seq<seq<string>>, limits: Limits, reader: Reader)
    requires |header| >= 1 && AddRows(header, rows, limits, reader).Success?
    ensures WellFormed(AddRows(header, rows, limits, reader).value)
    ensures AddRows(header, rows, limits, reader).value.rowCount == |rows|
    decreases |rows|
  {
    hide TotalPoints;
    if rows == [] {
      StartAccounts(Start(header).columns);
    } else {
      var front := rows[..|rows| - 1];
      AddRowsKeepForm(header, front, limits, reader);
      AddRowKeepsForm(AddRows(header, front, limits, reader).value, rows[|rows| - 1], limits, reader);
    }
  }

  // ----- the case -----

  datatype Case = Case(window: Window, signals: seq<Signal>, rowCount: nat, columnCount: nat, dropped: nat)

  function SignalsOf(names: seq<string>, columns: seq<seq<Point>>): (r: seq<Signal>)
    requires |names| == |columns|
    ensures |r| == |names| && forall i :: 0 <= i < |r| ==> r[i] == Signal(names[i], columns[i])
  {
    seq(|names|, i requires 0 <= i < |names| => Signal(names[i], columns[i]))
  }

  /** The case spans its own rows; the window ends one microsecond after the last of them. */
  function ParseCase(text: string, injectionText: string, limits: Limits, reader: Reader): Result<Case, LoadError>
  {
    match ParseCsv(text, limits, reader)
    case Failure(e) => Failure(e)
    case Success(table) =>
      match reader.time(injectionText)
      case None => Failure(InvalidTimestamp)
      case Some(injection) =>
        var end := table.timestamps[|table.timestamps| - 1] + 1;
        var window := Window(table.timestamps[0], injection, end);
        var signals := SignalsOf(table.header[1..], table.columns);
        if !Timestamps.Representable(end) || !window.Valid()
           || exists i :: 0 <= i < |signals| && !NonBlank(signals[i].key) then Failure(InvalidTimestamp)
        else Success(Case(window, signals, table.rowCount, |table.header|, table.dropped))
  }

  function PointCount(signals: seq<Signal>): nat {
    if signals == [] then 0 else PointCount(signals[..|signals| - 1]) + |signals[|signals| - 1].points|
  }

  lemma {:induction false} PointCountIsTotal(names: seq<string>, columns: seq<seq<Point>>)
    requires |names| == |columns|
    ensures PointCount(SignalsOf(names, columns)) == TotalPoints(columns)
    decreases |names|
  {
    if names != [] {
      var n := |names| - 1;
      assert SignalsOf(names, columns)[..n] == SignalsOf(names[..n], columns[..n]);
      PointCountIsTotal(names[..n], columns[..n]);
    }
  }

  /** Points inside the window are counted on exactly one side of the injection. */
  lemma {:induction false} PointsSplit(points: seq<Point>, window: Window)
    requires window.Valid() && forall i :: 0 <= i < |points| ==> window.start <= points[i].observedAt < window.end
    ensures |ValuesBetween(points, window.start, window.injection)|
            + |ValuesBetween(points, window.injection, window.end)|
            == |points|
  {
    if points != [] {
      PointsSplit(points[1..], window);
    }
  }

  lemma CaseTable(text: string, injectionText: string, limits: Limits, reader: Reader)
    requires ParseCase(text, injectionText, limits, reader).Success?
    ensures var table, records := ParseCsv(text, limits, reader), reader.csv(text).records;
            && table.Success? && WellFormed(table.value)
            && |table.value.timestamps| > 0 && HeaderAccepted(table.value.header)
            && table.value.rowCount == |records| - 1
  {
    hide AddRows, WellFormed, TooWide;
    var records := reader.csv(text).records;
    AddRowsKeepForm(records[0], records[1..], limits, reader);
  }

  lemma PointsInWindow(t: Table, c: nat, i: nat)
    requires WellFormed(t) && |t.timestamps| > 0 && c < |t.columns| && i < |t.columns[c]|
    ensures t.timestamps[0] <= t.columns[c][i].observedAt < t.timestamps[|t.timestamps| - 1] + 1
  {
    hide TotalPoints;
    assert Within(t.columns[c], t.timestamps);
    var k :| 0 <= k < |t.timestamps| && t.timestamps[k] == t.columns[c][i].observedAt;
  }

  /**
   * Cell conservation: in every parsed case the retained points plus the dropped cells are
   * rows times metric columns; every signal is valid and uniquely named; and in the case's
   * own window each retained point is counted on exactly one side of the injection.
   */
  lemma CellsAreConserved(text: string, injectionText: string, limits: Limits, reader: Reader)
    requires ParseCase(text, injectionText, limits, reader).Success?
    ensures var k, records := ParseCase(text, injectionText, limits, reader).value, reader.csv(text).records;
            && k.rowCount == |records| - 1 && k.columnCount == |records[0]|
            && PointCount(k.signals) + k.dropped == k.rowCount * (k.columnCount - 1)
            && k.window.Valid()
            && (forall i :: 0 <= i < |k.signals| ==> k.signals[i].Valid())
            && (forall i, j :: 0 <= i < j < |k.signals| ==> k.signals[i].key != k.signals[j].key)
            && (forall i :: 0 <= i < |k.signals| ==>
                  |PreValues(k.window, k.signals[i])| + |PostValues(k.window, k.signals[i])| == |k.signals[i].points|)
  {
    hide AddRows, TotalPoints, ValuesBetween, NonBlank, PointCount, TooWide, ParseTokens;
    CaseTable(text, injectionText, limits, reader);
    var t, k := ParseCsv(text, limits, reader).value, ParseCase(text, injectionText, limits, reader).value;
    PointCountIsTotal(t.header[1..], t.columns);
    forall i | 0 <= i < |k.signals|
      ensures k.signals[i].Valid()
      ensures |PreValues(k.window, k.signals[i])| + |PostValues(k.window, k.signals[i])| == |k.signals[i].points|
    {
      assert k.signals[i] == Signal(t.header[1..][i], t.columns[i]);
      assert Ordered(t.columns[i]);
      forall p | 0 <= p < |t.columns[i]|
        ensures k.window.start <= t.columns[i][p].observedAt < k.window.end
      {
        PointsInWindow(t, i, p);
      }
      PointsSplit(t.columns[i], k.window);
    }
    CsvHeader(text, limits, reader);
    forall i, j | 0 <= i < j < |k.signals|
      ensures k.signals[i].key != k.signals[j].key
    {
      assert t.header[i + 1] != t.header[j + 1];
    }
  }

  lemma CsvHeader(text: string, limits: Limits, reader: Reader)
    requires ParseCsv(text, limits, reader).Success?
    ensures var records := reader.csv(text).records;
            records != [] && ParseCsv(text, limits, reader).value.header == records[0]
  {
    hide TooWide, AddRows;
  }

  // ----- which cell becomes which point -----

  /** The points a column should hold, read straight from the rows. */
  function ColumnPoints(rows: seq<seq<string>>, c: nat, reader: Reader): seq<Point> {
    if rows == [] then [] else ColumnPoints(rows[..|rows| - 1], c, reader) + CellPoint(rows[|rows| - 1], c, reader)
  }

  function CellPoint(row: seq<string>, c: nat, reader: Reader): seq<Point> {
    if c >= |row| || reader.time(row[0]).None? then []
    else
      match CellValue(row[c], reader)
      case Failure(_) => []
      case Success(None) => []
      case Success(Some(value)) => [Point(reader.time(row[0]).value, value)]
  }

  lemma {:induction false} ColumnsHoldTheirCells(header: seq<string>, rows: seq<seq<string>>, limits: Limits,
                                                 reader: Reader, c: nat)
    requires |header| >= 1 && AddRows(header, rows, limits, reader).Success? && c < |header| - 1
    ensures AddRows(header, rows, limits, reader).value.columns[c] == ColumnPoints(rows, c + 1, reader)
    decreases |rows|
  {
    hide CellValue, Gaps;
    if rows != [] {
      var front, row := rows[..|rows| - 1], rows[|rows| - 1];
      ColumnsHoldTheirCells(header, front, limits, reader, c);
      AcceptedWidth(AddRows(header, front, limits, reader).value, row, limits, reader);
      assert row[1..][c] == row[c + 1];
    }
  }

  /** Every signal of a parsed case is a header name with exactly the readable cells under it, at their rows' times. */
  lemma SignalsHoldTheirCells(text: string, injectionText: string, limits: Limits, reader: Reader)
    requires ParseCase(text, injectionText, limits, reader).Success?
    ensures var k, records := ParseCase(text, injectionText, limits, reader).value, reader.csv(text).records;
            && |k.signals| == |records[0]| - 1
            && forall c :: 0 <= c < |k.signals| ==>
                 k.signals[c] == Signal(records[0][c + 1], ColumnPoints(records[1..], c + 1, reader))
  {
    hide AddRows, ColumnPoints, TooWide;
    CsvHeader(text, limits, reader);
    var k, records := ParseCase(text, injectionText, limits, reader).value, reader.csv(text).records;
    forall c | 0 <= c < |k.signals|
      ensures k.signals[c] == Signal(records[0][c + 1], ColumnPoints(records[1..], c + 1, reader))
    {
      ColumnsHoldTheirCells(records[0], records[1..], limits, reader, c);
    }
  }

  /** A parsed case never trips the baseline's duplicate-signal check. */
  lemma ParsedCaseRanks(text: string, injectionText: string, limits: Limits, reader: Reader,
                        inputs: seq<SignalInput>, policy: Policy)
    requires ParseCase(text, injectionText, limits, reader).Success? && policy.Valid()
    requires var k := ParseCase(text, injectionText, limits, reader).value;
             |inputs| == |k.signals|
             && forall i :: 0 <= i < |inputs| ==> inputs[i].signal == k.signals[i] && inputs[i].absoluteFloor > 0.0
    ensures ValidInputs(inputs)
    ensures Rank(ParseCase(text, injectionText, limits, reader).value.window, inputs, policy).Success?
  {
    hide ParseCase, PointCount, ValuesBetween, NonBlank;
    CellsAreConserved(text, injectionText, limits, reader);
    var k := ParseCase(text, injectionText, limits, reader).value;
    forall i, j | 0 <= i < j < |inputs|
      ensures InputKeys(inputs)[i] != InputKeys(inputs)[j]
    {
      assert k.signals[i].key != k.signals[j].key;
    }
  }

  // ----- blank headers -----

  /** Everything about the times of a case is in order. */
  ghost predicate TimesInOrder(text: string, injectionText: string, limits: Limits, reader: Reader) {
    && ParseCsv(text, limits, reader).Success? && reader.time(injectionText).Some?
    && var t := ParseCsv(text, limits, reader).value;
    && var end := t.timestamps[|t.timestamps| - 1] + 1;
    && Timestamps.Representable(end) && Window(t.timestamps[0], reader.time(injectionText).value, end).Valid()
  }

  predicate HasBlankName(header: seq<string>) {
    exists c :: 1 <= c < |header| && !NonBlank(header[c])
  }

  /**
   * With every time in order a case is still rejected for its timestamps, exactly when a metric
   * header is blank without being empty.
   */
  lemma BlankHeaderIsAnInvalidTimestamp(text: string, injectionText: string, limits: Limits, reader: Reader)
    requires TimesInOrder(text, injectionText, limits, reader)
    ensures reader.csv(text).records != []
    ensures ParseCase(text, injectionText, limits, reader).Failure? <==> HasBlankName(reader.csv(text).records[0])
    ensures ParseCase(text, injectionText, limits, reader).Failure?
      ==> ParseCase(text, injectionText, limits, reader) == Failure(InvalidTimestamp)
  {
    hide ParseCsv, NonBlank;
    CsvHeader(text, limits, reader);
    var header, t := reader.csv(text).records[0], ParseCsv(text, limits, reader).value;
    var signals := SignalsOf(t.header[1..], t.columns);
    if c :| 1 <= c < |header| && !NonBlank(header[c]) {
      assert signals[c - 1].key == header[c];
    }
    if i :| 0 <= i < |signals| && !NonBlank(signals[i].key) {
      assert signals[i].key == header[i + 1];
    }
  }

  lemma {:induction false} ColumnsFitText(text: string, i: nat)
    requires i <= |text|
    ensures Columns(text, i) <= i + 1
  {
    if i > 0 {
      ColumnsFitText(text, i - 1);
    }
  }

  /** One data row under a blank metric name is such a case. */
  lemma BlankHeaderExample()
    ensures var text, tokens := "time, \n0,1", Tokens([["time", " "], ["0", "1"]], None);
            var reader := Reader(_ => tokens, _ => Some(0), _ => Number(1.0));
            && TimesInOrder(text, "0", Limits(1, 12), reader)
            && ParseCase(text, "0", Limits(1, 12), reader) == Failure(InvalidTimestamp)
  {
    hide TooWide, Columns;
    var text, tokens := "time, \n0,1", Tokens([["time", " "], ["0", "1"]], None);
    var reader, limits := Reader(_ => tokens, _ => Some(0), _ => Number(1.0)), Limits(1, 12);
    var header, rows := tokens.records[0], tokens.records[1..];
    NarrowText(text, 12);
    assert "time"[0] != " "[0];
    StartsEmpty(header, limits, reader);
    assert rows[..0] == [] && rows[..1] == rows;
    AddRowsNext(header, rows, 0, limits, reader);
    assert !NonBlank(header[1]);
    BlankHeaderIsAnInvalidTimestamp(text, "0", limits, reader);
  }

  lemma NarrowText(text: string, limit: int)
    requires |text| < limit
    ensures !TooWide(text, limit)
  {
    forall i | 0 <= i < |text| && IsSeparator(text, i)
      ensures Columns(text, i + 1) <= limit
    {
      ColumnsFitText(text, i + 1);
    }
  }
}
