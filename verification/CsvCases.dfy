/** What a parsed case says of the texts it was read from, and exactly which texts parse. */
module CsvCases {
  import opened Prelude
  import opened Text
  import opened Domain
  import opened Baseline
  import opened CsvLoader
  import RawPoints
  import Timestamps

  // ----- cells -----

  /** A cell that is not empty and reads as a finite number. */
  predicate HoldsNumber(raw: string, reader: Reader) {
    raw != "" && reader.number(raw).Number?
  }

  /** A cell that is not empty and does not read as a number at all. */
  predicate HoldsJunk(raw: string, reader: Reader) {
    raw != "" && reader.number(raw).NotNumeric?
  }

  /** The time of a row, for rows that have one. */
  function TimeOf(row: seq<string>, reader: Reader): Instant {
    if |row| > 0 && reader.time(row[0]).Some? then reader.time(row[0]).value else 0
  }

  // ----- which rows are read -----

  /** Every row is as wide as the header and within the limits, has a later time than the one before, and no junk. */
  ghost predicate RowsReadable(header: seq<string>, rows: seq<seq<string>>, limits: Limits, reader: Reader) {
    forall r :: 0 <= r < |rows| ==> RowReadable(header, rows, r, limits, reader)
  }

  ghost predicate RowReadable(header: seq<string>, rows: seq<seq<string>>, r: nat, limits: Limits, reader: Reader)
    requires r < |rows|
  {
    && |rows[r]| == |header| && |rows[r]| <= limits.maxColumns && r + 1 <= limits.maxDataRows
    && |rows[r]| > 0 && reader.time(rows[r][0]).Some?
    && (r > 0 ==> TimeOf(rows[r - 1], reader) < TimeOf(rows[r], reader))
    && forall c :: 1 <= c < |rows[r]| ==> !HoldsJunk(rows[r][c], reader)
  }

  /** The table of readable rows: their times, and so many of them. */
  ghost predicate TimesOfRows(t: Table, rows: seq<seq<string>>, reader: Reader) {
    && t.rowCount == |rows| == |t.timestamps|
    && forall r :: 0 <= r < |rows| ==> t.timestamps[r] == TimeOf(rows[r], reader)
  }

  lemma CellsHoldNoJunk(row: seq<string>, reader: Reader)
    requires |row| > 0
    ensures CellsReadable(row[1..], reader) <==> forall c :: 1 <= c < |row| ==> !HoldsJunk(row[c], reader)
  {
    var cells := row[1..];
    if CellsReadable(cells, reader) {
      forall c | 1 <= c < |row|
        ensures !HoldsJunk(row[c], reader)
      {
        assert cells[c - 1] == row[c];
      }
    }
  }

  lemma {:induction false} RowsAreRead(header: seq<string>, rows: seq<seq<string>>, limits: Limits, reader: Reader)
    requires |header| >= 1
    ensures AddRows(header, rows, limits, reader).Success? <==> RowsReadable(header, rows, limits, reader)
    ensures AddRows(header, rows, limits, reader).Success? ==>
      TimesOfRows(AddRows(header, rows, limits, reader).value, rows, reader)
    decreases |rows|
  {
    hide Extended, Gaps, CellsReadable, HoldsJunk;
    if rows != [] {
      var n := |rows| - 1;
      var front := rows[..n];
      RowsAreRead(header, front, limits, reader);
      FrontReadable(header, rows, limits, reader);
      if AddRows(header, front, limits, reader).Success? && |rows[n]| > 0 {
        CellsHoldNoJunk(rows[n], reader);
      }
    }
  }

  lemma FrontReadable(header: seq<string>, rows: seq<seq<string>>, limits: Limits, reader: Reader)
    requires rows != []
    ensures RowsReadable(header, rows, limits, reader)
      <==> RowsReadable(header, rows[..|rows| - 1], limits, reader)
           && RowReadable(header, rows, |rows| - 1, limits, reader)
  {
    hide HoldsJunk, TimeOf;
    var front := rows[..|rows| - 1];
    forall r | 0 <= r < |front|
      ensures RowReadable(header, front, r, limits, reader) <==> RowReadable(header, rows, r, limits, reader)
    {
      assert front[r] == rows[r];
      assert r > 0 ==> front[r - 1] == rows[r - 1];
    }
  }

  // ----- exactly which texts parse -----

  /** A header with a time column and at least one metric, all different and none empty. */
  predicate HeaderSays(header: seq<string>) {
    && |header| >= 2 && header[0] == "time"
    && (forall c :: 0 <= c < |header| ==> header[c] != "")
    && (forall c, d :: 0 <= c < d < |header| ==> header[c] != header[d])
  }

  /** The table reads: narrow enough, a proper header, at least one row, all readable, and no tokenizer error. */
  ghost predicate TextReads(text: string, limits: Limits, reader: Reader) {
    && !TooWide(text, limits.maxColumns)
    && var tokens := reader.csv(text);
    && tokens.failure.None? && |tokens.records| >= 2
    && |tokens.records[0]| <= limits.maxColumns && HeaderSays(tokens.records[0])
    && RowsReadable(tokens.records[0], tokens.records[1..], limits, reader)
  }

  lemma TableParsesIff(text: string, limits: Limits, reader: Reader)
    ensures ParseCsv(text, limits, reader).Success? <==> TextReads(text, limits, reader)
    ensures ParseCsv(text, limits, reader).Success? ==>
      var t, records := ParseCsv(text, limits, reader).value, reader.csv(text).records;
      t.header == records[0] && TimesOfRows(t, records[1..], reader)
  {
    hide AddRows, TooWide, RowsReadable;
    var tokens := reader.csv(text);
    if tokens.records != [] && HeaderAccepted(tokens.records[0]) {
      RowsAreRead(tokens.records[0], tokens.records[1..], limits, reader);
    }
  }

  /**
   * Exactly which texts make a case: the table reads, the injection reads and lies in the window of the rows, the
   * instant after the last row can be represented, and no metric name is blank.
   */
  lemma CaseParsesIff(text: string, injectionText: string, limits: Limits, reader: Reader)
    ensures ParseCase(text, injectionText, limits, reader).Success?
      <==> && TextReads(text, limits, reader) && reader.time(injectionText).Some?
           && var rows, header := reader.csv(text).records[1..], reader.csv(text).records[0];
           && var first, last := TimeOf(rows[0], reader), TimeOf(rows[|rows| - 1], reader);
           && Timestamps.Representable(last + 1) && first <= reader.time(injectionText).value < last + 1
           && forall c :: 1 <= c < |header| ==> NonBlank(header[c])
  {
    hide ParseCsv, TextReads, NonBlank, TimeOf, Timestamps.Representable;
    TableParsesIff(text, limits, reader);
    if TextReads(text, limits, reader) {
      EnoughRecords(text, limits, reader);
      NamesOfSignals(text, limits, reader);
    }
  }

  lemma EnoughRecords(text: string, limits: Limits, reader: Reader)
    requires TextReads(text, limits, reader)
    ensures |reader.csv(text).records| >= 2
  {
    hide TooWide, RowsReadable;
  }

  lemma NamesOfSignals(text: string, limits: Limits, reader: Reader)
    requires ParseCsv(text, limits, reader).Success? && reader.csv(text).records != []
    requires ParseCsv(text, limits, reader).value.header == reader.csv(text).records[0]
    ensures var t, header := ParseCsv(text, limits, reader).value, reader.csv(text).records[0];
            var signals := SignalsOf(t.header[1..], t.columns);
            (exists i :: 0 <= i < |signals| && !NonBlank(signals[i].key))
            <==> !(forall c :: 1 <= c < |header| ==> NonBlank(header[c]))
  {
    hide ParseCsv, NonBlank;
    var t, header := ParseCsv(text, limits, reader).value, reader.csv(text).records[0];
    var signals := SignalsOf(t.header[1..], t.columns);
    if c :| 1 <= c < |header| && !NonBlank(header[c]) {
      assert signals[c - 1].key == header[c];
    }
    if i :| 0 <= i < |signals| && !NonBlank(signals[i].key) {
      assert signals[i].key == header[i + 1];
    }
  }

  // ----- what a case says -----

  /**
   * The window of a case, read off its texts: it starts at the time of the first row, has the injection that was
   * given, and ends one microsecond after the time of the last row.
   */
  lemma CaseWindow(text: string, injectionText: string, limits: Limits, reader: Reader)
    requires ParseCase(text, injectionText, limits, reader).Success?
    ensures var k, rows := ParseCase(text, injectionText, limits, reader).value, reader.csv(text).records[1..];
            && |rows| > 0 && |rows[0]| > 0 && |rows[|rows| - 1]| > 0
            && reader.time(rows[0][0]) == Some(k.window.start)
            && reader.time(injectionText) == Some(k.window.injection)
            && reader.time(rows[|rows| - 1][0]) == Some(k.window.end - 1)
            && k.rowCount == |rows| && k.columnCount == |reader.csv(text).records[0]|
  {
    hide ParseCsv, NonBlank, Timestamps.Representable, TooWide, HoldsJunk;
    TableParsesIff(text, limits, reader);
    var header, rows := reader.csv(text).records[0], reader.csv(text).records[1..];
    assert RowReadable(header, rows, 0, limits, reader) && RowReadable(header, rows, |rows| - 1, limits, reader);
  }

  /** The rows whose cell in column `c` holds a number, at a time in `[from, until)`. */
  function Observing(rows: seq<seq<string>>, c: nat, reader: Reader, from: Instant, until: Instant): set<nat> {
    set r | 0 <= r < |rows| && c < |rows[r]| && HoldsNumber(rows[r][c], reader)
            && from <= TimeOf(rows[r], reader) < until
  }

  lemma {:induction false} ColumnCounts(rows: seq<seq<string>>, c: nat, reader: Reader, from: Instant, until: Instant)
    requires forall r :: 0 <= r < |rows| ==> |rows[r]| > 0 && reader.time(rows[r][0]).Some?
    ensures |ValuesBetween(ColumnPoints(rows, c, reader), from, until)| == |Observing(rows, c, reader, from, until)|
    decreases |rows|
  {
    hide ValuesBetween;
    if rows == [] {
      RawPoints.ValuesAreCounted([], from, until, 0.0);
      assert RawPoints.Between([], from, until) == {} && Observing(rows, c, reader, from, until) == {};
    } else {
      var n := |rows| - 1;
      var front := rows[..n];
      ColumnCounts(front, c, reader, from, until);
      CellCounts(ColumnPoints(front, c, reader), rows[n], c, reader, from, until);
      ObservingLast(rows, c, reader, from, until);
    }
  }

  lemma ObservingLast(rows: seq<seq<string>>, c: nat, reader: Reader, from: Instant, until: Instant)
    requires rows != []
    ensures var n := |rows| - 1;
            |Observing(rows, c, reader, from, until)| == |Observing(rows[..n], c, reader, from, until)|
              + if c < |rows[n]| && HoldsNumber(rows[n][c], reader) && from <= TimeOf(rows[n], reader) < until
                then 1 else 0
  {
    hide HoldsNumber, TimeOf;
    var n := |rows| - 1;
    assert Observing(rows, c, reader, from, until) == Observing(rows[..n], c, reader, from, until)
      + if c < |rows[n]| && HoldsNumber(rows[n][c], reader) && from <= TimeOf(rows[n], reader) < until
        then {n} else {};
  }

  lemma CellCounts(points: seq<Point>, row: seq<string>, c: nat, reader: Reader, from: Instant, until: Instant)
    requires |row| > 0 && reader.time(row[0]).Some?
    ensures |ValuesBetween(points + CellPoint(row, c, reader), from, until)| == |ValuesBetween(points, from, until)|
              + if c < |row| && HoldsNumber(row[c], reader) && from <= TimeOf(row, reader) < until then 1 else 0
  {
    hide ValuesBetween;
    var cell := CellPoint(row, c, reader);
    if cell == [] {
      assert points + cell == points;
    } else {
      RawPoints.ValuesOfLast(points, cell[0], from, until);
      RawPoints.ValuesOfOne(cell[0], from, until);
      assert cell == [cell[0]];
    }
  }

  /** Times grow along readable rows. */
  lemma {:induction false} RowTimesGrow(header: seq<string>, rows: seq<seq<string>>, limits: Limits, reader: Reader,
                                        a: nat, b: nat)
    requires RowsReadable(header, rows, limits, reader) && a <= b < |rows|
    ensures TimeOf(rows[a], reader) <= TimeOf(rows[b], reader)
    decreases b
  {
    hide HoldsJunk, TimeOf;
    if a < b {
      RowTimesGrow(header, rows, limits, reader, a, b - 1);
      assert RowReadable(header, rows, b, limits, reader);
    }
  }

  /**
   * How many values of a signal the baseline sees on each side of the injection: as many as it has cells holding a
   * number in rows before it, and in rows at or after it.
   */
  lemma CaseCounts(text: string, injectionText: string, limits: Limits, reader: Reader, c: nat)
    requires ParseCase(text, injectionText, limits, reader).Success?
    requires c < |ParseCase(text, injectionText, limits, reader).value.signals|
    ensures var k, rows := ParseCase(text, injectionText, limits, reader).value, reader.csv(text).records[1..];
            && |PreValues(k.window, k.signals[c])|
               == |set r | 0 <= r < |rows| && c + 1 < |rows[r]| && HoldsNumber(rows[r][c + 1], reader)
                           && TimeOf(rows[r], reader) < k.window.injection|
            && |PostValues(k.window, k.signals[c])|
               == |set r | 0 <= r < |rows| && c + 1 < |rows[r]| && HoldsNumber(rows[r][c + 1], reader)
                           && k.window.injection <= TimeOf(rows[r], reader)|
  {
    hide ParseCase, ParseCsv, ValuesBetween, ColumnPoints, HoldsNumber, HoldsJunk, TooWide;
    CaseReads(text, injectionText, limits, reader);
    CaseWindow(text, injectionText, limits, reader);
    var k, rows := ParseCase(text, injectionText, limits, reader).value, reader.csv(text).records[1..];
    var header := reader.csv(text).records[0];
    SignalsHoldTheirCells(text, injectionText, limits, reader);
    forall r | 0 <= r < |rows|
      ensures |rows[r]| > 0 && reader.time(rows[r][0]).Some?
      ensures k.window.start <= TimeOf(rows[r], reader) < k.window.end
    {
      assert RowReadable(header, rows, r, limits, reader);
      RowTimesGrow(header, rows, limits, reader, 0, r);
      RowTimesGrow(header, rows, limits, reader, r, |rows| - 1);
    }
    ColumnCounts(rows, c + 1, reader, k.window.start, k.window.injection);
    ColumnCounts(rows, c + 1, reader, k.window.injection, k.window.end);
    assert Observing(rows, c + 1, reader, k.window.start, k.window.injection)
           == set r | 0 <= r < |rows| && c + 1 < |rows[r]| && HoldsNumber(rows[r][c + 1], reader)
                      && TimeOf(rows[r], reader) < k.window.injection;
    assert Observing(rows, c + 1, reader, k.window.injection, k.window.end)
           == set r | 0 <= r < |rows| && c + 1 < |rows[r]| && HoldsNumber(rows[r][c + 1], reader)
                      && k.window.injection <= TimeOf(rows[r], reader);
  }

  lemma CaseReads(text: string, injectionText: string, limits: Limits, reader: Reader)
    requires ParseCase(text, injectionText, limits, reader).Success?
    ensures reader.csv(text).records != []
    ensures RowsReadable(reader.csv(text).records[0], reader.csv(text).records[1..], limits, reader)
    ensures ParseCsv(text, limits, reader).Success?
  {
    hide ParseCsv, RowsReadable, TooWide;
    TableParsesIff(text, limits, reader);
  }

  lemma {:induction false} ColumnMembers(rows: seq<seq<string>>, c: nat, reader: Reader, p: Point)
    requires forall r :: 0 <= r < |rows| ==> |rows[r]| > 0 && reader.time(rows[r][0]).Some?
    ensures p in ColumnPoints(rows, c, reader) <==>
      exists r :: 0 <= r < |rows| && c < |rows[r]| && rows[r][c] != "" && reader.number(rows[r][c]) == Number(p.value)
                  && reader.time(rows[r][0]) == Some(p.observedAt)
    decreases |rows|
  {
    if rows != [] {
      var n := |rows| - 1;
      ColumnMembers(rows[..n], c, reader, p);
      assert p in CellPoint(rows[n], c, reader) <==>
        c < |rows[n]| && rows[n][c] != "" && reader.number(rows[n][c]) == Number(p.value)
        && reader.time(rows[n][0]) == Some(p.observedAt);
    }
  }

  /** A signal has a point exactly where a row's cell in its column is not empty and reads as that finite number. */
  lemma PointsAreNumbers(text: string, injectionText: string, limits: Limits, reader: Reader, c: nat, p: Point)
    requires ParseCase(text, injectionText, limits, reader).Success?
    requires c < |ParseCase(text, injectionText, limits, reader).value.signals|
    ensures var k, rows := ParseCase(text, injectionText, limits, reader).value, reader.csv(text).records[1..];
            p in k.signals[c].points <==>
              exists r :: 0 <= r < |rows| && c + 1 < |rows[r]| && rows[r][c + 1] != ""
                          && reader.number(rows[r][c + 1]) == Number(p.value)
                          && reader.time(rows[r][0]) == Some(p.observedAt)
  {
    hide ParseCase, ParseCsv, ColumnPoints, HoldsJunk, TimeOf;
    CaseReads(text, injectionText, limits, reader);
    SignalsHoldTheirCells(text, injectionText, limits, reader);
    var header, rows := reader.csv(text).records[0], reader.csv(text).records[1..];
    forall r | 0 <= r < |rows|
      ensures |rows[r]| > 0 && reader.time(rows[r][0]).Some?
    {
      assert RowReadable(header, rows, r, limits, reader);
    }
    ColumnMembers(rows, c + 1, reader, p);
  }

  // ----- why a text does not parse -----

  /** Why a row is not read, in the order the code asks: too wide, too many, ragged, no time, not later, junk. */
  lemma RowErrors(table: Table, row: seq<string>, limits: Limits, reader: Reader)
    requires |table.columns| == |table.header| - 1
    ensures var r, n := AddRow(table, row, limits, reader), |table.timestamps|;
            var wide, many := |row| > limits.maxColumns, table.rowCount >= limits.maxDataRows;
            var ragged := |row| != |table.header|;
            var timeless := ragged || reader.time(row[0]).None?;
            var early := timeless || (n > 0 && table.timestamps[n - 1] >= reader.time(row[0]).value);
            var junk := exists c :: 1 <= c < |row| && HoldsJunk(row[c], reader);
            && (r == Failure(ColumnLimitExceeded) <==> wide)
            && (r == Failure(RowLimitExceeded) <==> !wide && many)
            && (r == Failure(RowWidthMismatch) <==> !wide && !many && ragged)
            && (r == Failure(InvalidTimestamp) <==> !wide && !many && !ragged && timeless)
            && (r == Failure(TimestampsNotOrdered) <==> !wide && !many && !timeless && early)
            && (r == Failure(InvalidNumber) <==> !wide && !many && !early && junk)
            && (r.Success? <==> !wide && !many && !early && !junk)
  {
    hide Extended, Gaps, CellsReadable, HoldsJunk;
    if |row| > 0 {
      CellsHoldNoJunk(row, reader);
    }
  }

  /** The first row that is not read decides the error of the whole table. */
  lemma FirstBadRowDecides(header: seq<string>, rows: seq<seq<string>>, k: nat, limits: Limits, reader: Reader)
    requires |header| >= 1 && k < |rows| && AddRows(header, rows[..k], limits, reader).Success?
    requires AddRow(AddRows(header, rows[..k], limits, reader).value, rows[k], limits, reader).Failure?
    ensures AddRows(header, rows, limits, reader)
            == Failure(AddRow(AddRows(header, rows[..k], limits, reader).value, rows[k], limits, reader).error)
  {
    hide AddRow, AddRows;
    AddRowsNext(header, rows, k, limits, reader);
    RejectionSticks(header, rows, k + 1, limits, reader);
  }

  /** What the errors of a table that has no bad row mean. */
  lemma TableErrors(text: string, limits: Limits, reader: Reader)
    ensures var r, tokens := ParseCsv(text, limits, reader), reader.csv(text);
            && (TooWide(text, limits.maxColumns) ==> r == Failure(ColumnLimitExceeded))
            && (!TooWide(text, limits.maxColumns) ==>
                  && (tokens.records == [] ==> r == Failure(if tokens.failure.Some? then tokens.failure.value
                                                           else UnsupportedCsvSchema))
                  && (tokens.records != [] ==>
                        var header, rows := tokens.records[0], tokens.records[1..];
                        && (|header| > limits.maxColumns ==> r == Failure(ColumnLimitExceeded))
                        && (|header| <= limits.maxColumns && !HeaderSays(header) ==> r == Failure(UnsupportedCsvSchema))
                        && (|header| <= limits.maxColumns && HeaderSays(header) ==>
                              var read := AddRows(header, rows, limits, reader);
                              && (read.Failure? ==> r == Failure(read.error))
                              && (read.Success? && tokens.failure.Some? ==> r == Failure(tokens.failure.value))
                              && (read.Success? && tokens.failure.None? && rows == [] ==>
                                    r == Failure(UnsupportedCsvSchema)))))
  {
    hide AddRows, TooWide;
    var tokens := reader.csv(text);
    if tokens.records != [] && |tokens.records[0]| >= 1 {
      RowsAreRead(tokens.records[0], tokens.records[1..], limits, reader);
    }
  }
}
