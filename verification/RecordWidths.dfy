/** The width limit on written CSV text: what the character scan means for records of fields. */
module RecordWidths {
  import opened CsvLoader

  /** A field as it is written: bare, or between quotes with every inner quote doubled. */
  datatype Field = Bare(text: string) | Enclosed(text: string) {
    predicate Valid() {
      Bare? ==> forall i :: 0 <= i < |text| ==> text[i] != '"' && text[i] != ',' && text[i] != '\r' && text[i] != '\n'
    }

    function Written(): string {
      if Bare? then text else "\"" + Doubled(text) + "\""
    }
  }

  datatype Break = LineFeed | CarriageReturn | Both {
    function Written(): string {
      match this
      case LineFeed => "\n"
      case CarriageReturn => "\r"
      case Both => "\r\n"
    }
  }

  datatype Record = Record(fields: seq<Field>, end: Break) {
    predicate Valid() {
      |fields| >= 1 && forall i :: 0 <= i < |fields| ==> fields[i].Valid()
    }
  }

  function Doubled(s: string): string {
    if s == "" then ""
    else Doubled(s[..|s| - 1]) + if s[|s| - 1] == '"' then "\"\"" else [s[|s| - 1]]
  }

  function WrittenFields(fields: seq<Field>): string
    requires |fields| >= 1
  {
    if |fields| == 1 then fields[0].Written()
    else WrittenFields(fields[..|fields| - 1]) + "," + fields[|fields| - 1].Written()
  }

  function WrittenRecords(records: seq<Record>): string
    requires forall i :: 0 <= i < |records| ==> records[i].Valid()
  {
    if records == [] then ""
    else
      var front, last := records[..|records| - 1], records[|records| - 1];
      assert records[|records| - 1].Valid();
      WrittenRecords(front) + WrittenFields(last.fields) + last.end.Written()
  }

  // ----- the scan, one character at a time -----

  datatype Scan = Scan(quoted: bool, columns: nat, wide: bool)

  ghost function ScanOf(text: string, limit: int): Scan {
    Scan(Quoted(text, |text|), Columns(text, |text|), TooWide(text, limit))
  }

  lemma {:induction false} PrefixScans(a: string, b: string, i: nat)
    requires i <= |a|
    ensures Quoted(a + b, i) == Quoted(a, i) && Columns(a + b, i) == Columns(a, i)
  {
    if i > 0 {
      PrefixScans(a, b, i - 1);
    }
  }

  lemma ScanNext(text: string, c: char, limit: int)
    ensures var before, after := ScanOf(text, limit), ScanOf(text + [c], limit);
            && after.quoted == (before.quoted != (c == '"'))
            && after.columns == (if before.quoted then before.columns
                                 else if c == '\r' || c == '\n' then 1
                                 else if c == ',' then before.columns + 1
                                 else before.columns)
            && after.wide == (before.wide || (!before.quoted && c == ',' && after.columns > limit))
  {
    var longer := text + [c];
    PrefixScans(text, [c], |text|);
    forall i: nat | i < |text|
      ensures IsSeparator(longer, i) == IsSeparator(text, i) && Columns(longer, i + 1) == Columns(text, i + 1)
    {
      PrefixScans(text, [c], i);
      PrefixScans(text, [c], i + 1);
    }
    if TooWide(text, limit) {
      var i :| 0 <= i < |text| && IsSeparator(text, i) && Columns(text, i + 1) > limit;
      assert IsSeparator(longer, i) && Columns(longer, i + 1) > limit;
    }
    if IsSeparator(longer, |text|) && Columns(longer, |text| + 1) > limit {
      assert TooWide(longer, limit);
    }
  }

  // ----- fields and records -----

  lemma {:induction false} BareScans(before: string, s: string, limit: int)
    requires Bare(s).Valid() && !ScanOf(before, limit).quoted
    ensures ScanOf(before + s, limit) == ScanOf(before, limit)
    decreases |s|
  {
    hide ScanOf;
    if s == "" {
      assert before + s == before;
    } else {
      var n := |s| - 1;
      BareScans(before, s[..n], limit);
      ScanNext(before + s[..n], s[n], limit);
      assert before + s[..n] + [s[n]] == before + s;
    }
  }

  lemma {:induction false} DoubledScans(before: string, s: string, limit: int)
    requires ScanOf(before, limit).quoted
    ensures ScanOf(before + Doubled(s), limit) == ScanOf(before, limit)
    decreases |s|
  {
    hide ScanOf;
    if s == "" {
      assert before + Doubled(s) == before;
    } else {
      var n := |s| - 1;
      var inner := before + Doubled(s[..n]);
      DoubledScans(before, s[..n], limit);
      ScanNext(inner, s[n], limit);
      if s[n] == '"' {
        ScanNext(inner + "\"", '"', limit);
        assert inner + "\"" + "\"" == before + Doubled(s);
      } else {
        assert inner + [s[n]] == before + Doubled(s);
      }
    }
  }

  lemma FieldScans(before: string, f: Field, limit: int)
    requires f.Valid() && !ScanOf(before, limit).quoted
    ensures ScanOf(before + f.Written(), limit) == ScanOf(before, limit)
  {
    hide ScanOf, Doubled;
    match f
    case Bare(s) =>
      BareScans(before, s, limit);
    case Enclosed(s) =>
      ScanNext(before, '"', limit);
      DoubledScans(before + "\"", s, limit);
      ScanNext(before + "\"" + Doubled(s), '"', limit);
      assert before + "\"" + Doubled(s) + "\"" == before + f.Written();
  }

  lemma {:induction false} FieldsScan(before: string, fields: seq<Field>, limit: int)
    requires |fields| >= 1 && forall i :: 0 <= i < |fields| ==> fields[i].Valid()
    requires !ScanOf(before, limit).quoted && ScanOf(before, limit).columns == 1
    ensures var wide := ScanOf(before, limit).wide;
            ScanOf(before + WrittenFields(fields), limit)
            == Scan(false, |fields|, wide || (|fields| > 1 && |fields| > limit))
    decreases |fields|
  {
    hide ScanOf, Field.Written, Field.Valid;
    if |fields| == 1 {
      FieldScans(before, fields[0], limit);
    } else {
      var n := |fields| - 1;
      var front := before + WrittenFields(fields[..n]);
      FieldsScan(before, fields[..n], limit);
      assert fields[n].Valid();
      ScanNext(front, ',', limit);
      FieldScans(front + ",", fields[n], limit);
      assert front + "," + fields[n].Written() == before + WrittenFields(fields);
    }
  }

  lemma BreakScans(before: string, end: Break, limit: int)
    requires !ScanOf(before, limit).quoted
    ensures ScanOf(before + end.Written(), limit) == Scan(false, 1, ScanOf(before, limit).wide)
  {
    hide ScanOf;
    match end
    case LineFeed => ScanNext(before, '\n', limit);
    case CarriageReturn => ScanNext(before, '\r', limit);
    case Both =>
      ScanNext(before, '\r', limit);
      ScanNext(before + "\r", '\n', limit);
      assert before + "\r" + "\n" == before + end.Written();
  }

  lemma NothingScans(limit: int)
    ensures ScanOf("", limit) == Scan(false, 1, false)
  {
  }

  /** Records as they are written pass the scan if and only if none of them has more fields than the limit. */
  lemma {:induction false} WrittenRecordsFit(records: seq<Record>, limit: int)
    requires limit >= 1 && forall i :: 0 <= i < |records| ==> records[i].Valid()
    ensures TooWide(WrittenRecords(records), limit)
      <==> exists i :: 0 <= i < |records| && |records[i].fields| > limit
    ensures !ScanOf(WrittenRecords(records), limit).quoted && ScanOf(WrittenRecords(records), limit).columns == 1
  {
    hide Quoted, Columns, TooWide, WrittenFields, Break.Written;
    if records == [] {
      NothingScans(limit);
    } else {
      var n := |records| - 1;
      var front, last := WrittenRecords(records[..n]), records[n];
      WrittenRecordsFit(records[..n], limit);
      assert last.Valid();
      FieldsScan(front, last.fields, limit);
      BreakScans(front + WrittenFields(last.fields), last.end, limit);
      assert forall i :: 0 <= i < n ==> records[..n][i] == records[i];
    }
  }

  /** The same with a last record that no break ends. */
  lemma UnendedRecordsFit(records: seq<Record>, last: seq<Field>, limit: int)
    requires limit >= 1 && forall i :: 0 <= i < |records| ==> records[i].Valid()
    requires |last| >= 1 && forall i :: 0 <= i < |last| ==> last[i].Valid()
    ensures TooWide(WrittenRecords(records) + WrittenFields(last), limit)
      <==> |last| > limit || exists i :: 0 <= i < |records| && |records[i].fields| > limit
  {
    hide Quoted, Columns, TooWide, WrittenFields, WrittenRecords;
    WrittenRecordsFit(records, limit);
    FieldsScan(WrittenRecords(records), last, limit);
  }
}
