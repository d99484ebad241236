/** The report: `Calendar.Print` in cal/main.go. It drops the header row,
    turns every other row into a record, failing as a whole on the first
    bad row, and prints `<date> <infected>` for each Tokyo record, in input
    order. The CSV rows arrive already split into fields. */
module Calendars {
  import opened Results
  import opened Decimal
  import opened Prefectures
  import opened Records

  datatype Weekday = Sunday | Monday | Tuesday | Wednesday | Thursday | Friday | Saturday

  /** What one output line says: a record's date and infected count. */
  datatype Line = Line(date: Date, infected: int)

  function LineOf(rec: Record): Line {
    Line(rec.date, rec.infected)
  }

  /** Parse every row, left to right; the first row that fails decides the
      error. */
  function ParseRows(rows: seq<seq<string>>): Result<seq<Record>, RecordError> {
    if rows == [] then Ok([])
    else
      var init :- ParseRows(rows[..|rows| - 1]);
      var rec :- NewRecord(rows[|rows| - 1]);
      Ok(init + [rec])
  }

  /** The lines for the Tokyo records, in order. */
  function TokyoLines(recs: seq<Record>): seq<Line> {
    if recs == [] then []
    else
      var last := recs[|recs| - 1];
      TokyoLines(recs[..|recs| - 1]) + (if last.prefecture == Tokyo then [LineOf(last)] else [])
  }

  /** The positions of the Tokyo records; `TokyoIndicesSpec` shows they are
      exactly those positions, ascending, and `TokyoLinesAt` ties the
      lines to them. */
  function TokyoIndices(recs: seq<Record>): seq<nat> {
    if recs == [] then []
    else
      var n := |recs| - 1;
      TokyoIndices(recs[..n]) + (if recs[n].prefecture == Tokyo then [n] else [])
  }

  /** The lines the report consists of: skip the header, parse the rest,
      keep Tokyo. */
  function Report(records: seq<seq<string>>): Result<seq<Line>, RecordError>
    requires |records| >= 1
  {
    var recs :- ParseRows(records[1..]);
    Ok(TokyoLines(recs))
  }

  /** `fmt.Sprintf("%v %d\n", date, infected)`; how `%v` renders a
      `time.Time` is given by `renderDate`. */
  function RenderLine(line: Line, renderDate: Date -> string): string {
    renderDate(line.date) + " " + Itoa(line.infected) + "\n"
  }

  /** The text of a sequence of lines, one after another. */
  function Render(lines: seq<Line>, renderDate: Date -> string): string {
    if lines == [] then ""
    else Render(lines[..|lines| - 1], renderDate) + RenderLine(lines[|lines| - 1], renderDate)
  }

  /** The report configuration. Neither field is read by `Print`. */
  datatype Calendar = Calendar(startDay: Weekday, beginDate: Date) {

    /** `c.Print(r)` on the rows `ReadAll` returned. Go panics on an empty
        input (`records[1:]`), hence the precondition. */
    method Print(records: seq<seq<string>>, renderDate: Date -> string) returns (r: Result<string, RecordError>)
      requires |records| >= 1
      ensures r.Err? <==> Report(records).Err?
      ensures r.Err? ==> r.error == Report(records).error
      ensures r.Ok? ==> r.value == Render(Report(records).value, renderDate)
    {
      var rows := records[1..];
      var sb := "";
      ghost var parsed: seq<Record> := [];
      for i := 0 to |rows|
        invariant ParseRows(rows[..i]) == Ok(parsed)
        invariant sb == Render(TokyoLines(parsed), renderDate)
      {
        var record := NewRecord(rows[i]);
        if record.Err? {
          ParseRowsFirstError(rows, i);
          return Err(record.error);
        }
        ParseRowsSnoc(rows, i);
        TokyoLinesSnoc(parsed, record.value);
        if record.value.prefecture == Tokyo {
          RenderSnoc(TokyoLines(parsed), LineOf(record.value), renderDate);
          sb := sb + RenderLine(LineOf(record.value), renderDate);
        } else {
          assert TokyoLines(parsed + [record.value]) == TokyoLines(parsed);
        }
        parsed := parsed + [record.value];
      }
      assert rows[..|rows|] == rows;
      return Ok(sb);
    }
  }

  lemma ParseRowsSnoc(rows: seq<seq<string>>, i: nat)
    requires i < |rows| && ParseRows(rows[..i]).Ok? && NewRecord(rows[i]).Ok?
    ensures ParseRows(rows[..i + 1]) == Ok(ParseRows(rows[..i]).value + [NewRecord(rows[i]).value])
  {
    assert rows[..i + 1][..i] == rows[..i];
  }

  lemma TokyoLinesSnoc(recs: seq<Record>, rec: Record)
    ensures TokyoLines(recs + [rec]) == TokyoLines(recs) + (if rec.prefecture == Tokyo then [LineOf(rec)] else [])
  {
    assert (recs + [rec])[..|recs|] == recs;
  }

  lemma RenderSnoc(lines: seq<Line>, line: Line, renderDate: Date -> string)
    ensures Render(lines + [line], renderDate) == Render(lines, renderDate) + RenderLine(line, renderDate)
  {
    assert (lines + [line])[..|lines|] == lines;
  }

  /** A row that fails fixes the result of every longer input, provided
      all rows before it parse: no later row can produce output. */
  lemma {:induction false} ParseRowsFirstError(rows: seq<seq<string>>, k: nat)
    requires k < |rows|
    requires ParseRows(rows[..k]).Ok? && NewRecord(rows[k]).Err?
    ensures ParseRows(rows) == Err(NewRecord(rows[k]).error)
    decreases |rows|
  {
    if k + 1 == |rows| {
      assert rows[..|rows| - 1] == rows[..k];
    } else {
      var init := rows[..|rows| - 1];
      assert init[..k] == rows[..k];
      ParseRowsFirstError(init, k);
    }
  }

  /** Parsing succeeds exactly when every row parses. */
  lemma {:induction false} ParseRowsOk(rows: seq<seq<string>>)
    ensures ParseRows(rows).Ok? <==> forall k :: 0 <= k < |rows| ==> NewRecord(rows[k]).Ok?
    decreases |rows|
  {
    if rows != [] {
      var n := |rows| - 1;
      var init := rows[..n];
      ParseRowsOk(init);
      if ParseRows(init).Err? {
        var k :| 0 <= k < n && !NewRecord(init[k]).Ok?;
        assert init[k] == rows[k];
      } else if NewRecord(rows[n]).Ok? {
        forall k | 0 <= k < |rows| ensures NewRecord(rows[k]).Ok? {
          if k < n {
            assert init[k] == rows[k];
          }
        }
      }
    }
  }

  /** A successful parse gives one record per row, in order. */
  lemma {:induction false} ParseRowsValues(rows: seq<seq<string>>)
    requires ParseRows(rows).Ok?
    ensures |ParseRows(rows).value| == |rows|
    ensures forall k :: 0 <= k < |rows| ==> NewRecord(rows[k]) == Ok(ParseRows(rows).value[k])
    decreases |rows|
  {
    if rows != [] {
      var n := |rows| - 1;
      var init := rows[..n];
      ParseRowsValues(init);
      var a := ParseRows(init).value;
      var recs := ParseRows(rows).value;
      assert recs == a + [NewRecord(rows[n]).value];
      forall k | 0 <= k < |rows| ensures NewRecord(rows[k]) == Ok(recs[k]) {
        if k < n {
          assert init[k] == rows[k];
        }
      }
    }
  }

  /** On failure the error is that of the first row that fails. */
  lemma {:induction false} ParseRowsErr(rows: seq<seq<string>>)
    requires ParseRows(rows).Err?
    ensures exists k :: (0 <= k < |rows| && NewRecord(rows[k]).Err? &&
      ParseRows(rows).error == NewRecord(rows[k]).error &&
      forall j :: 0 <= j < k ==> NewRecord(rows[j]).Ok?)
    decreases |rows|
  {
    var init := rows[..|rows| - 1];
    var n := |rows| - 1;
    assert forall j :: 0 <= j < n ==> init[j] == rows[j];
    if ParseRows(init).Err? {
      ParseRowsErr(init);
      var k :| 0 <= k < |init| && NewRecord(init[k]).Err? &&
        ParseRows(init).error == NewRecord(init[k]).error &&
        forall j :: 0 <= j < k ==> NewRecord(init[j]).Ok?;
      assert NewRecord(rows[k]).Err?;
    } else {
      ParseRowsOk(init);
      assert NewRecord(rows[n]).Err?;
    }
  }

  /** The Tokyo positions are exactly the positions of Tokyo records, and
      ascend strictly. */
  lemma {:induction false} TokyoIndicesSpec(recs: seq<Record>)
    ensures forall k :: 0 <= k < |TokyoIndices(recs)| ==>
      TokyoIndices(recs)[k] < |recs| && recs[TokyoIndices(recs)[k]].prefecture == Tokyo
    ensures forall i :: 0 <= i < |recs| && recs[i].prefecture == Tokyo ==> i in TokyoIndices(recs)
    ensures forall k, l :: 0 <= k < l < |TokyoIndices(recs)| ==> TokyoIndices(recs)[k] < TokyoIndices(recs)[l]
    decreases |recs|
  {
    if recs != [] {
      var n := |recs| - 1;
      var init := recs[..n];
      TokyoIndicesSpec(init);
      assert forall i :: 0 <= i < n ==> init[i] == recs[i];
    }
  }

  /** The k-th output line is the line of the k-th Tokyo record. */
  lemma {:induction false} TokyoLinesAt(recs: seq<Record>)
    ensures |TokyoLines(recs)| == |TokyoIndices(recs)|
    ensures forall k :: 0 <= k < |TokyoLines(recs)| ==>
      TokyoIndices(recs)[k] < |recs| && TokyoLines(recs)[k] == LineOf(recs[TokyoIndices(recs)[k]])
    decreases |recs|
  {
    if recs != [] {
      var n := |recs| - 1;
      var init := recs[..n];
      TokyoLinesAt(init);
      TokyoIndicesSpec(init);
      assert forall i :: 0 <= i < n ==> init[i] == recs[i];
    }
  }

  /** The header row is never parsed: whatever it holds, the report is the same. */
  lemma ReportIgnoresHeader(header: seq<string>, other: seq<string>, rows: seq<seq<string>>)
    ensures Report([header] + rows) == Report([other] + rows)
  {
    assert ([header] + rows)[1..] == rows == ([other] + rows)[1..];
  }

  /** All or nothing: the report fails exactly when some non-header row
      fails, with the error of the first such row, however many good Tokyo
      rows came before it. */
  lemma ReportFailsOnAnyBadRow(records: seq<seq<string>>)
    requires |records| >= 1
    ensures Report(records).Err? <==> exists k :: 1 <= k < |records| && NewRecord(records[k]).Err?
    ensures Report(records).Err? ==> exists k :: (1 <= k < |records| && NewRecord(records[k]).Err? &&
      Report(records).error == NewRecord(records[k]).error &&
      forall j :: 1 <= j < k ==> NewRecord(records[j]).Ok?)
  {
    var rows := records[1..];
    ParseRowsOk(rows);
    assert forall k :: 1 <= k < |records| ==> records[k] == rows[k - 1];
    if Report(records).Err? {
      ParseRowsErr(rows);
      var k :| 0 <= k < |rows| && NewRecord(rows[k]).Err? &&
        ParseRows(rows).error == NewRecord(rows[k]).error &&
        forall j :: 0 <= j < k ==> NewRecord(rows[j]).Ok?;
      assert NewRecord(records[k + 1]).Err?;
    }
  }

  /** On success every row after the header has become a record, in order. */
  lemma ReportRecords(records: seq<seq<string>>)
    requires |records| >= 1 && Report(records).Ok?
    ensures |ParseRows(records[1..]).value| == |records| - 1
    ensures forall i :: 1 <= i < |records| ==> NewRecord(records[i]) == Ok(ParseRows(records[1..]).value[i - 1])
  {
    var rows := records[1..];
    ParseRowsValues(rows);
    assert forall i :: 1 <= i < |records| ==> records[i] == rows[i - 1];
  }

  /** On success there is one line per Tokyo record, in input order, and
      the k-th line holds the k-th Tokyo record's date and infected count. */
  lemma ReportLines(records: seq<seq<string>>)
    requires |records| >= 1 && Report(records).Ok?
    ensures |Report(records).value| == |TokyoIndices(ParseRows(records[1..]).value)|
    ensures forall k :: 0 <= k < |Report(records).value| ==>
      var recs := ParseRows(records[1..]).value;
      TokyoIndices(recs)[k] < |recs| && Report(records).value[k] == LineOf(recs[TokyoIndices(recs)[k]])
  {
    TokyoLinesAt(ParseRows(records[1..]).value);
  }

  /** A row that parses to a prefecture other than Tokyo adds nothing. */
  lemma ReportSnocOther(records: seq<seq<string>>, row: seq<string>)
    requires |records| >= 1 && NewRecord(row).Ok? && NewRecord(row).value.prefecture != Tokyo
    ensures Report(records + [row]) == Report(records)
  {
    ReportSnoc(records, row);
    if Report(records).Ok? {
      assert Report(records).value + [] == Report(records).value;
    }
  }

  /** A Tokyo row adds its own line at the end. */
  lemma ReportSnocTokyo(records: seq<seq<string>>, row: seq<string>)
    requires |records| >= 1 && Report(records).Ok?
    requires NewRecord(row).Ok? && NewRecord(row).value.prefecture == Tokyo
    ensures Report(records + [row]) == Ok(Report(records).value + [LineOf(NewRecord(row).value)])
  {
    ReportSnoc(records, row);
  }

  lemma ReportSnoc(records: seq<seq<string>>, row: seq<string>)
    requires |records| >= 1 && NewRecord(row).Ok?
    ensures Report(records + [row]) ==
      match Report(records)
      case Err(e) => Err(e)
      case Ok(lines) =>
        Ok(lines + if NewRecord(row).value.prefecture == Tokyo then [LineOf(NewRecord(row).value)] else [])
  {
    var rows := (records + [row])[1..];
    var n := |records| - 1;
    assert rows[..n] == records[1..];
    assert rows[n] == row;
    assert rows[..n + 1] == rows;
    if Report(records).Ok? {
      ParseRowsSnoc(rows, n);
      TokyoLinesSnoc(ParseRows(records[1..]).value, NewRecord(row).value);
    }
  }

  function CountNewlines(s: string): nat {
    if s == [] then 0 else CountNewlines(s[..|s| - 1]) + (if s[|s| - 1] == '\n' then 1 else 0)
  }

  lemma {:induction false} CountNewlinesAppend(s: string, t: string)
    ensures CountNewlines(s + t) == CountNewlines(s) + CountNewlines(t)
    decreases |t|
  {
    if t == [] {
      assert s + t == s;
    } else {
      var t' := t[..|t| - 1];
      CountNewlinesAppend(s, t');
      assert (s + t)[..|s + t| - 1] == s + t';
    }
  }

  lemma {:induction false} CountNewlinesNone(s: string)
    requires '\n' !in s
    ensures CountNewlines(s) == 0
    decreases |s|
  {
    if s != [] {
      assert s[..|s| - 1] <= s;
      CountNewlinesNone(s[..|s| - 1]);
    }
  }

  lemma ItoaNoNewline(n: int)
    ensures '\n' !in Itoa(n)
  {
    var s := Itoa(n);
    forall i | 0 <= i < |s| ensures s[i] != '\n' {
      if n < 0 && i > 0 {
        assert s[i] == Digits(-n)[i - 1];
      }
    }
  }

  /** The printed text has exactly one newline per line, as long as the
      date rendering itself has none. */
  lemma {:induction false} RenderNewlines(lines: seq<Line>, renderDate: Date -> string)
    requires forall d :: '\n' !in renderDate(d)
    ensures CountNewlines(Render(lines, renderDate)) == |lines|
    decreases |lines|
  {
    if lines != [] {
      var init := lines[..|lines| - 1];
      var line := lines[|lines| - 1];
      RenderNewlines(init, renderDate);
      var head := renderDate(line.date) + " " + Itoa(line.infected);
      ItoaNoNewline(line.infected);
      assert '\n' !in head;
      CountNewlinesNone(head);
      CountNewlinesAppend(head, "\n");
      CountNewlinesAppend(Render(init, renderDate), RenderLine(line, renderDate));
    }
  }

  /** The count printed on a line reads back as the row's infected field. */
  lemma ReportCountReadsBack(records: seq<seq<string>>, k: nat)
    requires |records| >= 1 && Report(records).Ok? && k < |Report(records).value|
    ensures k < |TokyoIndices(ParseRows(records[1..]).value)|
    // Line k comes from the row just after the header at the k-th Tokyo position,
    ensures var i := TokyoIndices(ParseRows(records[1..]).value)[k] + 1;
      && 1 <= i < |records|
      && NewRecord(records[i]).Ok?
      && NewRecord(records[i]).value.prefecture == Tokyo
      && Report(records).value[k] == LineOf(NewRecord(records[i]).value)
      // and its printed count reads back as that row's infected field.
      && Atoi(records[i][4]) == Atoi(Itoa(Report(records).value[k].infected)) == Ok(Report(records).value[k].infected)
  {
    ReportLines(records);
    ReportRecords(records);
    var recs := ParseRows(records[1..]).value;
    TokyoIndicesSpec(recs);
    var i := TokyoIndices(recs)[k];
    assert NewRecord(records[i + 1]) == Ok(recs[i]);
    NewRecordFields(records[i + 1]);
    AtoiItoa(recs[i].infected);
    assert Report(records).value[k].infected == recs[i].infected;
  }

  /** A header and one Tokyo row give one line with the date and the count. */
  lemma ReportTokyoExample(header: seq<string>)
    ensures Report([header, ["2020", "3", "15", "東京都", "10", "5", "3", "1"]]) ==
      Ok([Line(Date(2020, 3, 15), 10)])
  {
    NewRecordTokyoExample();
    var rows := [header, ["2020", "3", "15", "東京都", "10", "5", "3", "1"]][1..];
    assert rows[..0] == [] && rows[..1] == rows;
    assert ParseRows(rows[..0]) == Ok([]);
    ParseRowsSnoc(rows, 0);
    var rec := NewRecord(rows[0]).value;
    assert [] + [rec] == [rec];
    assert ParseRows(rows) == Ok([rec]);
    assert rec == Record(Date(2020, 3, 15), Tokyo, 10, 5, 3, 1);
    TokyoLinesSnoc([], rec);
    assert [] + [LineOf(rec)] == [LineOf(rec)];
  }

  /** A Yamanashi row parses but prints nothing. */
  lemma ReportYamanashiExample(header: seq<string>)
    ensures Report([header, ["2020", "3", "15", "山梨県", "10", "5", "3", "1"]]) == Ok([])
  {
    NewRecordPrefectureIrrelevant(["2020", "3", "15", "東京都", "10", "5", "3", "1"], "山梨県");
    NewRecordTokyoExample();
    assert ["2020", "3", "15", "東京都", "10", "5", "3", "1"][3 := "山梨県"] ==
      ["2020", "3", "15", "山梨県", "10", "5", "3", "1"];
    var rows := [header, ["2020", "3", "15", "山梨県", "10", "5", "3", "1"]][1..];
    assert rows[..0] == [] && rows[..1] == rows;
    assert ParseRows(rows[..0]) == Ok([]);
    ParseRowsSnoc(rows, 0);
    var rec := NewRecord(rows[0]).value;
    assert [] + [rec] == [rec];
    assert ParseRows(rows) == Ok([rec]);
    TokyoLinesSnoc([], rec);
  }

  /** A bad count in a later row discards the good Tokyo row before it. */
  lemma ReportInvalidExample(header: seq<string>)
    ensures Report([header, ["2020", "3", "15", "東京都", "10", "5", "3", "1"],
                            ["2020", "3", "15", "北海道", "abc", "5", "3", "1"]]) ==
      Err(InvalidNumber(NumError("abc")))
  {
    NewRecordTokyoExample();
    NewRecordInvalidNumber();
    var rows := [header, ["2020", "3", "15", "東京都", "10", "5", "3", "1"],
                         ["2020", "3", "15", "北海道", "abc", "5", "3", "1"]][1..];
    assert rows[..1][..0] == [];
    ParseRowsFirstError(rows, 1);
  }
}
