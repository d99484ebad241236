/** One row of the daily prefecture CSV turned into a typed record
    (`Record` and `NewRecord` in cal/main.go). */
module Records {
  import opened Results
  import opened Decimal
  import opened Prefectures

  /** The number of fields every row must have. */
  const CSVNumField: nat := 8

  /** The calendar date `time.Date(year, month, day, 0, 0, 0, 0, time.Local)`
      denotes: midnight, Tokyo time, of the given day. */
  datatype Date = Date(year: int, month: int, day: int)

  datatype Record = Record(
    date: Date,
    prefecture: Prefecture,
    infected: int,
    hospitalized: int,
    discharged: int,
    dead: int)

  /** Why a row is rejected: the wrong number of fields (the count and the
      row are part of the message), or a numeric field `Atoi` rejects. */
  datatype RecordError = FieldCount(count: nat, row: seq<string>) | InvalidNumber(cause: NumError)

  /** The fields read as integers: all but the prefecture, field 3. */
  predicate IsNumericField(i: int) {
    0 <= i < CSVNumField && i != 3
  }

  /** One numeric field through `Atoi`, its error wrapped as a row error. */
  function ParseField(s: string): Result<int, RecordError> {
    match Atoi(s)
    case Ok(n) => Ok(n)
    case Err(e) => Err(InvalidNumber(e))
  }

  /** Every numeric field of `row` is accepted by `Atoi`. */
  ghost predicate NumericFieldsParse(row: seq<string>)
    requires |row| == CSVNumField
  {
    forall i :: IsNumericField(i) ==> Atoi(row[i]).Ok?
  }

  /** `NewRecord(row)`: check the field count first, then parse fields 0, 1,
      2, 4, 5, 6 and 7 in that order, stopping at the first that fails; the
      prefecture field never fails. The count is checked before any field
      is looked at. */
  function NewRecord(row: seq<string>): (r: Result<Record, RecordError>)
    ensures |row| != CSVNumField <==> r == Err(FieldCount(|row|, row))
  {
    if |row| != CSVNumField then Err(FieldCount(|row|, row))
    else
      var year :- ParseField(row[0]);
      var month :- ParseField(row[1]);
      var day :- ParseField(row[2]);
      var infected :- ParseField(row[4]);
      var hospitalized :- ParseField(row[5]);
      var discharged :- ParseField(row[6]);
      var dead :- ParseField(row[7]);
      Ok(Record(Date(year, month, day), PrefFromString(row[3]), infected, hospitalized, discharged, dead))
  }

  /** With eight fields, a row is accepted exactly when every numeric field parses. */
  lemma NewRecordAccepts(row: seq<string>)
    requires |row| == CSVNumField
    ensures NewRecord(row).Ok? <==> NumericFieldsParse(row)
  {
  }

  /** A rejected eight-field row is rejected for the first numeric field,
      in the order 0, 1, 2, 4, 5, 6, 7, that `Atoi` rejects. */
  lemma NewRecordFirstError(row: seq<string>)
    requires |row| == CSVNumField && NewRecord(row).Err?
    ensures exists i :: (IsNumericField(i) && Atoi(row[i]).Err? &&
      NewRecord(row).error == InvalidNumber(Atoi(row[i]).error) &&
      forall j :: IsNumericField(j) && j < i ==> Atoi(row[j]).Ok?)
  {
    var i := if Atoi(row[0]).Err? then 0
      else if Atoi(row[1]).Err? then 1
      else if Atoi(row[2]).Err? then 2
      else if Atoi(row[4]).Err? then 4
      else if Atoi(row[5]).Err? then 5
      else if Atoi(row[6]).Err? then 6
      else 7;
    assert IsNumericField(i) && Atoi(row[i]).Err?;
    assert forall j :: IsNumericField(j) && j < i ==> Atoi(row[j]).Ok?;
  }

  /** On success every numeric field of the record is the decimal value of
      its column, and the prefecture is whatever field 3 maps to. */
  lemma NewRecordFields(row: seq<string>)
    requires NewRecord(row).Ok?
    ensures var rec := NewRecord(row).value;
      && Atoi(row[0]) == Ok(rec.date.year)
      && Atoi(row[1]) == Ok(rec.date.month)
      && Atoi(row[2]) == Ok(rec.date.day)
      && Atoi(row[4]) == Ok(rec.infected)
      && Atoi(row[5]) == Ok(rec.hospitalized)
      && Atoi(row[6]) == Ok(rec.discharged)
      && Atoi(row[7]) == Ok(rec.dead)
      && rec.prefecture == PrefFromString(row[3])
  {
  }

  /** Field 3 never decides whether a row is accepted: replacing it changes
      only the record's prefecture. */
  lemma NewRecordPrefectureIrrelevant(row: seq<string>, s: string)
    requires |row| == CSVNumField
    ensures NewRecord(row[3 := s]) ==
      match NewRecord(row)
      case Ok(rec) => Ok(rec.(prefecture := PrefFromString(s)))
      case Err(e) => Err(e)
  {
    var row' := row[3 := s];
    assert forall i :: IsNumericField(i) ==> row'[i] == row[i];
  }

  /** A well-formed Tokyo row. */
  lemma NewRecordTokyoExample()
    ensures NewRecord(["2020", "3", "15", "東京都", "10", "5", "3", "1"]) ==
      Ok(Record(Date(2020, 3, 15), Tokyo, 10, 5, 3, 1))
  {
    AtoiExamples();
    AtoiSmall();
  }

  /** Negative counts are accepted: nothing checks that a count is at least zero. */
  lemma NewRecordNegativeCount()
    ensures NewRecord(["2020", "3", "15", "東京都", "-3", "5", "3", "1"]) ==
      Ok(Record(Date(2020, 3, 15), Tokyo, -3, 5, 3, 1))
  {
    AtoiExamples();
    AtoiSmall();
  }

  /** A non-numeric count rejects the row, naming the bad text. */
  lemma NewRecordInvalidNumber()
    ensures NewRecord(["2020", "3", "15", "北海道", "abc", "5", "3", "1"]) ==
      Err(InvalidNumber(NumError("abc")))
  {
    AtoiExamples();
    AtoiSmall();
    AtoiRejects();
  }

  /** The header row of the CSV is not a record. */
  lemma NewRecordHeaderFails(header: seq<string>)
    requires |header| == CSVNumField && header[0] == "year"
    ensures NewRecord(header) == Err(InvalidNumber(NumError("year")))
  {
    assert !IsDigit("year"[0]);
  }
}
