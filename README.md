# Tokyo daily-cases report, modelled in Dafny

The Go program in `cal/` downloads a CSV file of daily COVID-19 counts per
Japanese prefecture. It turns every row after the header into a typed record
and prints one line `<date> <infected>` for each Tokyo record. This project
models the part between the CSV reader and standard output:

- `Prefectures` (cal/types.go): the `Prefecture` constants and
  `PrefFromString`. This is a closed mapping from a prefecture field to one of
  four named prefectures, with the fallback `Unknown`.
- `Decimal`: the `strconv.Atoi` that `NewRecord` uses for its numeric fields,
  and the `%d` rendering `Calendar.Print` uses for the count. It handles an
  optional `+`/`-`, one or more ASCII digits, and Go's 64-bit `int` range.
- `Records` (cal/main.go): `CSVNumField`, `Record` and `NewRecord`. The field
  count is checked first. Then fields 0, 1, 2, 4, 5, 6 and 7 are parsed in
  that order, and the first one that fails decides the error. Field 3 never
  fails.
- `Calendars` (cal/main.go): `Calendar.Print`, written as a method with a
  loop. It skips the header, stops at the first bad row with no output, and
  appends one line per Tokyo record. It is proved equal to the pure function
  `Report` and its rendering `Render`. The lemmas about `Report` state the
  all-or-nothing failure, that the header is ignored, and the order-preserving
  filter. Lines correspond one-to-one to the Tokyo rows, indexed through
  `TokyoIndices`.
- `Results`: the `Result` type that stands for Go's `(value, error)` returns.

The model starts from the rows `csv.Reader.ReadAll` returns, as
`seq<seq<string>>`. How a `time.Time` is printed by `%v` is the parameter
`renderDate` of `Print`. `Calendar`'s `StartDay` and `BeginDate` are carried
but never read, as in the source. `Print`'s contract is stated in terms of
`Report(records)`, which does not take the calendar.

Two behaviours of the code to note:
- Counts are not checked to be non-negative: `"-3"` is accepted
  (`NewRecordNegativeCount`).
- `Print` on an input with no rows at all panics at `records[1:]`. That is the
  precondition `|records| >= 1` of `Print` and `Report`.

## Model

| member | source | states |
|---|---|---|
| Prefectures.PrefFromString | cal/types.go:27-40 | the result is not `Unknown` exactly when the input is one of the four known names, and then the result's name is the input |
| Prefectures.NameInjective | cal/types.go:19-25 | the five constants have pairwise distinct string values |
| Prefectures.PrefFromStringName | cal/types.go:19-40 | mapping a constant's own name gives the constant back, `Unknown` included because "不明" is not a known name |
| Prefectures.PrefFromStringIdempotent | cal/types.go:27-40 | mapping the name of a mapped value gives the same value |
| Prefectures.PrefFromStringInjective | cal/types.go:29-36 | distinct known names map to distinct prefectures |
| Prefectures.PrefFromStringKnown | cal/types.go:29-36 | "北海道", "東京都", "大阪府", "山梨県" map to Hokkaido, Tokyo, Osaka, Yamanashi |
| Prefectures.PrefFromStringOther | cal/types.go:37-38 | every other string, the empty string included, maps to `Unknown` |
| Decimal.Atoi | cal/main.go:116-143 | an accepted value is within the 64-bit range and the text ends in a digit; a rejection carries the rejected text |
| Decimal.Itoa | cal/main.go:94 | the `%d` text is non-empty, starts with a digit exactly when the number is non-negative, is exactly "0" for zero, and has no leading zero otherwise |
| Decimal.AtoiItoa | cal/main.go:94 | reading back the `%d` text of any 64-bit number gives that number |
| Decimal.AtoiUnsigned | cal/main.go:116-143 | an unsigned digit string in range reads as its decimal value |
| Decimal.AtoiDigits | cal/main.go:116-143 | any unsigned digit string, leading zeros included, is accepted exactly when its value fits in 64 bits, and then reads as that value |
| Decimal.AtoiNegative | cal/main.go:116-143 | '-' followed by a digit string in range reads as the negated value |
| Decimal.AtoiAcceptsOnlyDecimal | cal/main.go:116-143 | anything accepted is an optional leading sign followed only by digits, with at least one digit |
| Decimal.AtoiRejects | cal/main.go:116-143 | the empty string, a lone sign, a doubled or trailing sign, letters and a leading space are rejected |
| Decimal.AtoiExamples | cal/main.go:116-143 | "2020" and "-3" read as 2020 and -3 |
| Decimal.AtoiSmall | cal/main.go:116-143 | "1", "3", "5", "10" and "15" read as their values |
| Decimal.AtoiPlus | cal/main.go:116-143 | a '+' in front of a digit string is accepted exactly when the digits are, with the same value |
| Decimal.AtoiLenient | cal/main.go:116-143 | leading zeros, a '+' sign and "-0" are accepted |
| Decimal.AtoiItoaRange | cal/main.go:116-143 | the `%d` text of a number is accepted exactly when the number fits in 64 bits |
| Records.NewRecord | cal/main.go:112-115 | the error is the field-count error exactly when the row does not have 8 fields, before any field is read |
| Records.NewRecordAccepts | cal/main.go:116-143 | an 8-field row is accepted exactly when all seven numeric fields parse |
| Records.NewRecordFirstError | cal/main.go:116-143 | a rejected 8-field row fails with the error of the first numeric field, in source order, that does not parse |
| Records.NewRecordFields | cal/main.go:116-153 | on success the date parts and the four counts are the decimal values of fields 0-2 and 4-7, and the prefecture is `PrefFromString(row[3])` |
| Records.NewRecordPrefectureIrrelevant | cal/main.go:145-148 | changing field 3 never changes whether a row is accepted; it changes only the record's prefecture |
| Records.NewRecordTokyoExample | cal/main.go:112-154 | the row 2020,3,15,東京都,10,5,3,1 gives the Tokyo record of 2020-03-15 with counts 10, 5, 3, 1 |
| Records.NewRecordNegativeCount | cal/main.go:128-131 | a negative infected count is accepted as is |
| Records.NewRecordInvalidNumber | cal/main.go:128-131 | "abc" as the infected count rejects the row with that text |
| Records.NewRecordHeaderFails | cal/main.go:116-119 | a header row whose first field is "year" is not a record |
| Calendars.Calendar.Print | cal/main.go:80-99 | fails exactly when `Report` fails, with its error; otherwise returns the text of `Report`'s lines, whatever the calendar's fields |
| Calendars.ParseRowsSnoc | cal/main.go:88-92 | one more good row extends the parsed prefix by its record |
| Calendars.TokyoLinesSnoc | cal/main.go:93-95 | one more record adds its line when it is Tokyo, and nothing otherwise |
| Calendars.RenderSnoc | cal/main.go:94 | the text of one more line is the old text followed by that line's text |
| Calendars.ParseRowsFirstError | cal/main.go:88-92 | once a row fails after good rows, no later row changes the outcome: the whole parse fails with that row's error |
| Calendars.ParseRowsOk | cal/main.go:88-92 | parsing all rows succeeds exactly when every row parses |
| Calendars.ParseRowsValues | cal/main.go:88-92 | a successful parse gives one record per row, in row order |
| Calendars.ParseRowsErr | cal/main.go:88-92 | a failed parse carries the error of the first row that fails |
| Calendars.TokyoIndicesSpec | cal/main.go:93 | the kept positions are exactly the positions of Tokyo records, strictly ascending |
| Calendars.TokyoLinesAt | cal/main.go:93-94 | there are as many lines as Tokyo records, and the k-th line is the date and infected count of the k-th Tokyo record |
| Calendars.ReportIgnoresHeader | cal/main.go:86 | the first row is never parsed: two inputs that differ only in it give the same report |
| Calendars.ReportFailsOnAnyBadRow | cal/main.go:86-92 | the report fails exactly when some non-header row fails, with the error of the first such row |
| Calendars.ReportRecords | cal/main.go:86-92 | on success each non-header row has become one record, in row order |
| Calendars.ReportLines | cal/main.go:93-96 | on success there is one line per Tokyo record, in input order, and the k-th line has the k-th Tokyo record's date and count |
| Calendars.ReportSnoc | cal/main.go:88-96 | appending a good row keeps a failure, and otherwise adds that row's line exactly when it is Tokyo |
| Calendars.ReportSnocOther | cal/main.go:93 | a good row of any prefecture but Tokyo adds nothing to the report |
| Calendars.ReportSnocTokyo | cal/main.go:93-94 | a good Tokyo row adds its own line at the end |
| Calendars.ItoaNoNewline | cal/main.go:94 | the `%d` text contains no newline |
| Calendars.RenderNewlines | cal/main.go:94 | if dates render without '\n', the printed text has exactly one newline per line |
| Calendars.ReportCountReadsBack | cal/main.go:88-94 | line k comes from the row at the k-th Tokyo position after the header, that row is Tokyo, and the line's printed count reads back, via `Atoi`, as that row's infected field |
| Calendars.ReportTokyoExample | cal/main.go:80-99 | a header plus the row 2020,3,15,東京都,10,... gives the single line for 2020-03-15 with 10 |
| Calendars.ReportYamanashiExample | cal/main.go:93 | a header plus a valid Yamanashi row parses and gives no lines |
| Calendars.ReportInvalidExample | cal/main.go:88-92 | a good Tokyo row followed by a row with "abc" as its count gives an error and no lines |

## Left out

- The download in `main`: the HTTP GET, closing the body, copying to standard output and `log.Fatalf`. This is network and process I/O.
- The CSV tokenising in `encoding/csv`: `LazyQuotes`, `TrimLeadingSpace` and the reader's own `FieldsPerRecord` check. The model starts from the rows `ReadAll` returns. In this program that reader check rejects every row without 8 fields, the header included, before `NewRecord` runs, so `NewRecord`'s own count check is dead code here; the model keeps it because `NewRecord` is modelled on its own.
- The time zone set in `init` and `time.Date`'s normalisation of out-of-range months and days. `Date` keeps the three parsed numbers; "midnight, Tokyo time" is implicit in it.
- The `%v` rendering of a `time.Time`. It is the function parameter `renderDate` of `Print`, `RenderLine` and `Render`. Only the `" "`, the `%d` count and the `"\n"` of each line are fixed.
- Decimal.Atoi: Go's `int` is taken to be 64 bits wide, as on 64-bit builds; on a 32-bit build `strconv.Atoi` also rejects values outside the 32-bit range (such as "3000000000"), which the model accepts.
- Decimal.Atoi: the distinction Go's `NumError` makes between a syntax error and a range error is not kept. The error carries only the rejected text.
- `NewCalendar` and the default start day and begin date. The model has no constructor defaults: a `Calendar` is any pair of a weekday and a date.
- Wrapping the output in an `io.Reader` (`strings.NewReader`). `Print` returns the string itself.
