/** `DataValidator.validateRecords`: the validation loop of `RecordValidator`
    over a list of lines already in memory, which also stores one database row
    for every line that has seven or more fields but fails the acceptance rule. */
module DataValidator {
  import opened Wrappers
  import opened JavaInt
  import opened JavaString
  import opened Sequences
  import opened ConsumptionRecord
  import opened RecordValidation

  /** A row of the `error_records` table. */
  datatype ErrorRow = ErrorRow(
    customerId: string,
    readingDate: string,
    usage1: Int32,
    usage2: Int32,
    usage3: Int32,
    usage4: Int32,
    quality: string,
    errorCode: int,
    errorDescription: string)

  const DefaultErrorCode: int := 0
  const InvalidRecord: string := "Invalid record"

  /** The row stored for a line: only a parsed line that fails the acceptance
      rule has one; a short line goes to the error file alone. */
  function LineRow(line: string): Option<ErrorRow>
  {
    match Inspect(line)
    case Parsed(r) =>
      if Acceptable(r) then None
      else Some(ErrorRow(r.customerId, r.readingDate, r.usage1, r.usage2, r.usage3, r.usage4,
                         r.quality, DefaultErrorCode, InvalidRecord))
    case _ => None
  }

  /** The rows a run over `lines` stores, in line order. */
  function ErrorRows(lines: seq<string>): seq<ErrorRow>
  {
    Collect(lines, LineRow)
  }

  /** `validateRecords(records)`. `sinksOpen` says whether the error file and the
      database connection could be opened; when they cannot, the exception is
      caught and the empty list returned with nothing written. Otherwise the
      result is the accepted lines, or the `NumberFormatException` of the first
      line whose usage fields do not all parse; `errorLines` is what reached the
      error file and `errorRows` what was inserted, up to that point. */
  method ValidateRecords(records: seq<string>, sinksOpen: bool)
      returns (r: Run<seq<string>>, errorLines: seq<string>, errorRows: seq<ErrorRow>)
    ensures !sinksOpen ==> r == Done([]) && errorLines == [] && errorRows == []
    ensures sinksOpen ==> errorLines == Rejected(records[..Handled(records)])
    ensures sinksOpen ==> errorRows == ErrorRows(records[..Handled(records)])
    ensures sinksOpen && Handled(records) < |records| ==> r == Thrown(NumberFormatException)
    ensures sinksOpen && Handled(records) == |records| ==> r == Done(Accepted(records))
  {
    var validRecords: seq<string> := [];
    errorLines, errorRows := [], [];
    if !sinksOpen {
      return Done(validRecords), errorLines, errorRows;
    }
    var i := 0;
    while i < |records|
      invariant 0 <= i <= |records|
      invariant i <= Handled(records)
      invariant validRecords == Accepted(records[..i])
      invariant errorLines == Rejected(records[..i])
      invariant errorRows == ErrorRows(records[..i])
    {
      var line := records[i];
      FilterStep(records, IsValid, i);
      FilterStep(records, IsInvalid, i);
      CollectStep(records, LineRow, i);
      PrefixWhileStep(records, Survives, i);
      var v := InspectLine(line);
      InspectionVerdict(line, v);
      match v {
        case TooFewFields =>
          errorLines := errorLines + [line];
        case Unparsable =>
          r := Thrown(NumberFormatException);
          return;
        case Parsed(reading) =>
          if Acceptable(reading) {
            validRecords := validRecords + [line];
          } else {
            errorLines := errorLines + [line];
            var row := ErrorRow(reading.customerId, reading.readingDate, reading.usage1, reading.usage2,
                                reading.usage3, reading.usage4, reading.quality, DefaultErrorCode, InvalidRecord);
            errorRows := errorRows + [row];
          }
      }
      i := i + 1;
    }
    assert records[..i] == records;
    r := Done(validRecords);
  }

  /** A line has a row exactly when it was parsed and rejected; the row carries
      the line's own fields, error code 0 and the description "Invalid record". */
  lemma LineRowIff(line: string)
    ensures LineRow(line).Some? <==> Inspect(line).Parsed? && IsInvalid(line)
    ensures LineRow(line).Some? ==>
      var f, row := Split(line), LineRow(line).value;
      && row.customerId == f[0] && row.readingDate == f[1] && row.quality == f[6]
      && ParseInt(f[2]) == Some(row.usage1) && ParseInt(f[3]) == Some(row.usage2)
      && ParseInt(f[4]) == Some(row.usage3) && ParseInt(f[5]) == Some(row.usage4)
      && row.errorCode == 0 && row.errorDescription == "Invalid record"
  {
  }

  /** The stored rows are those of the lines written to the error file that have
      seven or more fields: there is never a row without an error line, and at
      most one row per error line. */
  lemma ErrorRowsOfRejected(lines: seq<string>)
    ensures forall row :: row in ErrorRows(lines) <==> exists l :: l in Rejected(lines) && LineRow(l) == Some(row)
    ensures |ErrorRows(lines)| <= |Rejected(lines)|
  {
    CollectMembers(lines, LineRow);
    FilterMembers(lines, IsInvalid);
    forall row | row in ErrorRows(lines) ensures exists l :: l in Rejected(lines) && LineRow(l) == Some(row) {
      var l :| l in lines && LineRow(l) == Some(row);
      LineRowIff(l);
    }
    RowsAtMostRejected(lines);
  }

  lemma {:induction false} RowsAtMostRejected(lines: seq<string>)
    ensures |ErrorRows(lines)| <= |Rejected(lines)|
  {
    if lines != [] {
      var n := |lines| - 1;
      RowsAtMostRejected(lines[..n]);
      FilterStep(lines, IsInvalid, n);
      CollectStep(lines, LineRow, n);
      assert lines[..n + 1] == lines;
      LineRowIff(lines[n]);
    }
  }

  /** A single line with fewer than seven fields, such as a file name passed in
      place of the file's lines: nothing is kept, the line is written to the
      error file and no row is stored. */
  lemma SingleShortLine(line: string)
    requires |Split(line)| < 7
    ensures Handled([line]) == 1
    ensures Accepted([line]) == [] && Rejected([line]) == [line] && ErrorRows([line]) == []
  {
    assert [line][..0] == [];
  }

  /** The two inputs the validator's unit tests pass, `invalid_input.txt` and
      `empty_input.txt`, are such lines: the result is empty. */
  lemma TestInputs()
    ensures Handled(["invalid_input.txt"]) == 1 && Accepted(["invalid_input.txt"]) == []
    ensures Handled(["empty_input.txt"]) == 1 && Accepted(["empty_input.txt"]) == []
  {
    assert ',' !in "invalid_input.txt";
    SingleShortLine("invalid_input.txt");
    assert ',' !in "empty_input.txt";
    SingleShortLine("empty_input.txt");
  }
}
