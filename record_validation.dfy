/** `RecordValidator.validateRecords`: keep the acceptable lines of a consumption
    file, in order, and write every other line to the error file. The same loop
    exists in the application package and in the `data` package; the only
    difference between the two is the error file's path. */
module RecordValidation {
  import opened Wrappers
  import opened JavaInt
  import opened JavaString
  import opened Sequences
  import opened ConsumptionRecord

  /** The lines a complete run keeps: the in-order sublist of valid lines. */
  function Accepted(lines: seq<string>): seq<string>
  {
    Filter(lines, IsValid)
  }

  /** The lines a complete run writes to the error sink, in order. */
  function Rejected(lines: seq<string>): seq<string>
  {
    Filter(lines, IsInvalid)
  }

  /** The number of lines handled before a usage field fails to parse. */
  function Handled(lines: seq<string>): nat
  {
    PrefixWhile(lines, Survives)
  }

  /** `validateRecords(filePath)`. `lines` is the content of the consumption
      file, one string per line; `fileOpen` says whether that file and the error
      file could be opened. When they cannot, the `IOException` is caught and the
      empty list returned, with nothing written. Otherwise the result is the
      accepted lines, or the `NumberFormatException` of the first line with seven
      or more fields whose usage fields are not all integers; `errors` is what
      reached the error file, every rejected line before that point. */
  method ValidateRecords(lines: seq<string>, fileOpen: bool) returns (r: Run<seq<string>>, errors: seq<string>)
    ensures !fileOpen ==> r == Done([]) && errors == []
    ensures fileOpen ==> errors == Rejected(lines[..Handled(lines)])
    ensures fileOpen && Handled(lines) < |lines| ==> r == Thrown(NumberFormatException)
    ensures fileOpen && Handled(lines) == |lines| ==> r == Done(Accepted(lines))
  {
    var validRecords: seq<string> := [];
    errors := [];
    if !fileOpen {
      return Done(validRecords), errors;
    }
    var i := 0;
    while i < |lines|
      invariant 0 <= i <= |lines|
      invariant i <= Handled(lines)
      invariant validRecords == Accepted(lines[..i])
      invariant errors == Rejected(lines[..i])
    {
      var line := lines[i];
      ValidationStep(lines, i);
      PrefixWhileStep(lines, Survives, i);
      var v := InspectLine(line);
      InspectionVerdict(line, v);
      match v {
        case TooFewFields =>
          errors := errors + [line];
        case Unparsable =>
          r := Thrown(NumberFormatException);
          return;
        case Parsed(reading) =>
          if Acceptable(reading) {
            validRecords := validRecords + [line];
          } else {
            errors := errors + [line];
          }
      }
      i := i + 1;
    }
    assert lines[..i] == lines;
    r := Done(validRecords);
  }

  /** One iteration, on the specification: the line joins the kept lines when
      it is valid and the error lines otherwise. */
  lemma ValidationStep(lines: seq<string>, i: nat)
    requires i < |lines|
    ensures Accepted(lines[..i + 1]) == Accepted(lines[..i]) + (if IsValid(lines[i]) then [lines[i]] else [])
    ensures Rejected(lines[..i + 1]) == Rejected(lines[..i]) + (if IsValid(lines[i]) then [] else [lines[i]])
  {
    FilterStep(lines, IsValid, i);
    FilterStep(lines, IsInvalid, i);
  }

  /** A line is kept exactly when it is in the input and valid; it goes to the
      error sink exactly when it is in the input and not valid. */
  lemma AcceptedMembers(lines: seq<string>)
    ensures forall x :: x in Accepted(lines) <==> x in lines && IsValid(x)
    ensures forall x :: x in Rejected(lines) <==> x in lines && !IsValid(x)
  {
    FilterMembers(lines, IsValid);
    FilterMembers(lines, IsInvalid);
  }

  /** Every line ends up in exactly one of the two outputs: together they hold
      the input, line for line. */
  lemma Partition(lines: seq<string>)
    ensures multiset(Accepted(lines)) + multiset(Rejected(lines)) == multiset(lines)
    ensures |Accepted(lines)| + |Rejected(lines)| == |lines|
  {
    FilterPartition(lines, IsValid, IsInvalid);
  }

  /** The kept lines are the input's valid lines, in input order and unmodified:
      `idx` gives the strictly increasing input position of each kept line, and
      every valid input position appears in it. */
  lemma AcceptedIsSublist(lines: seq<string>) returns (idx: seq<nat>)
    ensures |idx| == |Accepted(lines)| <= |lines|
    ensures forall j :: 0 <= j < |idx| ==> idx[j] < |lines| && Accepted(lines)[j] == lines[idx[j]]
    ensures forall j, j' :: 0 <= j < j' < |idx| ==> idx[j] < idx[j']
    ensures forall i :: 0 <= i < |lines| && IsValid(lines[i]) ==> i in idx
  {
    idx := FilterSublist(lines, IsValid);
  }

  /** Validating the kept lines again runs to completion, keeps all of them and
      writes nothing to the error sink. */
  lemma AcceptedIdempotent(lines: seq<string>)
    ensures Handled(Accepted(lines)) == |Accepted(lines)|
    ensures Accepted(Accepted(lines)) == Accepted(lines)
    ensures Rejected(Accepted(lines)) == []
  {
    var a := Accepted(lines);
    FilterMembers(lines, IsValid);
    FilterKeepsAll(a, IsValid);
    FilterDropsAll(a, IsInvalid);
    forall i | 0 <= i < |a| ensures Survives(a[i]) {
      assert a[i] in a;
    }
    PrefixWhileAll(a, Survives);
  }

  /** A line with fewer than seven fields is never kept and its usage fields are
      not parsed, so it does not stop the run: within the handled part it is written to the error sink. */
  lemma ShortLineRejected(lines: seq<string>, i: nat)
    requires i < |lines| && |Split(lines[i])| < 7
    requires i < Handled(lines)
    ensures Inspect(lines[i]) == TooFewFields
    ensures lines[i] !in Accepted(lines)
    ensures lines[i] in Rejected(lines[..Handled(lines)])
  {
    var k := Handled(lines);
    FilterMembers(lines, IsValid);
    FilterMembers(lines[..k], IsInvalid);
    assert lines[..k][i] == lines[i];
  }

  /** A line with seven fields (no error code or description), quality "A" and
      positive usages is kept; the same line with a zero usage or quality "Z" is not. */
  lemma SevenFieldLines()
    ensures IsValid(Format(Reading("300", "01.06.2023", 10, 20, 30, 40, "A")))
    ensures !IsValid(Format(Reading("300", "01.06.2023", 0, 20, 30, 40, "A")))
    ensures !IsValid(Format(Reading("300", "01.06.2023", 10, 20, 30, 40, "Z")))
  {
    InspectFormat(Reading("300", "01.06.2023", 10, 20, 30, 40, "A"));
    InspectFormat(Reading("300", "01.06.2023", 0, 20, 30, 40, "A"));
    InspectFormat(Reading("300", "01.06.2023", 10, 20, 30, 40, "Z"));
  }

  /** The run stops at the first line whose usage fields do not all parse, and
      at no other line. */
  lemma StopsAtFirstUnparsable(lines: seq<string>, i: nat)
    requires i < |lines| && Inspect(lines[i]) == Unparsable
    requires forall j :: 0 <= j < i ==> Inspect(lines[j]) != Unparsable
    ensures Handled(lines) == i
  {
    PrefixWhileStops(lines, Survives);
  }

  /** The usage fields are parsed before the quality flag is looked at: a line
      with a non-integer usage and a bad quality throws rather than being
      written to the error sink. */
  lemma ParseBeforeQuality()
    ensures Inspect(Join(["300", "01.06.2023", "x", "20", "30", "40", "Z"])) == Unparsable
  {
    var fs := ["300", "01.06.2023", "x", "20", "30", "40", "Z"];
    SplitJoin(fs);
    assert ParseInt(fs[2]) == None;
  }
}
