/** One consumption line, `CustomerID,Date,Usage1,Usage2,Usage3,Usage4,Quality[,ErrorCode[,ErrorDescription]]`,
    as the validators look at it. */
module ConsumptionRecord {
  import opened Wrappers
  import opened JavaInt
  import opened JavaString

  /** The fields a validator extracts from a line with at least seven fields. */
  datatype Reading = Reading(
    customerId: string,
    readingDate: string,
    usage1: Int32,  // 00:00 - 05:59, nighttime
    usage2: Int32,  // 06:00 - 11:59, daytime
    usage3: Int32,  // 12:00 - 17:59, daytime
    usage4: Int32,  // 18:00 - 23:59, nighttime
    quality: string)

  /** What the validation loop finds when it looks at one line:
      fewer than seven fields (written to the error sink, nothing parsed),
      a usage field `Integer.parseInt` rejects (the exception ends the whole call),
      or the parsed reading. */
  datatype Inspection = TooFewFields | Unparsable | Parsed(reading: Reading)

  function Inspect(line: string): Inspection
  {
    var fields := Split(line);
    if |fields| < 7 then TooFewFields
    else
      match (ParseInt(fields[2]), ParseInt(fields[3]), ParseInt(fields[4]), ParseInt(fields[5]))
      case (Some(u1), Some(u2), Some(u3), Some(u4)) =>
        Parsed(Reading(fields[0], fields[1], u1, u2, u3, u4, fields[6]))
      case _ => Unparsable
  }

  /** The statements the validation loops run on each line before the
      acceptance test: split the line, and parse the four usage fields when
      there are at least seven fields. */
  method InspectLine(line: string) returns (v: Inspection)
    ensures var f := Split(line);
      && (v.TooFewFields? <==> |f| < 7)
      && (v.Unparsable? <==> |f| >= 7 && exists j :: 2 <= j < 6 && ParseInt(f[j]).None?)
      && (v.Parsed? ==> forall j :: 2 <= j < 6 ==> ParseInt(f[j]).Some?)
      && (v.Parsed? ==> v.reading == Reading(f[0], f[1], ParseInt(f[2]).value, ParseInt(f[3]).value,
                                             ParseInt(f[4]).value, ParseInt(f[5]).value, f[6]))
    ensures v == Inspect(line)
  {
    var fields := Split(line);
    if |fields| < 7 {
      return TooFewFields;
    }
    var u1, u2, u3, u4 := ParseInt(fields[2]), ParseInt(fields[3]), ParseInt(fields[4]), ParseInt(fields[5]);
    if u1.None? || u2.None? || u3.None? || u4.None? {
      return Unparsable;
    }
    v := Parsed(Reading(fields[0], fields[1], u1.value, u2.value, u3.value, u4.value, fields[6]));
  }

  /** The acceptance rule: quality exactly "A" or "E", all four usages strictly positive. */
  predicate Acceptable(r: Reading)
  {
    && (r.quality == "A" || r.quality == "E")
    && r.usage1 > 0 && r.usage2 > 0 && r.usage3 > 0 && r.usage4 > 0
  }

  /** A line the validators keep. */
  predicate IsValid(line: string)
  {
    Inspect(line).Parsed? && Acceptable(Inspect(line).reading)
  }

  /** A line the validators write to the error sink. */
  predicate IsInvalid(line: string)
  {
    !IsValid(line)
  }

  /** A line the validation loop gets past without an exception. */
  predicate Survives(line: string)
  {
    !Inspect(line).Unparsable?
  }

  /** The line a producer of consumption files writes for a reading: its seven
      fields joined with commas, usages in Java's decimal notation. */
  function Format(r: Reading): string
  {
    Join([r.customerId, r.readingDate, ToString(r.usage1), ToString(r.usage2),
          ToString(r.usage3), ToString(r.usage4), r.quality])
  }

  /** Round trip: inspecting a formatted reading gives the reading back, when its
      text fields hold no comma and the quality flag is not empty (an empty last
      field would be dropped by `split`). */
  lemma InspectFormat(r: Reading)
    requires ',' !in r.customerId && ',' !in r.readingDate && ',' !in r.quality
    requires r.quality != ""
    ensures Inspect(Format(r)) == Parsed(r)
  {
    var fs := [r.customerId, r.readingDate, ToString(r.usage1), ToString(r.usage2),
               ToString(r.usage3), ToString(r.usage4), r.quality];
    ToStringNoComma(r.usage1);
    ToStringNoComma(r.usage2);
    ToStringNoComma(r.usage3);
    ToStringNoComma(r.usage4);
    SplitJoin(fs);
    ParseToString(r.usage1);
    ParseToString(r.usage2);
    ParseToString(r.usage3);
    ParseToString(r.usage4);
  }

  /** What the loops need from a line's inspection: whether it is kept, and
      whether the run gets past it. */
  lemma InspectionVerdict(line: string, v: Inspection)
    requires v == Inspect(line)
    ensures IsValid(line) <==> v.Parsed? && Acceptable(v.reading)
    ensures Survives(line) <==> !v.Unparsable?
  {
  }

  /** Acceptance spelled out on the split fields, in both directions. */
  lemma IsValidIff(line: string)
    ensures IsValid(line) <==>
      var f := Split(line);
      && |f| >= 7
      && (f[6] == "A" || f[6] == "E")
      && (forall j :: 2 <= j < 6 ==> ParseInt(f[j]).Some? && ParseInt(f[j]).value > 0)
  {
    var f := Split(line);
    if |f| >= 7 && IsValid(line) {
      assert forall j :: 2 <= j < 6 ==> ParseInt(f[j]).Some? && ParseInt(f[j]).value > 0 by {
        forall j | 2 <= j < 6 ensures ParseInt(f[j]).Some? && ParseInt(f[j]).value > 0 {
          assert j == 2 || j == 3 || j == 4 || j == 5;
        }
      }
    }
    if |f| >= 7 && (forall j :: 2 <= j < 6 ==> ParseInt(f[j]).Some?) {
      assert ParseInt(f[2]).Some? && ParseInt(f[3]).Some? && ParseInt(f[4]).Some? && ParseInt(f[5]).Some?;
    }
  }
}
