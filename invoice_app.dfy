/** `Main.main`: read the lookup file, validate the consumption file, total the
    accepted records per customer and bill every customer whose name is known,
    warning about the others. The map is a `HashMap`, whose iteration order is
    unspecified; the join below visits its keys in an arbitrary order and its
    results are stated as sets. */
module InvoiceApp {
  import opened Wrappers
  import opened JavaInt
  import opened Sequences
  import opened ConsumptionRecord
  import opened RecordValidation
  import opened MonthlyUsageCalculator
  import opened CustomerLookup
  import opened Usage

  /** The year `main` bills for. */
  const Year := "2023"

  /** One `BillGenerator.generateTxtBill(customerId, customerName, usage, year)` call. */
  datatype BillCall = BillCall(customerId: string, customerName: string, usage: CustomerUsage, year: string)

  /** The ids that received a bill. */
  function BilledIds(bills: seq<BillCall>): set<string>
  {
    set b | b in bills :: b.customerId
  }

  /** The ids that drew a "Customer name not found" warning. */
  function WarnedIds(warned: seq<string>): set<string>
  {
    set id | id in warned
  }

  /** The ids of the usage map outside `todo` that have a name. */
  function NamedDone(usageMap: map<string, CustomerUsage>, customerNames: map<string, string>, todo: set<string>): set<string>
  {
    set id | id in usageMap && id !in todo && id in customerNames
  }

  /** The ids of the usage map outside `todo` that have no name. */
  function UnnamedDone(usageMap: map<string, CustomerUsage>, customerNames: map<string, string>, todo: set<string>): set<string>
  {
    set id | id in usageMap && id !in todo && id !in customerNames
  }

  /** What the loop of `main` has done once the ids left in `todo` remain:
      every other id of the usage map is billed with its name and usage
      object, when it has a name, or warned about, once. */
  ghost predicate Visited(usageMap: map<string, CustomerUsage>, customerNames: map<string, string>, year: string,
                          todo: set<string>, bills: seq<BillCall>, warned: seq<string>)
  {
    todo <= usageMap.Keys &&
    (forall b :: b in bills ==>
      b.customerId in usageMap && b.customerId !in todo && b.customerId in customerNames &&
      b.customerName == customerNames[b.customerId] && b.usage == usageMap[b.customerId] && b.year == year) &&
    BilledIds(bills) == NamedDone(usageMap, customerNames, todo) &&
    (forall w :: w in warned ==> w !in todo) &&
    WarnedIds(warned) == UnnamedDone(usageMap, customerNames, todo) &&
    (forall i, j :: 0 <= i < j < |bills| ==> bills[i].customerId != bills[j].customerId) &&
    (forall i, j :: 0 <= i < j < |warned| ==> warned[i] != warned[j]) &&
    |bills| + |warned| + |todo| == |usageMap.Keys|
  }

  /** Billing one more id with a name keeps `Visited`. */
  lemma VisitNamed(usageMap: map<string, CustomerUsage>, customerNames: map<string, string>, year: string,
                   todo: set<string>, bills: seq<BillCall>, warned: seq<string>, customerId: string)
    requires Visited(usageMap, customerNames, year, todo, bills, warned)
    requires customerId in todo && customerId in customerNames
    ensures Visited(usageMap, customerNames, year, todo - {customerId},
      bills + [BillCall(customerId, customerNames[customerId], usageMap[customerId], year)], warned)
  {
    var rest := todo - {customerId};
    BilledIdsSnoc(bills, BillCall(customerId, customerNames[customerId], usageMap[customerId], year));
    assert NamedDone(usageMap, customerNames, rest) == NamedDone(usageMap, customerNames, todo) + {customerId};
    assert UnnamedDone(usageMap, customerNames, rest) == UnnamedDone(usageMap, customerNames, todo);
  }

  /** Warning about one more id without a name keeps `Visited`. */
  lemma VisitUnnamed(usageMap: map<string, CustomerUsage>, customerNames: map<string, string>, year: string,
                     todo: set<string>, bills: seq<BillCall>, warned: seq<string>, customerId: string)
    requires Visited(usageMap, customerNames, year, todo, bills, warned)
    requires customerId in todo && customerId !in customerNames
    ensures Visited(usageMap, customerNames, year, todo - {customerId}, bills, warned + [customerId])
  {
    var rest := todo - {customerId};
    assert WarnedIds(warned + [customerId]) == WarnedIds(warned) + {customerId};
    assert NamedDone(usageMap, customerNames, rest) == NamedDone(usageMap, customerNames, todo);
    assert UnnamedDone(usageMap, customerNames, rest) == UnnamedDone(usageMap, customerNames, todo) + {customerId};
  }

  /** The `for` loop of `main` over `usageMap.entrySet()`: a bill call for each
      id with a name in `customerNames`, and, in `warned`, the id of each
      "Customer name not found" warning. */
  method BillCustomers(usageMap: map<string, CustomerUsage>, customerNames: map<string, string>, year: string)
      returns (bills: seq<BillCall>, warned: seq<string>)
    ensures forall b :: b in bills ==>
      b.customerId in usageMap && b.customerId in customerNames &&
      b.customerName == customerNames[b.customerId] && b.usage == usageMap[b.customerId] && b.year == year
    ensures BilledIds(bills) == set id | id in usageMap && id in customerNames
    ensures WarnedIds(warned) == set id | id in usageMap && id !in customerNames
    ensures forall i, j :: 0 <= i < j < |bills| ==> bills[i].customerId != bills[j].customerId
    ensures forall i, j :: 0 <= i < j < |warned| ==> warned[i] != warned[j]
    ensures |bills| + |warned| == |usageMap.Keys|
  {
    bills, warned := [], [];
    var todo := usageMap.Keys;
    while todo != {}
      invariant Visited(usageMap, customerNames, year, todo, bills, warned)
      decreases |todo|
    {
      var customerId :| customerId in todo;
      var usage := usageMap[customerId];
      if customerId in customerNames {
        VisitNamed(usageMap, customerNames, year, todo, bills, warned, customerId);
        var customerName := customerNames[customerId];
        bills := bills + [BillCall(customerId, customerName, usage, year)];
      } else {
        VisitUnnamed(usageMap, customerNames, year, todo, bills, warned, customerId);
        warned := warned + [customerId];
      }
      todo := todo - {customerId};
    }
    assert NamedDone(usageMap, customerNames, {}) == set id | id in usageMap && id in customerNames;
    assert UnnamedDone(usageMap, customerNames, {}) == set id | id in usageMap && id !in customerNames;
  }

  lemma BilledIdsSnoc(bills: seq<BillCall>, b: BillCall)
    ensures BilledIds(bills + [b]) == BilledIds(bills) + {b.customerId}
  {
    assert forall c :: c in bills + [b] <==> c in bills || c == b;
  }

  /** The lookup map `main` gets: `readCustomerLookup` catches a missing file
      and returns the empty map. */
  function NamesRead(lookup: seq<string>, lookupOpen: bool): Run<map<string, string>>
  {
    if lookupOpen then Lookup(lookup) else Done(map[])
  }

  /** The records `main` totals: those `validateRecords` accepts. */
  function RecordsRead(consumption: seq<string>, consumptionOpen: bool): Run<seq<string>>
  {
    if !consumptionOpen then Done([])
    else if Handled(consumption) < |consumption| then Thrown(NumberFormatException)
    else Done(Accepted(consumption))
  }

  /** `main`, on the contents of the two input files. The list
      `readConsumptionData` returns is never used and is not modelled. The
      first uncaught exception, of the lookup read or of validation, ends the
      run; totalling accepted records cannot throw. */
  method RunMain(consumption: seq<string>, consumptionOpen: bool, lookup: seq<string>, lookupOpen: bool)
      returns (r: Run<(seq<BillCall>, seq<string>)>)
    ensures NamesRead(lookup, lookupOpen).Thrown? ==> r == Thrown(NamesRead(lookup, lookupOpen).exception)
    ensures NamesRead(lookup, lookupOpen).Done? && RecordsRead(consumption, consumptionOpen).Thrown? ==>
      r == Thrown(NumberFormatException)
    ensures r.Done? ==> NamesRead(lookup, lookupOpen).Done? && RecordsRead(consumption, consumptionOpen).Done?
    ensures r.Done? ==>
      var names, records := NamesRead(lookup, lookupOpen).value, RecordsRead(consumption, consumptionOpen).value;
      MonthlyUsage(records).Done? &&
      BilledIds(r.value.0) == (set id | id in MonthlyUsage(records).value && id in names) &&
      WarnedIds(r.value.1) == (set id | id in MonthlyUsage(records).value && id !in names) &&
      forall b :: b in r.value.0 ==>
        b.customerId in MonthlyUsage(records).value && b.customerId in names &&
        b.customerName == names[b.customerId] && b.year == Year &&
        Totals(b.usage.daytimeUsage, b.usage.nighttimeUsage) == MonthlyUsage(records).value[b.customerId]
    ensures NamesRead(lookup, lookupOpen).Done? && RecordsRead(consumption, consumptionOpen).Done? ==> r.Done?
    ensures r.Done? ==>
      var records := RecordsRead(consumption, consumptionOpen).value;
      && (forall i, j :: 0 <= i < j < |r.value.0| ==> r.value.0[i].customerId != r.value.0[j].customerId)
      && (forall i, j :: 0 <= i < j < |r.value.1| ==> r.value.1[i] != r.value.1[j])
      && |r.value.0| + |r.value.1| == |MonthlyUsage(records).value.Keys|
  {
    var customerNames := ReadCustomerLookup(lookup, lookupOpen);
    if customerNames.Thrown? {
      return Thrown(customerNames.exception);
    }
    var validRecords, errorLines := ValidateRecords(consumption, consumptionOpen);
    if validRecords.Thrown? {
      return Thrown(validRecords.exception);
    }
    ValidRecordsTotal(consumption, consumptionOpen);
    var usageMap := CalculateMonthlyUsage(validRecords.value);
    if usageMap.Thrown? {
      assert false;
    }
    var bills, warned := BillCustomers(usageMap.value, customerNames.value, Year);
    r := Done((bills, warned));
  }

  /** The records that pass validation always total without an exception. */
  lemma ValidRecordsTotal(consumption: seq<string>, consumptionOpen: bool)
    requires RecordsRead(consumption, consumptionOpen).Done?
    ensures MonthlyUsage(RecordsRead(consumption, consumptionOpen).value).Done?
  {
    var records := RecordsRead(consumption, consumptionOpen).value;
    if consumptionOpen {
      AcceptedMembers(consumption);
      forall i | 0 <= i < |records| ensures IsValid(records[i]) {
        assert records[i] in Accepted(consumption);
      }
    }
    AcceptedNeverThrows(records);
  }

  /** The customer of a valid line of a file that validates has a total. */
  lemma ValidLineCounted(consumption: seq<string>, line: string)
    requires Handled(consumption) == |consumption|
    requires line in consumption && IsValid(line)
    ensures MonthlyUsage(Accepted(consumption)).Done?
    ensures Parses(line) && ParseRecord(line).value.customerId in MonthlyUsage(Accepted(consumption)).value
  {
    ValidRecordsTotal(consumption, true);
    var records := Accepted(consumption);
    AcceptedMembers(consumption);
    MonthlyUsageHasEveryCustomer(records);
    var i :| 0 <= i < |records| && records[i] == line;
  }

  /** Every customer with a total has a valid line in the file. */
  lemma CountedFromValidLine(consumption: seq<string>, id: string)
    requires Handled(consumption) == |consumption|
    requires MonthlyUsage(Accepted(consumption)).Done? && id in MonthlyUsage(Accepted(consumption)).value
    ensures exists line :: line in consumption && IsValid(line) && Parses(line) && ParseRecord(line).value.customerId == id
  {
    var records := Accepted(consumption);
    AcceptedMembers(consumption);
    MonthlyUsageOnlyCustomers(records);
    var i :| 0 <= i < |records| && Parses(records[i]) && ParseRecord(records[i]).value.customerId == id;
    assert records[i] in records;
  }

  /** Usage is computed only from records that passed validation: a customer
      has a total exactly when one of the file's valid lines is theirs. */
  lemma UsageFromValidRecordsOnly(consumption: seq<string>)
    requires Handled(consumption) == |consumption|
    ensures MonthlyUsage(Accepted(consumption)).Done?
    ensures forall id :: id in MonthlyUsage(Accepted(consumption)).value <==>
      exists line :: line in consumption && IsValid(line) && Parses(line) && ParseRecord(line).value.customerId == id
  {
    ValidRecordsTotal(consumption, true);
    forall id | exists line :: line in consumption && IsValid(line) && Parses(line) && ParseRecord(line).value.customerId == id
      ensures id in MonthlyUsage(Accepted(consumption)).value
    {
      var line :| line in consumption && IsValid(line) && Parses(line) && ParseRecord(line).value.customerId == id;
      ValidLineCounted(consumption, line);
    }
    forall id | id in MonthlyUsage(Accepted(consumption)).value
      ensures exists line :: line in consumption && IsValid(line) && Parses(line) && ParseRecord(line).value.customerId == id
    {
      CountedFromValidLine(consumption, id);
    }
  }

  /** A customer with usage but no name gets a warning and no bill; a name
      without usage gets nothing. */
  lemma UnknownCustomerWarned(usageMap: map<string, CustomerUsage>, names: map<string, string>,
                              bills: seq<BillCall>, warned: seq<string>, c: string)
    requires BilledIds(bills) == set id | id in usageMap && id in names
    requires WarnedIds(warned) == set id | id in usageMap && id !in names
    ensures c in usageMap && c !in names ==> c in warned && c !in BilledIds(bills)
    ensures c !in usageMap ==> c !in warned && c !in BilledIds(bills)
  {
    assert c in BilledIds(bills) <==> c in usageMap && c in names;
    assert c in WarnedIds(warned) <==> c in usageMap && c !in names;
  }

  /** The totals are Java `int`s: a consumption line that passes validation and
      whose two daytime usages add up past `MaxInt` (such as
      `300,01.06.2023,1,2147483647,2147483647,1,A`) gives its customer a
      negative daytime total, since `usage2 + usage3` wraps around. */
  lemma AcceptedRecordWrapsNegative(r: Reading)
    requires ',' !in r.customerId && ',' !in r.readingDate && ',' !in r.quality
    requires r.quality != "" && Acceptable(r)
    requires r.usage2 + r.usage3 > MaxInt
    ensures IsValid(Format(r)) && Accepted([Format(r)]) == [Format(r)]
    ensures var m := MonthlyUsage(Accepted([Format(r)]));
      && m.Done? && m.value.Keys == {r.customerId}
      && m.value[r.customerId].daytime == r.usage2 + r.usage3 - Modulus < 0
  {
    var line := Format(r);
    InspectFormat(r);
    assert IsValid(line);
    FilterKeepsAll([line], IsValid);
    ParseFormat(r);
    OneRecordWrapsNegative(line, UsageRecord(r.customerId, r.usage1, r.usage2, r.usage3, r.usage4));
  }
}
