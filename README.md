# invoiceAPP core, modelled in Dafny

This project models the core of an electricity invoicing application. The
application reads two inputs:

- a consumption file, with lines of the form
  `CustomerID,Date,Usage1,Usage2,Usage3,Usage4,Quality[,ErrorCode[,ErrorDescription]]`;
- a lookup file, with lines of the form `CustomerID,CustomerName`.

From them it computes one daytime total and one nighttime total per customer,
then writes a bill for every customer whose name it knows.

The model covers:

- **Record validation** (`RecordValidation`, `DataValidator`,
  `ConsumptionRecord`). A line is kept only when it has at least seven fields,
  quality `A` or `E`, and all four usages strictly positive.
  - Shorter lines go to the error sink.
  - A usage field that `Integer.parseInt` rejects throws
    `NumberFormatException` and ends the whole call.
  - `DataValidator` also stores one `error_records` row for each parsed line
    it rejects.
- **`CustomerUsage`** (`Usage`). A class with two Java `int` totals, updated
  in place with 32-bit wrap-around.
- **`calculateMonthlyUsage`** (`MonthlyUsageCalculator`). It folds the records
  into a map of fresh `CustomerUsage` objects. The method is proved against a
  functional specification, `Aggregate`/`MonthlyUsage`. The properties are
  lemmas about that specification: closed-form sums, independence of record
  order, and exact sums when nothing overflows.
- **Customer lookup** (`CustomerLookup`). `readCustomerLookup` and
  `loadCustomerNames` fold the lookup lines into a map with `HashMap.put`.
  - A later line for an id wins.
  - A line with fewer than two fields throws `ArrayIndexOutOfBoundsException`.
  - A file that cannot be opened gives the empty map.
- **The join loop of `main`** (`InvoiceApp`). Each id of the usage map either
  gets a bill call or draws a warning, never both.
- **Bill file names** (`BillFiles`). Each name is built from:
  - the output directory and the customer id;
  - the name, with `[^a-zA-Z0-9]` replaced by `_`;
  - a year, or an issue date with its dots turned into dashes;
  - `_bill.txt` or `_bill.pdf`.

  The model proves that a file name can be parsed back into the id and the
  sanitised name.

Java semantics are written out where they matter:

- `String.split(",")` drops trailing empty fields (`JavaString`).
- `Integer.parseInt` accepts an optional sign and decimal digits within the
  `int` range (`JavaInt`).
- `int` addition wraps modulo 2^32 (`JavaInt.Wrap`).

An exception that escapes a method is a whole-call result, `Thrown(e)` of
`Wrappers.Run`.

Behaviour of the code worth noting:

- Totals are Java `int`s. `int daytimeUsage = usage2 + usage3` and the
  additions in `CustomerUsage` wrap around
  (`src/main/java/org/example/invoiceapp/MonthlyUsageCalculator.java:16-21`,
  `src/main/java/org/example/invoiceapp/CustomerUsage.java:7-13`). A line that
  passes validation can therefore give its customer a negative total
  (`AcceptedRecordWrapsNegative`).
- `Integer.parseInt` runs outside any `try` in the validation loop
  (`src/main/java/org/example/invoiceapp/RecordValidator.java:25-28`). A usage
  field that fails to parse ends the whole validation call with
  `NumberFormatException`; no per-record error is recorded for it.
- The monthly bill of customer `123` is written to
  `src/main/resources/output/123.txt`, because `OUTPUT_DIR` is
  `src/main/resources/output/`
  (`src/main/java/org/example/invoiceapp/billing/MonthlyBillGenerator.java:16,69`).
  The generator's unit test looks for `src/main/resources/output/txt/123.txt`
  instead (`src/test/java/MonthlyBillGeneratorTest.java:24`,
  `MonthlyBillNameExample`).
- Nothing stops a customer id from holding `_`, and such ids can share a bill
  file with another customer: id `1_x` named `y` and id `1` named `x y` both
  get `1_x_y_<year>_bill.txt`
  (`src/main/java/org/example/invoiceapp/BillGenerator.java:20-21`,
  `UnderscoreIdsCollide`).

Each duplicated Java class is modelled once. Each copy listed below is
modelled by the Dafny member shown:

- `RecordValidator.validateRecords` and `data/RecordValidator.validateRecords`:
  `RecordValidation.ValidateRecords`. The loops are identical. The `data` copy
  first creates the error directory, and a failure there counts as a file that
  cannot be opened.
- `CustomerUsage` and `data/CustomerUsage`: `Usage.CustomerUsage`. The two
  constructors come from the `data` copy.
- `MonthlyUsageCalculator.calculateMonthlyUsage` and
  `billing/MonthlyUsageCalculator.calculateMonthlyUsage` (lines 62-93):
  `MonthlyUsageCalculator.CalculateMonthlyUsage`.
- Both `DataReader.readCustomerLookup` copies (`data/DataReader.java` lines
  33-46) and `billing/MonthlyBillGenerator.loadCustomerNames` (lines 50-65):
  `CustomerLookup.ReadCustomerLookup`.
- `data/DataReaderFromInputFiles.readCustomerLookup`:
  `CustomerLookup.ReadCustomerLookupAndClients`.

## Model

Source paths are relative to the repository root.

| member | source | states |
|---|---|---|
| ConsumptionRecord.InspectLine | src/main/java/org/example/invoiceapp/RecordValidator.java:18-28 | on the fields of `split(",")`: too few fields exactly when there are fewer than seven; unparsable exactly when there are seven or more and one of fields 2 to 5 is not an `int`; otherwise the reading is fields 0 and 1, the four parsed usages and field 6 |
| ConsumptionRecord.IsValidIff | src/main/java/org/example/invoiceapp/RecordValidator.java:30 | acceptance spelled out on the split fields in both directions: at least seven fields, quality exactly "A" or "E", all four usages parse and are > 0 |
| ConsumptionRecord.InspectFormat | src/main/java/org/example/invoiceapp/billing/MonthlyUsageCalculator.java:28-44 | round trip: a reading written as the first seven fields of the documented format (no error code or description; comma-free text fields, non-empty quality) is inspected back to exactly that reading |
| JavaInt.Wrap | src/main/java/org/example/invoiceapp/CustomerUsage.java:8 | the wrapped value is congruent to the true sum modulo 2^32 and equals it when it is in the `int` range |
| JavaInt.WrapAboveMax | src/main/java/org/example/invoiceapp/MonthlyUsageCalculator.java:16 | a sum of two `int`s above `MaxInt` wraps to the sum less 2^32, a negative `int` |
| JavaInt.WrapAdd | src/main/java/org/example/invoiceapp/CustomerUsage.java:7-9 | wrapping an intermediate sum does not change the wrapped total |
| JavaInt.ParseToString | src/main/java/org/example/invoiceapp/RecordValidator.java:25-28 | `parseInt` of the decimal text of any `int` gives that `int` back |
| JavaInt.ToStringNoComma | src/main/java/org/example/invoiceapp/RecordValidator.java:18 | the text of an `int` holds no comma, so it stays one field after `split(",")` |
| JavaString.SplitJoin | src/main/java/org/example/invoiceapp/RecordValidator.java:18 | `split(",")` of comma-joined comma-free fields whose last field is non-empty returns those fields |
| JavaString.JoinSplit | src/main/java/org/example/invoiceapp/RecordValidator.java:18 | joining the fields of a split line gives back the line minus the trailing commas that split drops |
| JavaString.SplitNoComma | src/main/java/org/example/invoiceapp/RecordValidator.java:18 | no field returned by `split(",")` contains a comma |
| JavaString.SplitEdgeCases | src/main/java/org/example/invoiceapp/RecordValidator.java:18 | Java's limit-0 split: "" gives [""], "," gives [], "a,," gives ["a"], ",b" gives ["", "b"] |
| RecordValidation.ValidateRecords | src/main/java/org/example/invoiceapp/RecordValidator.java:12-42 | an unopenable file gives the empty list and no error lines; otherwise the error sink holds the rejected lines up to the first unparsable line, and the call throws `NumberFormatException` there or returns the in-order valid lines |
| RecordValidation.AcceptedMembers | src/main/java/org/example/invoiceapp/RecordValidator.java:30-35 | a line is kept iff it is in the input and valid; it is written to the error sink iff it is in the input and not valid |
| RecordValidation.Partition | src/main/java/org/example/invoiceapp/RecordValidator.java:19-35 | kept and rejected lines together are a permutation of the input (multiset equality and lengths add up) |
| RecordValidation.AcceptedIsSublist | src/main/java/org/example/invoiceapp/RecordValidator.java:31 | the kept lines are the valid lines, unmodified, at strictly increasing input positions, and every valid position is among them |
| RecordValidation.AcceptedIdempotent | src/main/java/org/example/invoiceapp/RecordValidator.java:30-31 | validating the kept lines again runs to completion, keeps them all and rejects none |
| RecordValidation.ShortLineRejected | src/main/java/org/example/invoiceapp/RecordValidator.java:19-23 | a line with fewer than seven fields is never kept and is written to the error sink, and nothing of it is parsed |
| RecordValidation.SevenFieldLines | src/main/java/org/example/invoiceapp/RecordValidator.java:19-30 | a seven-field line with quality A and positive usages is valid; a zero usage or a quality outside {A, E} makes it invalid |
| RecordValidation.StopsAtFirstUnparsable | src/main/java/org/example/invoiceapp/RecordValidator.java:25-28 | the loop handles exactly the lines before the first unparsable one |
| RecordValidation.ParseBeforeQuality | src/main/java/org/example/invoiceapp/RecordValidator.java:24-30 | the usages are parsed before the quality is checked: a bad usage throws even when the quality would reject the line |
| DataValidator.ValidateRecords | src/main/java/org/example/invoiceapp/data/DataValidator.java:57-128 | the same outcome and error-file lines as `RecordValidation`, plus the database rows of the handled lines; failing sinks give the empty list with nothing written |
| DataValidator.LineRowIff | src/main/java/org/example/invoiceapp/data/DataValidator.java:87-114 | a line has a row iff it parsed and was rejected; the row holds its id, date, usages, quality, error code 0 and "Invalid record" |
| DataValidator.ErrorRowsOfRejected | src/main/java/org/example/invoiceapp/data/DataValidator.java:73-116 | the rows are exactly those of error-file lines that have one, and there are never more rows than error lines |
| DataValidator.SingleShortLine | src/main/java/org/example/invoiceapp/data/DataValidator.java:73-77 | a single line with fewer than seven fields is handled, rejected into the error file, with no row and no valid record |
| DataValidator.TestInputs | src/test/java/RecordValidatorTest.java:16-26 | the file names the unit tests pass as lines give no valid records and no exception |
| Usage.CustomerUsage.constructor | src/main/java/org/example/invoiceapp/data/CustomerUsage.java:35-38 | a new usage starts with both totals zero |
| Usage.CustomerUsage.WithUsage | src/main/java/org/example/invoiceapp/data/CustomerUsage.java:26-29 | a new usage holds the given totals |
| Usage.CustomerUsage.AddDaytimeUsage | src/main/java/org/example/invoiceapp/CustomerUsage.java:7-9 | the daytime total becomes the 32-bit wrapped sum; the nighttime total is unchanged |
| Usage.CustomerUsage.AddNighttimeUsage | src/main/java/org/example/invoiceapp/CustomerUsage.java:11-13 | the nighttime total becomes the 32-bit wrapped sum; the daytime total is unchanged |
| Usage.CustomerUsage.GetDaytimeUsage | src/main/java/org/example/invoiceapp/CustomerUsage.java:15-17 | returns the daytime total |
| Usage.CustomerUsage.GetNighttimeUsage | src/main/java/org/example/invoiceapp/CustomerUsage.java:19-21 | returns the nighttime total |
| Usage.AddsCommute | src/main/java/org/example/invoiceapp/CustomerUsage.java:7-9 | two additions in either order leave the same total, overflow included |
| Usage.AddsAssociate | src/main/java/org/example/invoiceapp/CustomerUsage.java:7-9 | two additions leave the same total as one addition of their wrapped sum |
| Usage.AddsWithoutOverflow | src/main/java/org/example/invoiceapp/CustomerUsage.java:7-9 | when the true sum fits an `int`, two additions leave exactly that sum |
| MonthlyUsageCalculator.UsageAt | src/main/java/org/example/invoiceapp/MonthlyUsageCalculator.java:11-14 | `parseInt(fields[i])` succeeds iff the index exists and the text parses; a missing index throws `ArrayIndexOutOfBoundsException(i)` and an unparsable field `NumberFormatException` |
| MonthlyUsageCalculator.CalculateMonthlyUsage | src/main/java/org/example/invoiceapp/MonthlyUsageCalculator.java:6-25 | throws iff the specification throws, with the same exception; otherwise the same keys, each mapped to a fresh, unshared `CustomerUsage` whose totals are the specification's |
| MonthlyUsageCalculator.AddToUsageMap | src/main/java/org/example/invoiceapp/MonthlyUsageCalculator.java:19-22 | one iteration: `getOrDefault`, the two additions and `put` leave the map that mirrors `Add` on the totals, with fresh or previously stored objects and no sharing |
| MonthlyUsageCalculator.AddElsewhere | src/main/java/org/example/invoiceapp/MonthlyUsageCalculator.java:19-22 | one record leaves every other customer's totals alone |
| MonthlyUsageCalculator.AggregateDaytime | src/main/java/org/example/invoiceapp/MonthlyUsageCalculator.java:12-20 | a customer's daytime total is the wrapped sum of `usage2 + usage3` over its records |
| MonthlyUsageCalculator.AggregateNighttime | src/main/java/org/example/invoiceapp/MonthlyUsageCalculator.java:11-21 | a customer's nighttime total is the wrapped sum of `usage1 + usage4` over its records |
| MonthlyUsageCalculator.AggregateTotals | src/main/java/org/example/invoiceapp/MonthlyUsageCalculator.java:8-23 | each customer's totals are the wrapped sums of its records' slots; a customer without records reads as zero |
| MonthlyUsageCalculator.AggregateKeys | src/main/java/org/example/invoiceapp/MonthlyUsageCalculator.java:19-22 | the keys are exactly the customer ids of the records |
| MonthlyUsageCalculator.AggregateIsSums | src/main/java/org/example/invoiceapp/MonthlyUsageCalculator.java:6-25 | the whole map in closed form: one entry per id, holding the wrapped daytime and nighttime sums |
| MonthlyUsageCalculator.AggregateOrderIndependent | src/main/java/org/example/invoiceapp/MonthlyUsageCalculator.java:8-22 | any permutation of the records gives the same map |
| MonthlyUsageCalculator.AggregateWithoutOverflow | src/main/java/org/example/invoiceapp/MonthlyUsageCalculator.java:16-21 | when the sums fit an `int`, the totals are the plain sums |
| MonthlyUsageCalculator.AddTouchesOneCustomer | src/main/java/org/example/invoiceapp/MonthlyUsageCalculator.java:19-22 | one more record adds at most its own id to the keys and changes no other entry |
| MonthlyUsageCalculator.DuplicateCountedTwice | src/main/java/org/example/invoiceapp/MonthlyUsageCalculator.java:8-22 | there is no de-duplication: a record seen twice adds its usages twice |
| MonthlyUsageCalculator.MonthlyUsageThrows | src/main/java/org/example/invoiceapp/MonthlyUsageCalculator.java:8-14 | a loop that reaches an unparsable record ends with that record's exception |
| MonthlyUsageCalculator.ParseRecordIff | src/main/java/org/example/invoiceapp/MonthlyUsageCalculator.java:9-14 | a record parses iff it has at least six fields and fields 2 to 5 parse; the result holds field 0 and those four values |
| MonthlyUsageCalculator.ShortRecordThrows | src/main/java/org/example/invoiceapp/MonthlyUsageCalculator.java:9-14 | a record with fewer than six fields throws, with `ArrayIndexOutOfBoundsException(0)` for no fields, `(2)` for one or two fields, and the field count for three to five fields whose usages parse |
| MonthlyUsageCalculator.OnlyIdAndUsagesRead | src/main/java/org/example/invoiceapp/MonthlyUsageCalculator.java:10-14 | date, quality and error fields are never read: records that agree on field 0 and fields 2 to 5 give the same result |
| MonthlyUsageCalculator.ValidLineParses | src/main/java/org/example/invoiceapp/MonthlyUsageCalculator.java:11-14 | a line the validators keep parses to the same id and usages, all positive |
| MonthlyUsageCalculator.AcceptedNeverThrows | src/main/java/org/example/invoiceapp/Main.java:17-18 | the calculator never throws on lines that are all valid |
| MonthlyUsageCalculator.MonthlyUsageHasEveryCustomer | src/main/java/org/example/invoiceapp/MonthlyUsageCalculator.java:19-22 | in a completed call, every record's customer has an entry |
| MonthlyUsageCalculator.MonthlyUsageOnlyCustomers | src/main/java/org/example/invoiceapp/MonthlyUsageCalculator.java:19-22 | in a completed call, every entry belongs to some parsed record |
| MonthlyUsageCalculator.MonthlyUsageAllParse | src/main/java/org/example/invoiceapp/MonthlyUsageCalculator.java:8-24 | a call on records that all parse completes with their aggregate |
| MonthlyUsageCalculator.MonthlyUsageOfOneRecord | src/main/java/org/example/invoiceapp/MonthlyUsageCalculator.java:8-24 | one record gives one entry: its customer with the record's wrapped deltas |
| MonthlyUsageCalculator.MonthlyUsageOfRepeatedRecord | src/main/java/org/example/invoiceapp/MonthlyUsageCalculator.java:8-24 | the same record twice adds its deltas twice to one entry |
| MonthlyUsageCalculator.ParseFormat | src/main/java/org/example/invoiceapp/billing/MonthlyUsageCalculator.java:67-74 | a line written in the consumption format parses to its id and four usages |
| MonthlyUsageCalculator.SingleRecordScenario | src/main/java/org/example/invoiceapp/MonthlyUsageCalculator.java:8-24 | usages 10, 20, 30, 40 give totals 50/50 once and 100/100 twice |
| MonthlyUsageCalculator.NegativeUsagesSummed | src/main/java/org/example/invoiceapp/MonthlyUsageCalculator.java:16-21 | the calculator itself does not reject zero or negative usages; they are summed as they are |
| MonthlyUsageCalculator.FirstRecordWrapsNegative | src/main/java/org/example/invoiceapp/MonthlyUsageCalculator.java:16-22 | the first record of a customer whose daytime usages add up past `MaxInt` leaves that customer the only key, with daytime total the sum less 2^32 |
| MonthlyUsageCalculator.OneRecordWrapsNegative | src/main/java/org/example/invoiceapp/MonthlyUsageCalculator.java:8-24 | a call on one such record succeeds with one customer whose daytime total is the sum less 2^32 |
| InvoiceApp.AcceptedRecordWrapsNegative | src/main/java/org/example/invoiceapp/MonthlyUsageCalculator.java:16-20 | the formatted line of any acceptable reading whose daytime usages add up past `MaxInt` passes validation, and totalling it gives its customer a negative daytime total (the sum less 2^32) |
| CustomerLookup.EntryOfFields | src/main/java/org/example/invoiceapp/DataReader.java:30-31 | `put(fields[0], fields[1])` succeeds iff there are two fields and stores them; otherwise it throws the index exception of the first missing field |
| CustomerLookup.ReadCustomerLookup | src/main/java/org/example/invoiceapp/DataReader.java:25-38 | an unopenable file gives the empty map; otherwise the result is the specification `Lookup` of the lines |
| CustomerLookup.ReadCustomerLookupAndClients | src/main/java/org/example/invoiceapp/data/DataReaderFromInputFiles.java:50-66 | the same map, and one `addClient` call per line that got through the loop, in line order |
| CustomerLookup.NamesKeys | src/main/java/org/example/invoiceapp/DataReader.java:31 | the map's keys are the ids of the pairs put into it |
| CustomerLookup.NamesLastWins | src/main/java/org/example/invoiceapp/DataReader.java:31 | an id's name is the one of the last pair with that id |
| CustomerLookup.LookupLastWins | src/main/java/org/example/invoiceapp/DataReader.java:29-32 | in a completed read, a line with no later line for its id gives that id its field 1 |
| CustomerLookup.LookupKeys | src/main/java/org/example/invoiceapp/DataReader.java:29-32 | a completed read had at least two fields on every line, and its keys are exactly the lines' first fields |
| CustomerLookup.LookupThrowsIff | src/main/java/org/example/invoiceapp/DataReader.java:29-32 | the read throws iff some line has fewer than two fields, and then it throws for the first such line |
| CustomerLookup.ExtraFieldsIgnored | src/main/java/org/example/invoiceapp/DataReader.java:30-31 | fields after the name are ignored |
| CustomerLookup.CommaInNameTruncates | src/main/java/org/example/invoiceapp/DataReader.java:30-31 | a name that contains a comma keeps only the part before the comma |
| CustomerLookup.NamelessLines | src/main/java/org/example/invoiceapp/DataReader.java:30-31 | a blank line, a bare id and an id followed by a comma each throw for index 1 |
| CustomerLookup.EmptyLookup | src/main/java/org/example/invoiceapp/DataReader.java:26-37 | an empty file gives the empty map |
| BillFiles.Sanitize | src/main/java/org/example/invoiceapp/BillGenerator.java:20 | same length; each character in `[a-zA-Z0-9]` is kept and every other character becomes `_` |
| BillFiles.SanitizedAlphabet | src/main/java/org/example/invoiceapp/BillGenerator.java:20 | a sanitised name is made of `[a-zA-Z0-9_]` only |
| BillFiles.SanitizeFixedPoints | src/main/java/org/example/invoiceapp/BillGenerator.java:20 | sanitising leaves a name unchanged iff it is made of `[a-zA-Z0-9_]` |
| BillFiles.SanitizeIdempotent | src/main/java/org/example/invoiceapp/BillGenerator.java:20 | sanitising twice is sanitising once |
| BillFiles.SanitizeMerges | src/main/java/org/example/invoiceapp/BillGenerator.java:20 | "John Doe" and "John.Doe" both become "John_Doe" |
| BillFiles.ReplaceDots | src/main/java/org/example/invoiceapp/billing/BillGenerator.java:60 | same length; each `.` becomes `-` and every other character is kept |
| BillFiles.ReplaceDotsRemovesDots | src/main/java/org/example/invoiceapp/billing/BillGenerator.java:60 | no `.` is left, and a date without dots is unchanged |
| BillFiles.BillName | src/main/java/org/example/invoiceapp/BillGenerator.java:21 | the name has the right length, starts with the directory and ends with the tag, `_bill` and the extension |
| BillFiles.ParseBillNameRoundTrip | src/main/java/org/example/invoiceapp/BillGenerator.java:21 | for an id without `_`, the file name parses back to the id and the sanitised name |
| BillFiles.BillNamesDistinct | src/main/java/org/example/invoiceapp/BillGenerator.java:21 | distinct ids without `_` never share a bill file |
| BillFiles.UnderscoreIdsCollide | src/main/java/org/example/invoiceapp/BillGenerator.java:20-21 | ids holding `_` can collide: id `1_x` named `y` and id `1` named `x y` get the same file name |
| BillFiles.RootBillNamesParse | src/main/java/org/example/invoiceapp/BillGenerator.java:19-51 | the TXT and PDF names of the application-package generator parse back under the caller's year |
| BillFiles.BillingBillNamesParse | src/main/java/org/example/invoiceapp/billing/BillGenerator.java:25-61 | the `billing` generator's TXT name parses back under the year, and its PDF name under the dashed issue date |
| BillFiles.ConfiguredBillNamesParse | src/main/java/org/example/invoiceapp/billing/BillGeneratorTxtAndPDF.java:49-109 | the TXT name always carries the year 2023, and the PDF name carries the dashed issue date; both parse back |
| BillFiles.NoDotAfterId | src/main/java/org/example/invoiceapp/billing/BillGenerator.java:60-61 | after the id, a name whose tag has no `.` contains no `.` before its extension |
| BillFiles.PdfNameHasNoDotAfterId | src/main/java/org/example/invoiceapp/billing/BillGeneratorTxtAndPDF.java:108-109 | a PDF name built from an issue date has no `.` between the id and `.pdf` |
| BillFiles.MonthlyBillName | src/main/java/org/example/invoiceapp/billing/MonthlyBillGenerator.java:69 | the output directory, then the id, then `.txt` |
| BillFiles.MonthlyBillNamesDistinct | src/main/java/org/example/invoiceapp/billing/MonthlyBillGenerator.java:69 | distinct ids get distinct monthly bill files |
| BillFiles.MonthlyBillNameExample | src/main/java/org/example/invoiceapp/billing/MonthlyBillGenerator.java:69 | customer "123" is billed to `src/main/resources/output/123.txt` |
| InvoiceApp.BillCustomers | src/main/java/org/example/invoiceapp/Main.java:20-30 | every usage-map id with a name gets exactly one bill call, carrying its name, its usage and the year; every id without a name gets exactly one warning; there are as many calls plus warnings as ids |
| InvoiceApp.RunMain | src/main/java/org/example/invoiceapp/Main.java:10-31 | a lookup exception ends the run first, then a validation exception; when both reads succeed the run completes, the billed and warned ids split the totalled customers by whether they have a name, no id is billed or warned twice, there is one bill or warning per customer, and every bill carries the `MonthlyUsage` totals |
| InvoiceApp.ValidRecordsTotal | src/main/java/org/example/invoiceapp/Main.java:17-18 | totalling the validated records never throws |
| InvoiceApp.ValidLineCounted | src/main/java/org/example/invoiceapp/Main.java:17-18 | the customer of every valid line has a total |
| InvoiceApp.CountedFromValidLine | src/main/java/org/example/invoiceapp/Main.java:17-18 | every customer with a total has a valid line in the file |
| InvoiceApp.UsageFromValidRecordsOnly | src/main/java/org/example/invoiceapp/Main.java:17-18 | a customer has a total iff some valid line of the consumption file is theirs |
| InvoiceApp.UnknownCustomerWarned | src/main/java/org/example/invoiceapp/Main.java:23-29 | a customer with usage but no name is warned about and not billed; an id without usage is neither |

## Left out

- File and console I/O, logging, JDBC and PDF rendering are left out. Readers
  are modelled by the lines they deliver plus a flag saying whether the file
  could be opened. Logger warnings are modelled as the list of ids they name.
- An `IOException` or `SQLException` in the middle of a read or a write is not
  modelled. The model covers only the failure to open a file, which makes the
  method return what it has collected so far: nothing.
- Bill contents are left out. This covers the `double` cost arithmetic
  (`0.15`/`0.05` per unit), `String.format("%.2f")` and the bill text, because
  floating point and formatting are outside the model. The bill generators
  are modelled only by their file names.
- `saveBillToDatabase` and `DataReaderFromInputFiles.addClient` are left out,
  because they only talk to the database. `addClient` is modelled as the
  sequence of its calls, and it catches its own `SQLException`.
- `ConfigLoader` properties are left out; the configured output directories
  are parameters of the file-name functions.
- `DataReader.readConsumptionData` is called by `main` but its result is never
  used, so it is not modelled.
- `DataValidator`'s conversion of the reading date with
  `LocalDate.parse(readingDate, "dd.MM.yyyy")` is left out. The row keeps the
  date text as it is. A date that does not parse would throw
  `DateTimeParseException`, and that path is not modelled.
- JavaInt.ParseInt: accepts only ASCII digits, where `Integer.parseInt` also
  accepts the other Unicode decimal digits.
- `HashMap` iteration order is unspecified, so `InvoiceApp.BillCustomers`
  visits the ids in an arbitrary order. Its results are stated as sets and
  lengths, not as a particular order.
- `CustomerUsage` objects are modelled with exclusive ownership.
  `CalculateMonthlyUsage` creates a fresh object per id and never shares one,
  which is what the Java loop does.
- `String` is a sequence of characters, and `replaceAll("[^a-zA-Z0-9]", "_")`
  works one character at a time. Surrogate pairs are not treated specially.
