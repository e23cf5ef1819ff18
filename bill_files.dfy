/** The file names under which the bill generators write their bills: the
    customer name is sanitised with `replaceAll("[^a-zA-Z0-9]", "_")`, the
    issue date has its dots turned into dashes with `replace(".", "-")`, and the
    pieces are concatenated behind an output directory. */
module BillFiles {
  import opened Wrappers

  /** The characters of the class `[a-zA-Z0-9]`. */
  predicate IsAlphanumeric(c: char)
  {
    'a' <= c <= 'z' || 'A' <= c <= 'Z' || '0' <= c <= '9'
  }

  /** The characters a sanitised name is made of: `[a-zA-Z0-9_]`. */
  predicate IsFileNameChar(c: char)
  {
    IsAlphanumeric(c) || c == '_'
  }

  /** `name.replaceAll("[^a-zA-Z0-9]", "_")`: each character outside the class
      becomes one `_`, and the others stay where they are. A string here is a
      sequence of code points, which is what the regular expression matches. */
  function Sanitize(name: string): (r: string)
    ensures |r| == |name|
    ensures forall i :: 0 <= i < |name| ==> (if IsAlphanumeric(name[i]) then r[i] == name[i] else r[i] == '_')
  {
    if name == [] then []
    else [if IsAlphanumeric(name[0]) then name[0] else '_'] + Sanitize(name[1..])
  }

  /** The output alphabet is `[a-zA-Z0-9_]`. */
  lemma SanitizedAlphabet(name: string)
    ensures forall i :: 0 <= i < |Sanitize(name)| ==> IsFileNameChar(Sanitize(name)[i])
  {
  }

  /** A name is left alone by sanitisation exactly when it is made of
      `[a-zA-Z0-9_]` already. */
  lemma SanitizeFixedPoints(name: string)
    ensures Sanitize(name) == name <==> forall i :: 0 <= i < |name| ==> IsFileNameChar(name[i])
  {
    if forall i :: 0 <= i < |name| ==> IsFileNameChar(name[i]) {
      assert forall i :: 0 <= i < |name| ==> Sanitize(name)[i] == name[i];
    } else {
      var i :| 0 <= i < |name| && !IsFileNameChar(name[i]);
      assert Sanitize(name)[i] != name[i];
    }
  }

  /** Sanitising twice is sanitising once. */
  lemma SanitizeIdempotent(name: string)
    ensures Sanitize(Sanitize(name)) == Sanitize(name)
  {
    SanitizedAlphabet(name);
    SanitizeFixedPoints(Sanitize(name));
  }

  /** Names that differ only in their punctuation get the same sanitised name. */
  lemma SanitizeMerges()
    ensures Sanitize("John Doe") == Sanitize("John.Doe") == "John_Doe"
  {
    assert !IsAlphanumeric(' ') && !IsAlphanumeric('.');
  }

  /** `date.replace(".", "-")`: every `.` becomes `-`. */
  function ReplaceDots(date: string): (r: string)
    ensures |r| == |date|
    ensures forall i :: 0 <= i < |date| ==> r[i] == (if date[i] == '.' then '-' else date[i])
  {
    if date == [] then []
    else [if date[0] == '.' then '-' else date[0]] + ReplaceDots(date[1..])
  }

  /** The formatted date has no `.` left, and keeps every other character. */
  lemma ReplaceDotsRemovesDots(date: string)
    ensures '.' !in ReplaceDots(date)
    ensures '.' !in date ==> ReplaceDots(date) == date
  {
  }

  /** The bill file name that all three generators build:
      `dir + id + "_" + sanitised name + "_" + tag + "_bill" + ext`, where the tag
      is a year or a formatted issue date and the extension `.txt` or `.pdf`. */
  function BillName(dir: string, id: string, name: string, tag: string, ext: string): (r: string)
    ensures |r| == |dir| + |id| + |name| + |tag| + |ext| + 7
    ensures r[..|dir|] == dir
    ensures r[|r| - |tag + "_bill" + ext|..] == tag + "_bill" + ext
  {
    dir + id + "_" + Sanitize(name) + "_" + tag + "_bill" + ext
  }

  /** The first position of `c` in `s`. */
  function IndexOf(s: string, c: char): (k: nat)
    requires c in s
    ensures k < |s| && s[k] == c && c !in s[..k]
  {
    if s[0] == c then 0 else 1 + IndexOf(s[1..], c)
  }

  /** Reads the id and the sanitised name back out of a bill file name whose
      directory, tag and extension are known; the id is taken to end at the
      first `_`. */
  function ParseBillName(dir: string, tag: string, ext: string, fileName: string): Option<(string, string)>
  {
    var suffix := "_" + tag + "_bill" + ext;
    if |fileName| < |dir| + |suffix| || fileName[..|dir|] != dir || fileName[|fileName| - |suffix|..] != suffix then None
    else
      var middle := fileName[|dir|..|fileName| - |suffix|];
      if '_' !in middle then None
      else
        var k := IndexOf(middle, '_');
        Some((middle[..k], middle[k + 1..]))
  }

  /** Round trip: for an id without `_`, the file name gives back the id and
      the sanitised name. */
  lemma ParseBillNameRoundTrip(dir: string, id: string, name: string, tag: string, ext: string)
    requires '_' !in id
    ensures ParseBillName(dir, tag, ext, BillName(dir, id, name, tag, ext)) == Some((id, Sanitize(name)))
  {
    var r := BillName(dir, id, name, tag, ext);
    var suffix := "_" + tag + "_bill" + ext;
    var s := Sanitize(name);
    assert r == dir + (id + "_" + s) + suffix;
    var middle := r[|dir|..|r| - |suffix|];
    assert middle == id + "_" + s;
    assert middle[|id|] == '_' && middle[..|id|] == id;
    var k := IndexOf(middle, '_');
    assert k == |id|;
    assert middle[k + 1..] == s;
  }

  /** Two customers whose ids differ and have no `_` never share a bill file. */
  lemma BillNamesDistinct(dir: string, id: string, name: string, id': string, name': string, tag: string, ext: string)
    requires '_' !in id && '_' !in id' && id != id'
    ensures BillName(dir, id, name, tag, ext) != BillName(dir, id', name', tag, ext)
  {
    ParseBillNameRoundTrip(dir, id, name, tag, ext);
    ParseBillNameRoundTrip(dir, id', name', tag, ext);
  }

  /** Without the `_` restriction names can collide: customer "1_x" named "y"
      and customer "1" named "x y" get the same bill file, so the later bill
      overwrites the earlier one. */
  lemma UnderscoreIdsCollide(dir: string, tag: string, ext: string)
    ensures BillName(dir, "1_x", "y", tag, ext) == BillName(dir, "1", "x y", tag, ext)
  {
    assert Sanitize("y") == "y";
    assert Sanitize("x y") == "x_y";
  }

  /** The directory constants of the three generators. */
  const RootOutputDir := "src/main/resources/output/"
  const RootPdfOutputDir := "src/main/resources/output/pdf/"
  const BillingOutputDir := "src/main/resources/output/txt/"
  const BillingPdfOutputDir := "src/main/resources/output/pdf/"
  const MonthlyOutputDir := "src/main/resources/output/"
  /** The year `BillGeneratorTxtAndPDF.generateTxtBill` always uses. */
  const FixedYear := "2023"

  /** Root `BillGenerator.generateTxtBill`: the TXT bill is named after the year. */
  function RootTxtBillName(id: string, name: string, year: string): string
  {
    BillName(RootOutputDir, id, name, year, ".txt")
  }

  /** Root `BillGenerator.generatePdfBill`: the PDF bill is named after the year too. */
  function RootPdfBillName(id: string, name: string, year: string): string
  {
    BillName(RootPdfOutputDir, id, name, year, ".pdf")
  }

  /** `billing.BillGenerator.generateTxtBill`: the caller's year. */
  function BillingTxtBillName(id: string, name: string, year: string): string
  {
    BillName(BillingOutputDir, id, name, year, ".txt")
  }

  /** `billing.BillGenerator.generatePdfBill`: the formatted issue date. */
  function BillingPdfBillName(id: string, name: string, issueDate: string): string
  {
    BillName(BillingPdfOutputDir, id, name, ReplaceDots(issueDate), ".pdf")
  }

  /** `BillGeneratorTxtAndPDF.generateTxtBill`: the configured directory and
      the fixed year. */
  function ConfiguredTxtBillName(outputDir: string, id: string, name: string): string
  {
    BillName(outputDir, id, name, FixedYear, ".txt")
  }

  /** `BillGeneratorTxtAndPDF.generatePdfBill`: the configured directory and
      the formatted issue date. */
  function ConfiguredPdfBillName(pdfOutputDir: string, id: string, name: string, issueDate: string): string
  {
    BillName(pdfOutputDir, id, name, ReplaceDots(issueDate), ".pdf")
  }

  /** `MonthlyBillGenerator.generateBill`: the id alone, as a `.txt` file. */
  function MonthlyBillName(id: string): (r: string)
    ensures |r| == |MonthlyOutputDir| + |id| + 4
    ensures r[..|MonthlyOutputDir|] == MonthlyOutputDir
    ensures r[|MonthlyOutputDir|..|r| - 4] == id
    ensures r[|r| - 4..] == ".txt"
  {
    MonthlyOutputDir + id + ".txt"
  }

  /** The monthly bill of a distinct id goes to a distinct file. */
  lemma MonthlyBillNamesDistinct(id: string, id': string)
    requires id != id'
    ensures MonthlyBillName(id) != MonthlyBillName(id')
  {
  }

  /** The root generator's TXT and PDF names give back the id and the
      sanitised name, under the year the caller passed. */
  lemma RootBillNamesParse(id: string, name: string, year: string)
    requires '_' !in id
    ensures ParseBillName(RootOutputDir, year, ".txt", RootTxtBillName(id, name, year)) == Some((id, Sanitize(name)))
    ensures ParseBillName(RootPdfOutputDir, year, ".pdf", RootPdfBillName(id, name, year)) == Some((id, Sanitize(name)))
  {
    ParseBillNameRoundTrip(RootOutputDir, id, name, year, ".txt");
    ParseBillNameRoundTrip(RootPdfOutputDir, id, name, year, ".pdf");
  }

  /** The `billing` generator names its TXT bill after the year and its PDF
      bill after the issue date with dashes for dots. */
  lemma BillingBillNamesParse(id: string, name: string, year: string, issueDate: string)
    requires '_' !in id
    ensures ParseBillName(BillingOutputDir, year, ".txt", BillingTxtBillName(id, name, year)) == Some((id, Sanitize(name)))
    ensures ParseBillName(BillingPdfOutputDir, ReplaceDots(issueDate), ".pdf", BillingPdfBillName(id, name, issueDate)) == Some((id, Sanitize(name)))
  {
    ParseBillNameRoundTrip(BillingOutputDir, id, name, year, ".txt");
    ParseBillNameRoundTrip(BillingPdfOutputDir, id, name, ReplaceDots(issueDate), ".pdf");
  }

  /** The TXT name of `BillGeneratorTxtAndPDF` carries the year 2023 whatever
      the bill is for; its PDF name carries the formatted issue date. */
  lemma ConfiguredBillNamesParse(outputDir: string, pdfOutputDir: string, id: string, name: string, issueDate: string)
    requires '_' !in id
    ensures ParseBillName(outputDir, "2023", ".txt", ConfiguredTxtBillName(outputDir, id, name)) == Some((id, Sanitize(name)))
    ensures ParseBillName(pdfOutputDir, ReplaceDots(issueDate), ".pdf", ConfiguredPdfBillName(pdfOutputDir, id, name, issueDate)) == Some((id, Sanitize(name)))
  {
    ParseBillNameRoundTrip(outputDir, id, name, FixedYear, ".txt");
    ParseBillNameRoundTrip(pdfOutputDir, id, name, ReplaceDots(issueDate), ".pdf");
  }

  /** After the id, a bill file name has no `.` before its extension as long
      as its tag has none: the sanitised name has none. */
  lemma NoDotAfterId(dir: string, id: string, name: string, tag: string, ext: string)
    requires '.' !in tag
    ensures var r := BillName(dir, id, name, tag, ext);
      forall k :: |dir| + |id| <= k < |r| - |ext| ==> r[k] != '.'
  {
    var r := BillName(dir, id, name, tag, ext);
    var s := Sanitize(name);
    SanitizedAlphabet(name);
    assert '.' !in s;
    var m := "_" + s + "_" + tag + "_bill";
    assert '.' !in m;
    assert r == dir + id + m + ext;
    forall k | |dir| + |id| <= k < |r| - |ext| ensures r[k] != '.' {
      assert r[k] == m[k - |dir| - |id|];
    }
  }

  /** The PDF bill named after an issue date has no `.` after the id but the
      one of `.pdf`. */
  lemma PdfNameHasNoDotAfterId(pdfOutputDir: string, id: string, name: string, issueDate: string)
    ensures var r := ConfiguredPdfBillName(pdfOutputDir, id, name, issueDate);
      forall k :: |pdfOutputDir| + |id| <= k < |r| - 4 ==> r[k] != '.'
  {
    ReplaceDotsRemovesDots(issueDate);
    NoDotAfterId(pdfOutputDir, id, name, ReplaceDots(issueDate), ".pdf");
  }

  /** The monthly bill of customer "123". */
  lemma MonthlyBillNameExample()
    ensures MonthlyBillName("123") == "src/main/resources/output/123.txt"
  {
  }
}
