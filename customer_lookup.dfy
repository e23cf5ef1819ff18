/** `readCustomerLookup` and `loadCustomerNames`: fold the lines of the lookup
    file, `CustomerID,CustomerName`, into a map from id to name with
    `HashMap.put`, so that a later line for an id overwrites an earlier one.
    The application package's and the `data` package's `DataReader` and
    `MonthlyBillGenerator.loadCustomerNames` run the same loop;
    `DataReaderFromInputFiles` also registers each pair as a client. */
module CustomerLookup {
  import opened Wrappers
  import opened JavaString
  import opened Sequences

  /** `customerNames.put(fields[0], fields[1])` on the fields of one line:
      the pair it stores, or the index exception of the first missing field. */
  function EntryOfFields(f: seq<string>): (r: Run<(string, string)>)
    ensures r.Done? <==> |f| >= 2
    ensures r.Done? ==> r.value == (f[0], f[1])
    ensures r.Thrown? ==> r.exception == ArrayIndexOutOfBoundsException(|f|)
  {
    if |f| == 0 then Thrown(ArrayIndexOutOfBoundsException(0))
    else if |f| == 1 then Thrown(ArrayIndexOutOfBoundsException(1))
    else Done((f[0], f[1]))
  }

  /** `line.split(",")` and the `put` above. */
  function LookupEntry(line: string): Run<(string, string)>
  {
    EntryOfFields(Split(line))
  }

  predicate HasEntry(line: string)
  {
    LookupEntry(line).Done?
  }

  function EntryOf(line: string): Option<(string, string)>
  {
    match LookupEntry(line)
    case Done(e) => Some(e)
    case Thrown(_) => None
  }

  /** The map that `put`s the pairs in order builds. */
  function Names(entries: seq<(string, string)>): map<string, string>
  {
    if entries == [] then map[]
    else
      var n := |entries| - 1;
      Names(entries[..n])[entries[n].0 := entries[n].1]
  }

  /** The outcome of reading an open lookup file: the exception of the first
      line with fewer than two fields, or the map of all lines' pairs. */
  function Lookup(lines: seq<string>): Run<map<string, string>>
  {
    var k := PrefixWhile(lines, HasEntry);
    if k < |lines| && LookupEntry(lines[k]).Thrown? then Thrown(LookupEntry(lines[k]).exception)
    else Done(Names(Collect(lines, EntryOf)))
  }

  /** A loop that reaches a line without a name ends with its exception. */
  lemma LookupThrows(lines: seq<string>, i: nat)
    requires i <= PrefixWhile(lines, HasEntry) && i < |lines| && !HasEntry(lines[i])
    ensures Lookup(lines) == Thrown(LookupEntry(lines[i]).exception)
  {
    PrefixWhileStep(lines, HasEntry, i);
  }

  /** A loop that gets past every line ends with the map of all of them. */
  lemma LookupDone(lines: seq<string>, i: nat)
    requires i <= PrefixWhile(lines, HasEntry) && i == |lines|
    ensures Lookup(lines) == Done(Names(Collect(lines[..i], EntryOf)))
  {
    assert lines[..i] == lines;
  }

  /** A loop that has got past `i` lines puts the pair of line `i`. */
  lemma NamesStep(lines: seq<string>, i: nat, e: (string, string))
    requires i < |lines| && LookupEntry(lines[i]) == Done(e)
    ensures Names(Collect(lines[..i + 1], EntryOf)) == Names(Collect(lines[..i], EntryOf))[e.0 := e.1]
  {
    CollectStep(lines, EntryOf, i);
    var es := Collect(lines[..i], EntryOf) + [e];
    assert es[..|es| - 1] == Collect(lines[..i], EntryOf);
  }

  /** `readCustomerLookup(filePath)` of either `DataReader`, and
      `MonthlyBillGenerator.loadCustomerNames()`. `lines` is what the reader
      delivers; `fileOpen` says whether the file could be opened. When it
      cannot, the `IOException` is caught and the empty map returned. */
  method ReadCustomerLookup(lines: seq<string>, fileOpen: bool) returns (r: Run<map<string, string>>)
    ensures !fileOpen ==> r == Done(map[])
    ensures fileOpen ==> r == Lookup(lines)
  {
    var customerNames: map<string, string> := map[];
    if !fileOpen {
      return Done(customerNames);
    }
    var i := 0;
    while i < |lines|
      invariant 0 <= i <= |lines|
      invariant i <= PrefixWhile(lines, HasEntry)
      invariant customerNames == Names(Collect(lines[..i], EntryOf))
    {
      var fields := Split(lines[i]);
      var entry := EntryOfFields(fields);
      if entry.Thrown? {
        LookupThrows(lines, i);
        return Thrown(entry.exception);
      }
      PrefixWhileStep(lines, HasEntry, i);
      NamesStep(lines, i, entry.value);
      customerNames := customerNames[fields[0] := fields[1]];
      i := i + 1;
    }
    LookupDone(lines, i);
    r := Done(customerNames);
  }

  /** `DataReaderFromInputFiles.readCustomerLookup()`: the same map, and one
      `addClient(id, name)` call per line, in line order, right after that
      line's `put`; `clients` is the sequence of those calls. */
  method ReadCustomerLookupAndClients(lines: seq<string>, fileOpen: bool)
      returns (r: Run<map<string, string>>, clients: seq<(string, string)>)
    ensures !fileOpen ==> r == Done(map[]) && clients == []
    ensures fileOpen ==> r == Lookup(lines)
    ensures fileOpen ==> clients == Collect(lines[..PrefixWhile(lines, HasEntry)], EntryOf)
  {
    var customerNames: map<string, string> := map[];
    clients := [];
    if !fileOpen {
      return Done(customerNames), clients;
    }
    var i := 0;
    while i < |lines|
      invariant 0 <= i <= |lines|
      invariant i <= PrefixWhile(lines, HasEntry)
      invariant customerNames == Names(Collect(lines[..i], EntryOf))
      invariant clients == Collect(lines[..i], EntryOf)
    {
      var fields := Split(lines[i]);
      var entry := EntryOfFields(fields);
      if entry.Thrown? {
        LookupThrows(lines, i);
        PrefixWhileStep(lines, HasEntry, i);
        return Thrown(entry.exception), clients;
      }
      PrefixWhileStep(lines, HasEntry, i);
      NamesStep(lines, i, entry.value);
      CollectStep(lines, EntryOf, i);
      customerNames := customerNames[fields[0] := fields[1]];
      clients := clients + [(fields[0], fields[1])];
      i := i + 1;
    }
    LookupDone(lines, i);
    r := Done(customerNames);
  }

  /** The keys are the ids of the pairs. */
  lemma {:induction false} NamesKeys(entries: seq<(string, string)>)
    ensures Names(entries).Keys == set i | 0 <= i < |entries| :: entries[i].0
  {
    if entries != [] {
      var n := |entries| - 1;
      NamesKeys(entries[..n]);
      assert (set i | 0 <= i < |entries| :: entries[i].0) ==
        (set i | 0 <= i < n :: entries[..n][i].0) + {entries[n].0};
    }
  }

  /** Last write wins: the name of an id is the one of the last pair with that id. */
  lemma {:induction false} NamesLastWins(entries: seq<(string, string)>, i: nat)
    requires i < |entries|
    requires forall j :: i < j < |entries| ==> entries[j].0 != entries[i].0
    ensures entries[i].0 in Names(entries) && Names(entries)[entries[i].0] == entries[i].1
  {
    var n := |entries| - 1;
    if i < n {
      NamesLastWins(entries[..n], i);
    }
  }

  /** A line for an id, with no later line for that id, gives the id its name:
      field 1 of that line. */
  lemma LookupLastWins(lines: seq<string>, i: nat)
    requires Lookup(lines).Done? && i < |lines|
    requires forall j :: i < j < |lines| && |Split(lines[j])| > 0 && |Split(lines[i])| > 0 ==>
      Split(lines[j])[0] != Split(lines[i])[0]
    ensures HasEntry(lines[i])
    ensures Split(lines[i])[0] in Lookup(lines).value
    ensures Lookup(lines).value[Split(lines[i])[0]] == Split(lines[i])[1]
  {
    PrefixWhileStops(lines, HasEntry);
    CollectAll(lines, EntryOf);
    var es := Collect(lines, EntryOf);
    assert es[i] == LookupEntry(lines[i]).value;
    NamesLastWins(es, i);
  }

  /** The ids of a completed read are the first fields of its lines. */
  lemma LookupKeys(lines: seq<string>)
    requires Lookup(lines).Done?
    ensures forall i :: 0 <= i < |lines| ==> |Split(lines[i])| >= 2
    ensures Lookup(lines).value.Keys == set i | 0 <= i < |lines| :: Split(lines[i])[0]
  {
    PrefixWhileStops(lines, HasEntry);
    CollectAll(lines, EntryOf);
    var es := Collect(lines, EntryOf);
    NamesKeys(es);
    assert (set i | 0 <= i < |es| :: es[i].0) == set i | 0 <= i < |lines| :: Split(lines[i])[0];
  }

  /** A read that gets through its lines has no exception, and one that stops
      at a line stops at the first line with fewer than two fields. */
  lemma LookupThrowsIff(lines: seq<string>)
    ensures Lookup(lines).Thrown? <==> exists i :: 0 <= i < |lines| && |Split(lines[i])| < 2
    ensures Lookup(lines).Thrown? ==>
      exists i :: (0 <= i < |lines| && |Split(lines[i])| < 2 &&
        (forall j :: 0 <= j < i ==> |Split(lines[j])| >= 2) &&
        Lookup(lines).exception == ArrayIndexOutOfBoundsException(|Split(lines[i])|))
  {
    PrefixWhileStops(lines, HasEntry);
  }

  /** Fields after the name are ignored: a line of two or more comma-free
      fields gives its first two. */
  lemma ExtraFieldsIgnored(fields: seq<string>)
    requires |fields| >= 2 && fields[|fields| - 1] != ""
    requires forall k :: 0 <= k < |fields| ==> ',' !in fields[k]
    ensures LookupEntry(Join(fields)) == Done((fields[0], fields[1]))
  {
    SplitJoin(fields);
  }

  /** A name holding a comma keeps only its part before the comma. */
  lemma CommaInNameTruncates(id: string, first: string, second: string)
    requires ',' !in id && ',' !in first && ',' !in second && second != ""
    ensures LookupEntry(id + "," + first + "," + second) == Done((id, first))
  {
    var fs := [id, first, second];
    assert Join(fs) == id + "," + first + "," + second by {
      assert fs[1..] == [first, second] && fs[1..][1..] == [second];
      assert Join([first, second]) == first + "," + second;
      assert Join(fs) == id + "," + (first + "," + second);
    }
    ExtraFieldsIgnored(fs);
  }

  /** A blank line, a bare id and an id followed by a comma have no name: each
      throws for index 1. */
  lemma NamelessLines()
    ensures LookupEntry("") == Thrown(ArrayIndexOutOfBoundsException(1))
    ensures LookupEntry("300") == Thrown(ArrayIndexOutOfBoundsException(1))
    ensures LookupEntry("300,") == Thrown(ArrayIndexOutOfBoundsException(1))
  {
    SplitEdgeCases();
    assert "300,"[..3] == "300" && "300,"[4..] == [];
    assert FirstComma("300,") == 3;
  }

  /** No lines, no names. */
  lemma EmptyLookup()
    ensures Lookup([]) == Done(map[])
  {
  }
}
