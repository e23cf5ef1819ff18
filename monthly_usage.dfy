/** `MonthlyUsageCalculator.calculateMonthlyUsage`: fold consumption records
    into one `CustomerUsage` per customer id, adding `usage2 + usage3` to the
    daytime total and `usage1 + usage4` to the nighttime total. The application
    package and the `billing` package hold the same loop. */
module MonthlyUsageCalculator {
  import opened Wrappers
  import opened JavaInt
  import opened JavaString
  import opened Sequences
  import opened ConsumptionRecord
  import opened Usage

  /** What the calculator reads from one record: field 0 and the four usages. */
  datatype UsageRecord = UsageRecord(customerId: string, usage1: Int32, usage2: Int32, usage3: Int32, usage4: Int32)

  /** The two totals of a customer, as held by a `CustomerUsage`. */
  datatype Totals = Totals(daytime: Int32, nighttime: Int32)

  /** `Integer.parseInt(fields[i])`: the index is checked first, then the text. */
  function UsageAt(fields: seq<string>, i: nat): (r: Run<Int32>)
    ensures r.Done? <==> i < |fields| && ParseInt(fields[i]).Some?
    ensures r.Done? ==> Some(r.value) == ParseInt(fields[i])
    ensures r.Thrown? && i >= |fields| ==> r.exception == ArrayIndexOutOfBoundsException(i)
    ensures r.Thrown? && i < |fields| ==> r.exception == NumberFormatException
  {
    if i >= |fields| then Thrown(ArrayIndexOutOfBoundsException(i))
    else match ParseInt(fields[i])
      case Some(v) => Done(v)
      case None => Thrown(NumberFormatException)
  }

  /** The statements of one loop iteration up to the additions, in Java's order:
      `fields[0]`, then each usage field in turn; the first one that fails throws.
      Date, quality and error fields are not read. */
  function ParseFields(f: seq<string>): Run<UsageRecord>
  {
    if |f| == 0 then Thrown(ArrayIndexOutOfBoundsException(0))
    else
      var u1, u2, u3, u4 := UsageAt(f, 2), UsageAt(f, 3), UsageAt(f, 4), UsageAt(f, 5);
      if u1.Thrown? then Thrown(u1.exception)
      else if u2.Thrown? then Thrown(u2.exception)
      else if u3.Thrown? then Thrown(u3.exception)
      else if u4.Thrown? then Thrown(u4.exception)
      else Done(UsageRecord(f[0], u1.value, u2.value, u3.value, u4.value))
  }

  /** `record.split(",")` and the statements above. */
  function ParseRecord(record: string): Run<UsageRecord>
  {
    ParseFields(Split(record))
  }

  predicate Parses(record: string)
  {
    ParseRecord(record).Done?
  }

  function UsageOf(record: string): Option<UsageRecord>
  {
    match ParseRecord(record)
    case Done(u) => Some(u)
    case Thrown(_) => None
  }

  /** `int daytimeUsage = usage2 + usage3`, on Java `int`s. */
  function DaytimeDelta(u: UsageRecord): Int32
  {
    Wrap(u.usage2 + u.usage3)
  }

  /** `int nighttimeUsage = usage1 + usage4`, on Java `int`s. */
  function NighttimeDelta(u: UsageRecord): Int32
  {
    Wrap(u.usage1 + u.usage4)
  }

  /** `usageMap.getOrDefault(id, new CustomerUsage())`, as totals. */
  function TotalsFor(m: map<string, Totals>, id: string): Totals
  {
    if id in m then m[id] else Totals(0, 0)
  }

  /** One iteration: add the record's deltas to its customer's totals. */
  function Add(m: map<string, Totals>, u: UsageRecord): map<string, Totals>
  {
    var t := TotalsFor(m, u.customerId);
    m[u.customerId := Totals(Wrap(t.daytime + DaytimeDelta(u)), Wrap(t.nighttime + NighttimeDelta(u)))]
  }

  /** The map the loop builds from parsed records, folding left to right. */
  function Aggregate(us: seq<UsageRecord>): map<string, Totals>
  {
    if us == [] then map[] else Add(Aggregate(us[..|us| - 1]), us[|us| - 1])
  }

  /** The outcome of a call: the exception of the first record that fails to
      parse, or the aggregate of all records. */
  function MonthlyUsage(records: seq<string>): Run<map<string, Totals>>
  {
    var k := PrefixWhile(records, Parses);
    if k < |records| && ParseRecord(records[k]).Thrown? then Thrown(ParseRecord(records[k]).exception)
    else Done(Aggregate(Collect(records, UsageOf)))
  }

  /** `calculateMonthlyUsage(records)`. Each customer gets one fresh
      `CustomerUsage`, shared by no other key, whose totals are those of
      `MonthlyUsage`; an exception ends the call with no map. */
  method CalculateMonthlyUsage(records: seq<string>) returns (r: Run<map<string, CustomerUsage>>)
    ensures r.Thrown? <==> MonthlyUsage(records).Thrown?
    ensures r.Thrown? ==> r.exception == MonthlyUsage(records).exception
    ensures r.Done? ==> r.value.Keys == MonthlyUsage(records).value.Keys
    ensures r.Done? ==> forall id :: id in r.value ==>
      fresh(r.value[id]) &&
      Totals(r.value[id].daytimeUsage, r.value[id].nighttimeUsage) == MonthlyUsage(records).value[id]
    ensures r.Done? ==> forall id, id' :: id in r.value && id' in r.value && id != id' ==> r.value[id] != r.value[id']
  {
    var usageMap: map<string, CustomerUsage> := map[];
    ghost var totals: map<string, Totals> := map[];
    var i := 0;
    while i < |records|
      invariant 0 <= i <= |records|
      invariant i <= PrefixWhile(records, Parses)
      invariant totals == Aggregate(Collect(records[..i], UsageOf))
      invariant usageMap.Keys == totals.Keys
      invariant forall id :: id in usageMap ==>
        fresh(usageMap[id]) && Totals(usageMap[id].daytimeUsage, usageMap[id].nighttimeUsage) == totals[id]
      invariant forall id, id' :: id in usageMap && id' in usageMap && id != id' ==> usageMap[id] != usageMap[id']
    {
      var parsed := ParseRecord(records[i]);
      if parsed.Thrown? {
        MonthlyUsageThrows(records, i);
        return Thrown(parsed.exception);
      }
      var u := parsed.value;
      PrefixWhileStep(records, Parses, i);
      AggregateStep(records, i, u);
      usageMap := AddToUsageMap(usageMap, totals, u);
      totals := Add(totals, u);
      i := i + 1;
    }
    MonthlyUsageDone(records, i);
    r := Done(usageMap);
  }

  /** The body of the loop for a parsed record: `getOrDefault`, the two
      additions on the (possibly shared) `CustomerUsage` and `put`. */
  method AddToUsageMap(usageMap: map<string, CustomerUsage>, ghost totals: map<string, Totals>, u: UsageRecord)
      returns (next: map<string, CustomerUsage>)
    requires usageMap.Keys == totals.Keys
    requires forall id :: id in usageMap ==> Totals(usageMap[id].daytimeUsage, usageMap[id].nighttimeUsage) == totals[id]
    requires forall id, id' :: id in usageMap && id' in usageMap && id != id' ==> usageMap[id] != usageMap[id']
    modifies set id | id in usageMap :: usageMap[id]
    ensures next.Keys == Add(totals, u).Keys
    ensures forall id :: id in next ==> Totals(next[id].daytimeUsage, next[id].nighttimeUsage) == Add(totals, u)[id]
    ensures forall id :: id in next ==> fresh(next[id]) || (id in usageMap && next[id] == usageMap[id])
    ensures forall id, id' :: id in next && id' in next && id != id' ==> next[id] != next[id']
  {
    var usage: CustomerUsage;
    if u.customerId in usageMap {
      usage := usageMap[u.customerId];
    } else {
      usage := new CustomerUsage();
    }
    ghost var was := TotalsFor(totals, u.customerId);
    assert usage.daytimeUsage == was.daytime && usage.nighttimeUsage == was.nighttime;
    label before:
    usage.AddDaytimeUsage(DaytimeDelta(u));
    usage.AddNighttimeUsage(NighttimeDelta(u));
    AddAt(totals, u);
    assert Totals(usage.daytimeUsage, usage.nighttimeUsage) == Add(totals, u)[u.customerId];
    next := usageMap[u.customerId := usage];
    forall id | id in next && id != u.customerId
      ensures Totals(next[id].daytimeUsage, next[id].nighttimeUsage) == Add(totals, u)[id]
    {
      assert next[id] == usageMap[id] != usage;
      assert next[id].daytimeUsage == old@before(next[id].daytimeUsage);
      assert next[id].nighttimeUsage == old@before(next[id].nighttimeUsage);
    }
  }

  /** The entry that one iteration writes. */
  lemma AddAt(m: map<string, Totals>, u: UsageRecord)
    ensures u.customerId in Add(m, u)
    ensures Add(m, u)[u.customerId] ==
      Totals(Wrap(TotalsFor(m, u.customerId).daytime + DaytimeDelta(u)), Wrap(TotalsFor(m, u.customerId).nighttime + NighttimeDelta(u)))
  {
  }

  /** A loop that reaches a record that does not parse ends with its exception. */
  lemma MonthlyUsageThrows(records: seq<string>, i: nat)
    requires i <= PrefixWhile(records, Parses) && i < |records| && !Parses(records[i])
    ensures MonthlyUsage(records) == Thrown(ParseRecord(records[i]).exception)
  {
    PrefixWhileStep(records, Parses, i);
  }

  /** A loop that gets past every record ends with the aggregate of all of them. */
  lemma MonthlyUsageDone(records: seq<string>, i: nat)
    requires i <= PrefixWhile(records, Parses) && i == |records|
    ensures MonthlyUsage(records) == Done(Aggregate(Collect(records[..i], UsageOf)))
  {
    assert records[..i] == records;
  }

  /** A loop that has got past `i` records, all parsed, folds in record `i`. */
  lemma AggregateStep(records: seq<string>, i: nat, u: UsageRecord)
    requires i < |records| && ParseRecord(records[i]) == Done(u)
    ensures Aggregate(Collect(records[..i + 1], UsageOf)) == Add(Aggregate(Collect(records[..i], UsageOf)), u)
  {
    CollectStep(records, UsageOf, i);
    var us := Collect(records[..i], UsageOf) + [u];
    assert us[..|us| - 1] == Collect(records[..i], UsageOf);
  }

  /** The id-`id` part of the daytime slots, `usage2 + usage3`, summed as integers. */
  function DaySum(us: seq<UsageRecord>, id: string): int
  {
    SumOf(us, (u: UsageRecord) => if u.customerId == id then u.usage2 as int + u.usage3 else 0)
  }

  /** The id-`id` part of the nighttime slots, `usage1 + usage4`, summed as integers. */
  function NightSum(us: seq<UsageRecord>, id: string): int
  {
    SumOf(us, (u: UsageRecord) => if u.customerId == id then u.usage1 as int + u.usage4 else 0)
  }

  function CustomerIds(us: seq<UsageRecord>): set<string>
  {
    set u | u in us :: u.customerId
  }

  /** Wrapping a sum's parts first does not change the wrapped sum. */
  lemma WrapSum(s: int, c: int)
    ensures Wrap(Wrap(s) + Wrap(c)) == Wrap(s + c)
  {
    WrapAdd(s, Wrap(c));
    WrapAdd(c, s);
    assert Wrap(Wrap(c) + s) == Wrap(c + s);
  }

  /** Adding a record of customer `id` to a daytime total that is the wrapped
      sum `s` gives the wrapped sum with the record's daytime slots. */
  lemma AddDaytimeAt(m: map<string, Totals>, u: UsageRecord, s: int)
    requires TotalsFor(m, u.customerId).daytime == Wrap(s)
    ensures TotalsFor(Add(m, u), u.customerId).daytime == Wrap(s + (u.usage2 as int + u.usage3))
  {
    AddAt(m, u);
    WrapSum(s, u.usage2 as int + u.usage3);
  }

  /** The same for the nighttime total. */
  lemma AddNighttimeAt(m: map<string, Totals>, u: UsageRecord, s: int)
    requires TotalsFor(m, u.customerId).nighttime == Wrap(s)
    ensures TotalsFor(Add(m, u), u.customerId).nighttime == Wrap(s + (u.usage1 as int + u.usage4))
  {
    AddAt(m, u);
    WrapSum(s, u.usage1 as int + u.usage4);
  }

  /** A record leaves the totals of the other customers alone. */
  lemma AddElsewhere(m: map<string, Totals>, u: UsageRecord, id: string)
    requires u.customerId != id
    ensures TotalsFor(Add(m, u), id) == TotalsFor(m, id)
  {
  }

  /** A customer's daytime total is the wrapped sum of its daytime slots. */
  lemma {:induction false} AggregateDaytime(us: seq<UsageRecord>, id: string)
    ensures TotalsFor(Aggregate(us), id).daytime == Wrap(DaySum(us, id))
  {
    if us != [] {
      var n := |us| - 1;
      var init, u := us[..n], us[n];
      AggregateDaytime(init, id);
      assert us == init + [u];
      SumsSnoc(init, u, id);
      if u.customerId == id {
        AddDaytimeAt(Aggregate(init), u, DaySum(init, id));
      } else {
        AddElsewhere(Aggregate(init), u, id);
      }
    }
  }

  /** A customer's nighttime total is the wrapped sum of its nighttime slots. */
  lemma {:induction false} AggregateNighttime(us: seq<UsageRecord>, id: string)
    ensures TotalsFor(Aggregate(us), id).nighttime == Wrap(NightSum(us, id))
  {
    if us != [] {
      var n := |us| - 1;
      var init, u := us[..n], us[n];
      AggregateNighttime(init, id);
      assert us == init + [u];
      SumsSnoc(init, u, id);
      if u.customerId == id {
        AddNighttimeAt(Aggregate(init), u, NightSum(init, id));
      } else {
        AddElsewhere(Aggregate(init), u, id);
      }
    }
  }

  /** Each customer's totals are the wrapped sums of its records' daytime and
      nighttime slots; a customer without records has zero totals. */
  lemma AggregateTotals(us: seq<UsageRecord>, id: string)
    ensures TotalsFor(Aggregate(us), id) == Totals(Wrap(DaySum(us, id)), Wrap(NightSum(us, id)))
  {
    AggregateDaytime(us, id);
    AggregateNighttime(us, id);
  }

  /** The keys are the customer ids of the records, each once. */
  lemma {:induction false} AggregateKeys(us: seq<UsageRecord>)
    ensures Aggregate(us).Keys == CustomerIds(us)
  {
    if us != [] {
      var n := |us| - 1;
      AggregateKeys(us[..n]);
      assert us == us[..n] + [us[n]];
      assert CustomerIds(us) == CustomerIds(us[..n]) + {us[n].customerId};
    }
  }

  /** The whole map in closed form: one entry per customer id, holding the
      wrapped sums of that customer's slots. */
  lemma AggregateIsSums(us: seq<UsageRecord>)
    ensures Aggregate(us) == map id | id in CustomerIds(us) :: Totals(Wrap(DaySum(us, id)), Wrap(NightSum(us, id)))
  {
    AggregateKeys(us);
    forall id | id in CustomerIds(us)
      ensures Aggregate(us)[id] == Totals(Wrap(DaySum(us, id)), Wrap(NightSum(us, id)))
    {
      AggregateTotals(us, id);
    }
  }

  /** The result does not depend on the order of the records. */
  lemma AggregateOrderIndependent(us: seq<UsageRecord>, vs: seq<UsageRecord>)
    requires multiset(us) == multiset(vs)
    ensures Aggregate(us) == Aggregate(vs)
  {
    AggregateIsSums(us);
    AggregateIsSums(vs);
    assert CustomerIds(us) == CustomerIds(vs) by {
      forall u ensures u in us <==> u in vs {
        assert u in us <==> u in multiset(us);
        assert u in vs <==> u in multiset(vs);
      }
    }
    forall id | id in CustomerIds(us)
      ensures DaySum(us, id) == DaySum(vs, id) && NightSum(us, id) == NightSum(vs, id)
    {
      SumOfPermutation(us, vs, (u: UsageRecord) => if u.customerId == id then u.usage2 as int + u.usage3 else 0);
      SumOfPermutation(us, vs, (u: UsageRecord) => if u.customerId == id then u.usage1 as int + u.usage4 else 0);
    }
  }

  /** Without overflow the totals are the plain sums. */
  lemma AggregateWithoutOverflow(us: seq<UsageRecord>, id: string)
    requires MinInt <= DaySum(us, id) <= MaxInt && MinInt <= NightSum(us, id) <= MaxInt
    ensures TotalsFor(Aggregate(us), id) == Totals(DaySum(us, id), NightSum(us, id))
  {
    AggregateTotals(us, id);
  }

  /** Folding one more record changes only its own customer's entry. */
  lemma AddTouchesOneCustomer(us: seq<UsageRecord>, u: UsageRecord)
    ensures Aggregate(us + [u]).Keys == Aggregate(us).Keys + {u.customerId}
    ensures forall id :: id != u.customerId && id in Aggregate(us) ==> Aggregate(us + [u])[id] == Aggregate(us)[id]
  {
    assert (us + [u])[..|us|] == us;
  }

  /** The sums over one more record. */
  lemma SumsSnoc(us: seq<UsageRecord>, u: UsageRecord, id: string)
    ensures DaySum(us + [u], id) == DaySum(us, id) + (if u.customerId == id then u.usage2 as int + u.usage3 else 0)
    ensures NightSum(us + [u], id) == NightSum(us, id) + (if u.customerId == id then u.usage1 as int + u.usage4 else 0)
  {
    assert (us + [u])[..|us|] == us;
  }

  /** There is no de-duplication by date: a record seen twice is counted twice. */
  lemma DuplicateCountedTwice(us: seq<UsageRecord>, u: UsageRecord)
    ensures TotalsFor(Aggregate(us + [u, u]), u.customerId) ==
      Totals(Wrap(DaySum(us, u.customerId) + 2 * (u.usage2 as int + u.usage3)),
             Wrap(NightSum(us, u.customerId) + 2 * (u.usage1 as int + u.usage4)))
  {
    var id := u.customerId;
    AggregateTotals(us + [u, u], id);
    assert us + [u, u] == (us + [u]) + [u];
    SumsSnoc(us, u, id);
    SumsSnoc(us + [u], u, id);
  }

  /** `calculateMonthlyUsage` parses exactly `fields[0]` and fields 2 to 5:
      a record parses when it has at least six fields and those four parse,
      and its usages are theirs. */
  lemma ParseRecordIff(record: string)
    ensures Parses(record) <==>
      var f := Split(record);
      |f| >= 6 && forall j :: 2 <= j < 6 ==> ParseInt(f[j]).Some?
    ensures Parses(record) ==>
      var f, u := Split(record), ParseRecord(record).value;
      && u.customerId == f[0]
      && ParseInt(f[2]) == Some(u.usage1) && ParseInt(f[3]) == Some(u.usage2)
      && ParseInt(f[4]) == Some(u.usage3) && ParseInt(f[5]) == Some(u.usage4)
  {
    var f := Split(record);
    if |f| >= 6 && (forall j :: 2 <= j < 6 ==> ParseInt(f[j]).Some?) {
      assert ParseInt(f[2]).Some? && ParseInt(f[3]).Some? && ParseInt(f[4]).Some? && ParseInt(f[5]).Some?;
    }
    if Parses(record) {
      forall j | 2 <= j < 6 ensures ParseInt(f[j]).Some? {
        assert j == 2 || j == 3 || j == 4 || j == 5;
      }
    }
  }

  /** A record with fewer than six fields throws: an index exception for the
      first missing field, unless a usage field before it does not parse. */
  lemma ShortRecordThrows(record: string)
    requires |Split(record)| < 6
    ensures ParseRecord(record).Thrown?
    ensures |Split(record)| == 0 ==> ParseRecord(record).exception == ArrayIndexOutOfBoundsException(0)
    ensures 0 < |Split(record)| < 3 ==> ParseRecord(record).exception == ArrayIndexOutOfBoundsException(2)
    ensures 3 <= |Split(record)| && (forall j :: 2 <= j < |Split(record)| ==> ParseInt(Split(record)[j]).Some?) ==>
      ParseRecord(record).exception == ArrayIndexOutOfBoundsException(|Split(record)|)
  {
    ShortFieldsThrow(Split(record));
  }

  /** `ShortRecordThrows` on the fields of the record. */
  lemma ShortFieldsThrow(f: seq<string>)
    requires |f| < 6
    ensures ParseFields(f).Thrown?
    ensures |f| == 0 ==> ParseFields(f).exception == ArrayIndexOutOfBoundsException(0)
    ensures 0 < |f| < 3 ==> ParseFields(f).exception == ArrayIndexOutOfBoundsException(2)
    ensures 3 <= |f| && (forall j :: 2 <= j < |f| ==> ParseInt(f[j]).Some?) ==>
      ParseFields(f).exception == ArrayIndexOutOfBoundsException(|f|)
  {
    if 2 < |f| && forall j :: 2 <= j < |f| ==> ParseInt(f[j]).Some? {
      assert ParseInt(f[2]).Some?;
      assert |f| > 3 ==> ParseInt(f[3]).Some?;
      assert |f| > 4 ==> ParseInt(f[4]).Some?;
    }
  }

  /** Date, quality and error fields are never read: two records that agree on
      field 0 and fields 2 to 5 give the same usage, whatever else they hold. */
  lemma OnlyIdAndUsagesRead(a: string, b: string)
    requires |Split(a)| >= 6 && |Split(b)| >= 6
    requires Split(a)[0] == Split(b)[0] && Split(a)[2..6] == Split(b)[2..6]
    ensures ParseRecord(a) == ParseRecord(b)
  {
    var fa, fb := Split(a), Split(b);
    assert fa[2..6][0] == fa[2] && fa[2..6][1] == fa[3] && fa[2..6][2] == fa[4] && fa[2..6][3] == fa[5];
    assert fb[2..6][0] == fb[2] && fb[2..6][1] == fb[3] && fb[2..6][2] == fb[4] && fb[2..6][3] == fb[5];
    assert UsageAt(fa, 2) == UsageAt(fb, 2) && UsageAt(fa, 3) == UsageAt(fb, 3);
    assert UsageAt(fa, 4) == UsageAt(fb, 4) && UsageAt(fa, 5) == UsageAt(fb, 5);
  }

  /** A line the validators keep parses here to the same usages, all positive. */
  lemma ValidLineParses(line: string)
    requires IsValid(line)
    ensures Parses(line)
    ensures var rd, u := Inspect(line).reading, ParseRecord(line).value;
      u == UsageRecord(rd.customerId, rd.usage1, rd.usage2, rd.usage3, rd.usage4) &&
      u.usage1 > 0 && u.usage2 > 0 && u.usage3 > 0 && u.usage4 > 0
  {
  }

  /** The calculator never throws on what a validator keeps. */
  lemma AcceptedNeverThrows(lines: seq<string>)
    requires forall i :: 0 <= i < |lines| ==> IsValid(lines[i])
    ensures MonthlyUsage(lines) == Done(Aggregate(Collect(lines, UsageOf)))
  {
    forall i | 0 <= i < |lines| ensures Parses(lines[i]) {
      ValidLineParses(lines[i]);
    }
    MonthlyUsageAllParse(lines);
  }

  /** Every record of a completed call has an entry for its customer. */
  lemma MonthlyUsageHasEveryCustomer(records: seq<string>)
    requires MonthlyUsage(records).Done?
    ensures forall i :: 0 <= i < |records| ==>
      Parses(records[i]) && ParseRecord(records[i]).value.customerId in MonthlyUsage(records).value
  {
    PrefixWhileStops(records, Parses);
    var us := Collect(records, UsageOf);
    AggregateKeys(us);
    CollectAt(records, UsageOf);
    forall i | 0 <= i < |records| ensures ParseRecord(records[i]).value in us {
      assert UsageOf(records[i]) == Some(ParseRecord(records[i]).value);
    }
  }

  /** Every entry of a completed call belongs to one of its records. */
  lemma MonthlyUsageOnlyCustomers(records: seq<string>)
    requires MonthlyUsage(records).Done?
    ensures forall id :: id in MonthlyUsage(records).value ==>
      exists i :: 0 <= i < |records| && Parses(records[i]) && ParseRecord(records[i]).value.customerId == id
  {
    PrefixWhileStops(records, Parses);
    var us := Collect(records, UsageOf);
    AggregateKeys(us);
    CollectAt(records, UsageOf);
    forall id | id in CustomerIds(us)
      ensures exists i :: 0 <= i < |records| && Parses(records[i]) && ParseRecord(records[i]).value.customerId == id
    {
      var u :| u in us && u.customerId == id;
      var i :| 0 <= i < |records| && UsageOf(records[i]) == Some(u);
    }
  }

  /** A call on records that all parse completes with their aggregate. */
  lemma MonthlyUsageAllParse(records: seq<string>)
    requires forall i :: 0 <= i < |records| ==> Parses(records[i])
    ensures MonthlyUsage(records) == Done(Aggregate(Collect(records, UsageOf)))
  {
    PrefixWhileAll(records, Parses);
  }

  /** The records of a line given once and twice. */
  lemma CollectRepeated(line: string, u: UsageRecord)
    requires ParseRecord(line) == Done(u)
    ensures Collect([line], UsageOf) == [u]
    ensures Collect([line, line], UsageOf) == [u, u]
  {
    assert [line][..0] == [];
    assert [line, line][..1] == [line];
  }

  /** The aggregate of a record given once and twice. */
  lemma AggregateRepeated(u: UsageRecord)
    ensures Aggregate([u]) == Add(map[], u)
    ensures Aggregate([u, u]) == Add(Add(map[], u), u)
  {
    assert [u][..0] == [];
    assert [u, u][..1] == [u];
  }

  /** A call on one record. */
  lemma MonthlyUsageOfOneRecord(line: string, u: UsageRecord)
    requires ParseRecord(line) == Done(u)
    ensures MonthlyUsage([line]) == Done(Add(map[], u))
  {
    CollectRepeated(line, u);
    AggregateRepeated(u);
    MonthlyUsageAllParse([line]);
  }

  /** A call on the same record twice. */
  lemma MonthlyUsageOfRepeatedRecord(line: string, u: UsageRecord)
    requires ParseRecord(line) == Done(u)
    ensures MonthlyUsage([line, line]) == Done(Add(Add(map[], u), u))
  {
    CollectRepeated(line, u);
    AggregateRepeated(u);
    MonthlyUsageAllParse([line, line]);
  }

  /** A line of the consumption format, seven fields with usages in decimal,
      parses to its customer id and usages. */
  lemma ParseFormat(r: Reading)
    requires ',' !in r.customerId && ',' !in r.readingDate && ',' !in r.quality
    requires r.quality != ""
    ensures ParseRecord(Format(r)) == Done(UsageRecord(r.customerId, r.usage1, r.usage2, r.usage3, r.usage4))
  {
    InspectFormat(r);
    var f := Split(Format(r));
    assert UsageAt(f, 2) == Done(r.usage1) && UsageAt(f, 3) == Done(r.usage2);
    assert UsageAt(f, 4) == Done(r.usage3) && UsageAt(f, 5) == Done(r.usage4);
  }

  /** A consumption line whose usages are 10, 20, 30, 40 (such as the line
      `Format` writes for them, by `ParseFormat`) gives its customer 50 daytime
      and 50 nighttime units; the same line twice gives 100 and 100. */
  lemma SingleRecordScenario(line: string)
    requires ParseRecord(line) == Done(UsageRecord("300", 10, 20, 30, 40))
    ensures MonthlyUsage([line]) == Done(map["300" := Totals(50, 50)])
    ensures MonthlyUsage([line, line]) == Done(map["300" := Totals(100, 100)])
  {
    var u := UsageRecord("300", 10, 20, 30, 40);
    MonthlyUsageOfOneRecord(line, u);
    MonthlyUsageOfRepeatedRecord(line, u);
    assert Add(map[], u) == map["300" := Totals(50, 50)];
    assert DaytimeDelta(u) == 50 && NighttimeDelta(u) == 50;
    assert Wrap(50 + 50) == 100;
    assert Add(map["300" := Totals(50, 50)], u) == map["300" := Totals(50, 50)]["300" := Totals(100, 100)];
    assert map["300" := Totals(50, 50)]["300" := Totals(100, 100)] == map["300" := Totals(100, 100)];
  }

  /** Nothing checks for positive usages here: zero and negative usages are
      summed as they are. */
  lemma NegativeUsagesSummed()
    ensures Aggregate([UsageRecord("300", -5, 0, 7, 1)]) == map["300" := Totals(7, -4)]
  {
    assert [UsageRecord("300", -5, 0, 7, 1)][..0] == [];
  }

  /** The first record of a customer whose daytime usages add up past
      `MaxInt` leaves a negative daytime total, the sum less 2^32. */
  lemma FirstRecordWrapsNegative(u: UsageRecord)
    requires u.usage2 + u.usage3 > MaxInt
    ensures var t := Add(map[], u);
      t.Keys == {u.customerId} && t[u.customerId] == Totals(u.usage2 + u.usage3 - Modulus, NighttimeDelta(u))
  {
    WrapAboveMax(u.usage2 + u.usage3);
    var day, night := DaytimeDelta(u), NighttimeDelta(u);
    assert TotalsFor(map[], u.customerId) == Totals(0, 0);
    assert Wrap(0 + day) == day && Wrap(0 + night) == night;
  }

  /** A call on one record whose daytime usages add up past `MaxInt` gives its
      customer a negative daytime total. */
  lemma OneRecordWrapsNegative(line: string, u: UsageRecord)
    requires ParseRecord(line) == Done(u) && u.usage2 + u.usage3 > MaxInt
    ensures var m := MonthlyUsage([line]);
      && m.Done? && m.value.Keys == {u.customerId}
      && m.value[u.customerId] == Totals(u.usage2 + u.usage3 - Modulus, NighttimeDelta(u))
  {
    MonthlyUsageOfOneRecord(line, u);
    FirstRecordWrapsNegative(u);
  }
}
