/** `CustomerUsage`: one customer's running daytime and nighttime consumption
    in kWh. The application package and the `data` package each have a copy;
    the root copy has no declared constructor, so its fields start at Java's
    default 0, which is what the no-argument constructor of the `data` copy
    sets explicitly. */
module Usage {
  import opened JavaInt

  class CustomerUsage {
    var daytimeUsage: Int32
    var nighttimeUsage: Int32

    /** `new CustomerUsage()`: both totals zero. */
    constructor ()
      ensures daytimeUsage == 0 && nighttimeUsage == 0
    {
      daytimeUsage, nighttimeUsage := 0, 0;
    }

    /** `new CustomerUsage(daytimeUsage, nighttimeUsage)`: the totals as given,
        zero and negative values included. */
    constructor WithUsage(daytime: Int32, nighttime: Int32)
      ensures daytimeUsage == daytime && nighttimeUsage == nighttime
    {
      daytimeUsage, nighttimeUsage := daytime, nighttime;
    }

    /** `addDaytimeUsage(usage)`: `daytimeUsage += usage` on a Java `int`,
        which wraps around; the nighttime total is not touched. */
    method AddDaytimeUsage(usage: Int32)
      modifies this
      ensures daytimeUsage == Wrap(old(daytimeUsage) + usage)
      ensures nighttimeUsage == old(nighttimeUsage)
    {
      daytimeUsage := Wrap(daytimeUsage + usage);
    }

    /** `addNighttimeUsage(usage)`: `nighttimeUsage += usage`, wrapping; the
        daytime total is not touched. */
    method AddNighttimeUsage(usage: Int32)
      modifies this
      ensures nighttimeUsage == Wrap(old(nighttimeUsage) + usage)
      ensures daytimeUsage == old(daytimeUsage)
    {
      nighttimeUsage := Wrap(nighttimeUsage + usage);
    }

    /** `getDaytimeUsage()`: reads the total and changes nothing. */
    method GetDaytimeUsage() returns (u: Int32)
      ensures u == daytimeUsage
    {
      u := daytimeUsage;
    }

    /** `getNighttimeUsage()`: reads the total and changes nothing. */
    method GetNighttimeUsage() returns (u: Int32)
      ensures u == nighttimeUsage
    {
      u := nighttimeUsage;
    }
  }

  /** Two additions to a total in either order leave the same total: every
      order of `+=` calls agrees, overflow included. */
  lemma AddsCommute(total: Int32, a: Int32, b: Int32)
    ensures Wrap(Wrap(total + a) + b) == Wrap(Wrap(total + b) + a)
  {
    WrapAdd(total + a, b);
    WrapAdd(total + b, a);
    assert total + b + a == total + a + b;
  }

  /** Two additions leave the same total as one addition of their wrapped sum. */
  lemma AddsAssociate(total: Int32, a: Int32, b: Int32)
    ensures Wrap(Wrap(total + a) + b) == Wrap(total + Wrap(a + b))
  {
    WrapAdd(total + a, b);
    WrapAdd(a + b, total);
    assert a + b + total == total + a + b;
  }

  /** Without overflow, two additions leave the exact sum. */
  lemma AddsWithoutOverflow(total: Int32, a: Int32, b: Int32)
    requires MinInt <= total + a + b <= MaxInt
    ensures Wrap(Wrap(total + a) + b) == total + a + b
  {
    WrapAdd(total + a, b);
  }

}
