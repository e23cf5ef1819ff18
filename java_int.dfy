/** Java's 32-bit `int`: wrap-around addition, `Integer.parseInt` and `Integer.toString`. */
module JavaInt {
  import opened Wrappers

  const MinInt: int := -0x8000_0000
  const MaxInt: int := 0x7fff_ffff
  const Modulus: int := 0x1_0000_0000

  /** A value of Java type `int`. */
  type Int32 = x: int | MinInt <= x <= MaxInt

  /** Two's-complement wrap-around: the `int` that agrees with `x` modulo 2^32.
      Java's `+` and `+=` on `int` operands give `Wrap(a + b)`. */
  function Wrap(x: int): (r: Int32)
    ensures (r - x) % Modulus == 0
    ensures MinInt <= x <= MaxInt ==> r == x
  {
    var m := (x - MinInt) % Modulus;
    assert (m + MinInt - x) == Modulus * ((x - MinInt) / Modulus) * -1;
    m + MinInt
  }

  /** Two `int`s that agree modulo 2^32 are equal. */
  lemma CongruentInts(x: Int32, y: Int32)
    requires (x - y) % Modulus == 0
    ensures x == y
  {
    var q := (x - y) / Modulus;
    assert x - y == Modulus * q;
  }

  /** A sum of two `int`s above `MaxInt` wraps around to a negative `int`, the
      sum less 2^32 (`MaxInt + MaxInt` gives -2). */
  lemma WrapAboveMax(x: int)
    requires MaxInt < x <= MaxInt + MaxInt
    ensures Wrap(x) == x - Modulus < 0
  {
    var r := Wrap(x);
    var k := (r - x) / Modulus;
    assert r - x == Modulus * k;
    assert k == -1;
  }

  /** Wrapping an intermediate sum does not change the wrapped total. */
  lemma WrapAdd(a: int, b: int)
    ensures Wrap(Wrap(a) + b) == Wrap(a + b)
  {
    var u, v := Wrap(Wrap(a) + b), Wrap(a + b);
    var p, q, s := (u - (Wrap(a) + b)) / Modulus, (Wrap(a) - a) / Modulus, (v - (a + b)) / Modulus;
    assert u - (Wrap(a) + b) == Modulus * p;
    assert Wrap(a) - a == Modulus * q;
    assert v - (a + b) == Modulus * s;
    assert u - v == Modulus * (p + q - s);
    CongruentInts(u, v);
  }

  predicate IsDigit(c: char) { '0' <= c <= '9' }

  /** Every character of `s` is a decimal digit (checked from the right, the way
      `DigitsValue` reads the numeral). */
  predicate AllDigits(s: string)
  {
    s == [] || (IsDigit(s[|s| - 1]) && AllDigits(s[..|s| - 1]))
  }

  /** A numeral starts with a digit, so it carries no sign. */
  lemma {:induction false} AllDigitsFirst(s: string)
    requires s != [] && AllDigits(s)
    ensures IsDigit(s[0])
  {
    if |s| > 1 {
      AllDigitsFirst(s[..|s| - 1]);
    }
  }

  /** A numeral holds no character other than digits. */
  lemma {:induction false} AllDigitsMembers(s: string, c: char)
    requires AllDigits(s) && c in s
    ensures IsDigit(c)
  {
    if s[|s| - 1] != c {
      assert c in s[..|s| - 1] by {
        assert s == s[..|s| - 1] + [s[|s| - 1]];
      }
      AllDigitsMembers(s[..|s| - 1], c);
    }
  }

  /** The value of a decimal numeral, read left to right. */
  function DigitsValue(s: string): nat
    requires AllDigits(s)
  {
    if s == [] then 0 else DigitsValue(s[..|s| - 1]) * 10 + (s[|s| - 1] as int - '0' as int)
  }

  /** `Integer.parseInt(s)`: an optional sign followed by one or more decimal
      digits whose value fits an `int`; anything else throws
      `NumberFormatException`, here `None`. */
  function ParseInt(s: string): (r: Option<Int32>)
  {
    if s == [] then None
    else
      var signed := s[0] == '-' || s[0] == '+';
      var digits := if signed then s[1..] else s;
      if digits == [] || !AllDigits(digits) then None
      else
        var v := if s[0] == '-' then -(DigitsValue(digits) as int) else DigitsValue(digits);
        if MinInt <= v <= MaxInt then Some(v) else None
  }

  /** Decimal digits of a natural number, without leading zeros. */
  function NatToString(n: nat): (s: string)
    ensures s != [] && AllDigits(s)
    ensures |s| > 1 ==> s[0] != '0'
  {
    var d := ['0' + (n % 10) as char];
    if n < 10 then d else NatToString(n / 10) + d
  }

  /** `Integer.toString(v)`, the text Java prints for an `int`. */
  function ToString(v: Int32): string
  {
    if v < 0 then "-" + NatToString(-(v as int)) else NatToString(v)
  }

  lemma {:induction false} NatToStringValue(n: nat)
    ensures DigitsValue(NatToString(n)) == n
  {
    var s := NatToString(n);
    if n >= 10 {
      NatToStringValue(n / 10);
      assert s[..|s| - 1] == NatToString(n / 10);
    }
  }

  /** The text of an `int` is digits after an optional minus sign: no comma. */
  lemma ToStringNoComma(v: Int32)
    ensures ',' !in ToString(v)
  {
    var digits := NatToString(if v < 0 then -(v as int) else v);
    if ',' in digits {
      AllDigitsMembers(digits, ',');
    }
    if v < 0 {
      assert ToString(v) == ['-'] + digits;
    }
  }

  /** Parsing the text of an `int` gives the `int` back. */
  lemma ParseToString(v: Int32)
    ensures ParseInt(ToString(v)) == Some(v)
  {
    NatToStringValue(if v < 0 then -(v as int) else v);
    if v < 0 {
      assert ToString(v)[1..] == NatToString(-(v as int));
    } else {
      AllDigitsFirst(NatToString(v));
    }
  }
}
