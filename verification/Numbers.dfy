/** Decimal printing (%d) and reading (atol) of the C library, with the source's integer widths. */
module Numbers {
  import opened CStrings

  const DIGITS: set<char> := {'0', '1', '2', '3', '4', '5', '6', '7', '8', '9'}
  const SPACES: set<char> := {' ', '\t', '\n', '\U{0B}', '\U{0C}', '\r'}
  const LONG_MAX := 0x7fff_ffff_ffff_ffff
  const LONG_MIN := -0x8000_0000_0000_0000
  const INT_MAX := 0x7fff_ffff
  const INT_MIN := -0x8000_0000

  function DigitChar(d: nat): char
    requires d < 10
  {
    (d + 48) as char
  }

  function DigitValue(c: char): nat
    requires c in DIGITS
  {
    c as int - 48
  }

  /** What printf("%d") writes. */
  function Decimal(n: int): string
    decreases n < 0, if n < 0 then -n else n
  {
    if n < 0 then "-" + Decimal(-n)
    else if n < 10 then [DigitChar(n)]
    else Decimal(n / 10) + [DigitChar(n % 10)]
  }

  function DigitsValue(ds: string): nat
    requires Within(ds, DIGITS)
  {
    if ds == "" then 0 else 10 * DigitsValue(ds[..|ds| - 1]) + DigitValue(ds[|ds| - 1])
  }

  /** A 64-bit value stored in a 32-bit int. */
  function ToInt(x: int): (r: int)
    ensures INT_MIN <= r <= INT_MAX
    ensures INT_MIN <= x <= INT_MAX ==> r == x
  {
    (x - INT_MIN) % 0x1_0000_0000 + INT_MIN
  }

  /** The stored value differs from the number by a multiple of 2^32. */
  lemma ToIntWraps(x: int)
    ensures (x - ToInt(x)) % 0x1_0000_0000 == 0
  {
  }

  /** atol: blanks, an optional sign, the longest run of digits; a value outside `long` saturates. */
  function Atol(t: string): (r: int)
    ensures LONG_MIN <= r <= LONG_MAX
  {
    var i := FirstNotIn(t, 0, SPACES);
    var signed := i < |t| && t[i] in {'+', '-'};
    var j := if signed then i + 1 else i;
    var k := FirstNotIn(t, j, DIGITS);
    var v: int := DigitsValue(t[j..k]);
    if signed && t[i] == '-' then
      if -v < LONG_MIN then LONG_MIN else -v
    else
      if v > LONG_MAX then LONG_MAX else v
  }

  lemma {:induction false} DecimalDigits(n: nat)
    ensures Decimal(n) != "" && Within(Decimal(n), DIGITS)
    ensures DigitsValue(Decimal(n)) == n
  {
    if n < 10 {
      assert DigitsValue("") == 0;
      assert Decimal(n)[..0] == "";
    } else {
      DecimalDigits(n / 10);
      assert Decimal(n)[..|Decimal(n)| - 1] == Decimal(n / 10);
    }
  }

  /** Reading back a printed number, wherever the digits end. */
  lemma AtolReadsDecimal(n: nat, rest: string)
    requires rest == "" || rest[0] !in DIGITS
    ensures Atol(Decimal(n) + rest) == if n > LONG_MAX then LONG_MAX else n
  {
    var d := Decimal(n);
    var t := d + rest;
    DecimalDigits(n);
    hide Decimal, DigitsValue;
    assert t[0] == d[0] && d[0] in DIGITS;
    assert FirstNotIn(t, 0, SPACES) == 0;
    var k := FirstNotIn(t, 0, DIGITS);
    assert forall j | 0 <= j < |d| :: t[j] == d[j];
    assert rest != "" ==> t[|d|] == rest[0];
    assert k == |d|;
    assert t[0..k] == d;
  }

  lemma AtolReadsNegative(n: nat, rest: string)
    requires rest == "" || rest[0] !in DIGITS
    ensures Atol("-" + Decimal(n) + rest) == if n > -LONG_MIN then LONG_MIN else 0 - n
  {
    var d := Decimal(n);
    var t := "-" + d + rest;
    DecimalDigits(n);
    hide Decimal, DigitsValue;
    assert FirstNotIn(t, 0, SPACES) == 0;
    assert forall j | 0 <= j < |d| :: t[j + 1] == d[j];
    assert rest != "" ==> t[|d| + 1] == rest[0];
    FirstNotInEnd(t, 1, |d| + 1);
    assert t[1..|d| + 1] == d;
  }

  /** Text that does not start a number reads as 0. */
  lemma AtolNoNumber(t: string)
    requires t == "" || t[0] !in SPACES + DIGITS + {'+', '-'}
    ensures Atol(t) == 0
  {
    assert t[0..0] == "";
  }

  lemma FirstNotInEnd(t: string, i: nat, k: nat)
    requires i <= k <= |t| && (forall j | i <= j < k :: t[j] in DIGITS) && (k < |t| ==> t[k] !in DIGITS)
    ensures FirstNotIn(t, i, DIGITS) == k
  {
  }

  /** An int needs at most ten digits and a sign. */
  lemma {:induction false} DecimalLength(n: nat, w: nat)
    requires w >= 1
    requires n < Power10(w)
    ensures |Decimal(n)| <= w
  {
    if n >= 10 {
      assert w >= 2;
      DecimalLength(n / 10, w - 1);
    }
  }

  function Power10(w: nat): nat {
    if w == 0 then 1 else 10 * Power10(w - 1)
  }
}
