/** The texts that are read as integers: a sign, leading zeros and decimal digits. */
module Quantities {
  import opened Common
  import opened CsvValidation
  import opened CsvAccounting

  // ---------------------------------------------------------------------
  // Decimal digits
  // ---------------------------------------------------------------------

  function Digits(n: nat): (t: Text)
    ensures t != [] && AllDigits(t)
  {
    if n < 10 then [48 + n] else Digits(n / 10) + [48 + n % 10]
  }

  lemma {:induction false} DigitsRead(n: nat)
    ensures Decimal(Digits(n)) == n
  {
    var t := Digits(n);
    if n < 10 {
      assert t[..0] == [];
    } else {
      DigitsRead(n / 10);
      assert t[..|t| - 1] == Digits(n / 10);
    }
  }

  function Power(k: nat): nat {
    if k == 0 then 1 else 10 * Power(k - 1)
  }

  lemma PowerThree(k: nat)
    ensures Power(k + 3) == 1000 * Power(k)
  {
    assert Power(k + 3) == 10 * Power(k + 2);
    assert Power(k + 2) == 10 * Power(k + 1);
  }

  lemma {:induction false} DigitsCount(n: nat, k: nat)
    requires k >= 1 && n < Power(k)
    ensures |Digits(n)| <= k
  {
    if n >= 10 {
      assert n / 10 < Power(k - 1);
      DigitsCount(n / 10, k - 1);
    }
  }

  lemma QuantityRead(n: nat)
    requires n <= BIGINT_MAX
    ensures ReadNumber(Digits(n)) == Integer(n)
    ensures Stripped(Digits(n))
  {
    var t := Digits(n);
    PowerThree(0);
    PowerThree(3);
    PowerThree(6);
    PowerThree(9);
    PowerThree(12);
    PowerThree(15);
    assert Power(19) == 10 * Power(18);
    DigitsCount(n, 19);
    DigitsRead(n);
    assert IsDigit(t[0]);
    assert IsDigit(t[|t| - 1]);
  }

  function Zeros(z: nat): (t: Text)
    ensures |t| == z && AllDigits(t)
  {
    seq(z, i => 48)
  }

  lemma {:induction false} ZerosRead(z: nat)
    ensures Decimal(Zeros(z)) == 0
  {
    if z > 0 {
      assert Zeros(z)[..z - 1] == Zeros(z - 1);
      ZerosRead(z - 1);
    }
  }

  lemma {:induction false} LeadingZeros(z: nat, digits: Text)
    requires AllDigits(digits)
    ensures AllDigits(Zeros(z) + digits) && Decimal(Zeros(z) + digits) == Decimal(digits)
  {
    if digits == [] {
      assert Zeros(z) + digits == Zeros(z);
      ZerosRead(z);
    } else {
      var init := digits[..|digits| - 1];
      LeadingZeros(z, init);
      assert (Zeros(z) + digits)[..z + |init|] == Zeros(z) + init;
    }
  }

  lemma DigitsNext(z: nat, m: nat, x: nat)
    requires x < 10
    ensures m > 0 ==> Zeros(z) + Digits(m) + [48 + x] == Zeros(z) + Digits(10 * m + x)
    ensures m == 0 ==> Zeros(z) + Digits(m) + [48 + x] == Zeros(z + 1) + Digits(x)
  {
    if m > 0 {
      assert Digits(10 * m + x) == Digits(m) + [48 + x];
    } else {
      assert Zeros(z) + [48] == Zeros(z + 1);
    }
  }

  /** Every non-empty string of digits is some zeros before the digits of its value. */
  lemma {:induction false} DigitsOf(digits: Text) returns (z: nat)
    requires digits != [] && AllDigits(digits)
    ensures digits == Zeros(z) + Digits(Decimal(digits))
  {
    assert IsDigit(digits[|digits| - 1]);
    var init, x := digits[..|digits| - 1], digits[|digits| - 1] - 48;
    if init == [] {
      assert Decimal(init) == 0 && Decimal(digits) == x;
      z := 0;
      assert digits == [48 + x];
    } else {
      z := DigitsOf(init);
      DigitsNext(z, Decimal(init), x);
      assert digits == init + [48 + x];
      if Decimal(init) == 0 {
        z := z + 1;
      }
    }
  }

  // ---------------------------------------------------------------------
  // Numerals
  // ---------------------------------------------------------------------

  datatype Sign = NoSign | Plus | Minus

  function SignText(sign: Sign): Text {
    match sign
    case NoSign => []
    case Plus => [43]
    case Minus => [45]
  }

  function Signed(sign: Sign, n: nat): int {
    if sign == Minus then 0 - n else n
  }

  /** An optional sign, any zeros, and the decimal digits of `n`. */
  function Numeral(sign: Sign, z: nat, n: nat): Text {
    SignText(sign) + (Zeros(z) + Digits(n))
  }

  lemma SignedDigits(sign: Sign, digits: Text)
    requires digits != [] && AllDigits(digits)
    ensures ReadNumber(SignText(sign) + digits) ==
            if |digits| > 4300 then TooManyDigits else Integer(Signed(sign, Decimal(digits)))
  {
    var t := SignText(sign) + digits;
    assert IsDigit(digits[0]);
    if sign == NoSign {
      assert t == digits;
    } else {
      assert t[1..] == digits;
    }
  }

  /** A numeral of at most 4300 digits is read as its value, a longer one is refused. */
  lemma NumeralRead(sign: Sign, z: nat, n: nat)
    ensures ReadNumber(Numeral(sign, z, n)) ==
            if z + |Digits(n)| > 4300 then TooManyDigits else Integer(Signed(sign, n))
  {
    LeadingZeros(z, Digits(n));
    DigitsRead(n);
    SignedDigits(sign, Zeros(z) + Digits(n));
  }

  ghost predicate IsNumeral(t: Text, sign: Sign, z: nat, n: nat) {
    t == Numeral(sign, z, n)
  }

  lemma SignOf(t: Text) returns (sign: Sign, digits: Text)
    requires !ReadNumber(t).NotInteger?
    ensures t == SignText(sign) + digits && digits != [] && AllDigits(digits)
  {
    if t[0] == 43 {
      sign, digits := Plus, t[1..];
    } else if t[0] == 45 {
      sign, digits := Minus, t[1..];
    } else {
      sign, digits := NoSign, t;
    }
    assert t == SignText(sign) + digits;
  }

  lemma NumeralOf(t: Text) returns (sign: Sign, z: nat, n: nat)
    requires !ReadNumber(t).NotInteger?
    ensures IsNumeral(t, sign, z, n)
  {
    var digits;
    sign, digits := SignOf(t);
    z := DigitsOf(digits);
    n := Decimal(digits);
  }

  /** What is read as an integer, and as which: exactly the numerals of at most 4300
      digits, as their value; longer ones raise, and all other texts are no integers. */
  lemma NumberExact(t: Text)
    ensures forall v :: ReadNumber(t) == Integer(v) <==>
              exists sign, z: nat, n: nat ::
                IsNumeral(t, sign, z, n) && z + |Digits(n)| <= 4300 && v == Signed(sign, n)
    ensures ReadNumber(t) == TooManyDigits <==>
              exists sign, z: nat, n: nat :: IsNumeral(t, sign, z, n) && z + |Digits(n)| > 4300
    ensures ReadNumber(t) == NotInteger <==> !exists sign, z: nat, n: nat :: IsNumeral(t, sign, z, n)
  {
    if !ReadNumber(t).NotInteger? {
      var sign, z, n := NumeralOf(t);
      NumeralRead(sign, z, n);
    }
    forall sign, z: nat, n: nat | IsNumeral(t, sign, z, n)
      ensures ReadNumber(t) == if z + |Digits(n)| > 4300 then TooManyDigits else Integer(Signed(sign, n))
    {
      NumeralRead(sign, z, n);
    }
  }

  // ---------------------------------------------------------------------
  // The quantity of a row
  // ---------------------------------------------------------------------

  /** The issue that a numeral deserves as a quantity, if any. */
  function NumeralIssue(sign: Sign, n: nat): Option<IssueCode> {
    if sign == Minus && n > 0 then Some(QuantityNegative)
    else if n > 9_223_372_036_854_775_807 then Some(QuantityTooLarge)
    else None
  }

  /** A row of the right width whose quantity is a numeral of at most 4300 digits gets
      on its quantity exactly the issue for a negative or too large number. */
  lemma QuantityOfRow(row: seq<Text>, header: seq<Text>, line: nat, sign: Sign, z: nat, n: nat, code: IssueCode)
    requires CompleteHeader(header) && |row| == |header|
    requires Value(row, header, Quantity) == Numeral(sign, z, n) && z + |Digits(n)| <= 4300
    ensures var check := CheckRow(row, header, line);
            (check.Rejected? && Issue(Some(line), Some(Quantity), code) in check.issues)
            <==> NumeralIssue(sign, n) == Some(code)
  {
    NumeralRead(sign, z, n);
    RowIssuesExact(row, header, line, Quantity, code);
  }

  /** And a quantity that is no numeral is reported as such. */
  lemma NoNumeralInRow(row: seq<Text>, header: seq<Text>, line: nat)
    requires CompleteHeader(header) && |row| == |header|
    requires forall sign, z: nat, n: nat :: !IsNumeral(Value(row, header, Quantity), sign, z, n)
    ensures var check := CheckRow(row, header, line);
            check.Rejected? && Issue(Some(line), Some(Quantity), InvalidQuantity) in check.issues
  {
    NumberExact(Value(row, header, Quantity));
    RowIssuesExact(row, header, line, Quantity, InvalidQuantity);
  }
}
