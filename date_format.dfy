/** `AppComponent.formatDateToDDMMYYYYHHMM`: "dd-mm-yyyy hh:mm". The `Date` getters
    are parameters; JavaScript's conversion of an integer to text is `NumberText`. */
module DateFormat {

  /** The values `getDate()`, `getMonth()`, `getFullYear()`, `getHours()` and
      `getMinutes()` return (`month0` counts from 0, as `getMonth()` does). */
  datatype DateParts = DateParts(day: int, month0: int, year: int, hours: int, minutes: int)

  predicate IsDigit(c: char)
  {
    '0' <= c <= '9'
  }

  function DigitChar(d: nat): (c: char)
    requires d < 10
    ensures IsDigit(c) && c as int - '0' as int == d
  {
    ('0' as int + d) as char
  }

  /** Decimal text of a natural number, without leading zeros. */
  function NatText(n: nat): (s: string)
    ensures 1 <= |s|
    ensures forall i :: 0 <= i < |s| ==> IsDigit(s[i])
    decreases n
  {
    if n < 10 then [DigitChar(n)] else NatText(n / 10) + [DigitChar(n % 10)]
  }

  /** `String(n)` for an integer. */
  function NumberText(n: int): string
  {
    if n < 0 then "-" + NatText(-n) else NatText(n)
  }

  predicate AllDigits(s: string)
  {
    forall i :: 0 <= i < |s| ==> IsDigit(s[i])
  }

  function DigitValue(c: char): nat
    requires IsDigit(c)
  {
    c as int - '0' as int
  }

  /** The value a string of decimal digits denotes. */
  function DigitsValue(s: string): nat
    requires AllDigits(s)
  {
    if s == [] then 0 else DigitsValue(s[..|s| - 1]) * 10 + DigitValue(s[|s| - 1])
  }

  /** `String.prototype.slice(-2)`: the last two characters, or all of a shorter string. */
  function SliceLast2(s: string): string
  {
    if |s| <= 2 then s else s[|s| - 2..]
  }

  /** `('0' + n).slice(-2)`: always two characters, and for a non-negative number its
      last two decimal digits. */
  function Pad2(n: int): (s: string)
    ensures |s| == 2
    ensures 0 <= n ==> AllDigits(s) && DigitsValue(s) == n % 100
  {
    if n < 0 then SliceLast2("0" + NumberText(n))
    else
      LastTwoDigits(n);
      SliceLast2("0" + NatText(n))
  }

  lemma LastTwoDigits(n: nat)
    ensures var t := SliceLast2("0" + NatText(n));
      |t| == 2 && AllDigits(t) && DigitsValue(t) == n % 100
  {
    var t := SliceLast2("0" + NatText(n));
    if n < 10 {
      assert t == ['0', DigitChar(n)];
      assert t[..1] == ['0'];
      assert DigitsValue(t[..1]) == 0 by { assert t[..1][..0] == []; }
    } else {
      var u := NatText(n / 10);
      NatTextLast(n / 10);
      assert t == [u[|u| - 1], DigitChar(n % 10)];
      assert t[..1] == [DigitChar((n / 10) % 10)];
      assert DigitsValue(t[..1]) == (n / 10) % 10 by { assert t[..1][..0] == []; }
      TensAndUnits(n);
    }
  }

  lemma TensAndUnits(n: nat)
    ensures n % 100 == (n / 10) % 10 * 10 + n % 10
  {
    var q, r := n / 100, n % 100;
    assert n == 100 * q + r;
    assert n / 10 == 10 * q + r / 10;
    assert (n / 10) % 10 == r / 10;
    assert n % 10 == r % 10;
  }

  /** The last character of the decimal text is the units digit. */
  lemma NatTextLast(m: nat)
    ensures NatText(m)[|NatText(m)| - 1] == DigitChar(m % 10)
  {
  }

  /** "dd-mm-yyyy hh:mm" for any getter values: two characters per padded field, the
      year's text, and the separators in their places. */
  function FormatDate(d: DateParts): (s: string)
    ensures var y := |NumberText(d.year)|;
      && |s| == 12 + y
      && s[2] == '-' && s[5] == '-' && s[6 + y] == ' ' && s[9 + y] == ':'
      && s[6..6 + y] == NumberText(d.year)
  {
    Pad2(d.day) + "-" + Pad2(d.month0 + 1) + "-" + NumberText(d.year) + " "
    + Pad2(d.hours) + ":" + Pad2(d.minutes)
  }

  /** Reading the digits back gives the number: the text is a faithful rendering. */
  lemma {:induction false} NatTextValue(n: nat)
    ensures DigitsValue(NatText(n)) == n
    decreases n
  {
    if n >= 10 {
      NatTextValue(n / 10);
      var s := NatText(n);
      assert s[..|s| - 1] == NatText(n / 10);
    }
  }

  function Pow10(width: nat): (p: nat)
    ensures 1 <= p
  {
    if width == 0 then 1 else 10 * Pow10(width - 1)
  }

  /** Reference rendering: `n` in exactly `width` decimal digits, with leading zeros. */
  function Digits(n: nat, width: nat): (s: string)
    requires n < Pow10(width)
    ensures |s| == width && AllDigits(s) && DigitsValue(s) == n
    decreases width
  {
    if width == 0 then []
    else
      var s := Digits(n / 10, width - 1) + [DigitChar(n % 10)];
      assert s[..|s| - 1] == Digits(n / 10, width - 1);
      s
  }

  /** Without padding, a number with `width` digits is rendered as those digits. */
  lemma {:induction false} NatTextIsDigits(n: nat, width: nat)
    requires 1 <= width && Pow10(width - 1) <= n < Pow10(width)
    ensures NatText(n) == Digits(n, width)
    decreases width
  {
    if width == 1 {
      assert Digits(n / 10, 0) == [];
    } else {
      NatTextIsDigits(n / 10, width - 1);
    }
  }

  /** `('0' + n).slice(-2)` renders every value from 0 to 99 as its two digits. */
  lemma Pad2Small(n: nat)
    requires n < 100
    ensures Pad2(n) == Digits(n, 2)
  {
    if n < 10 {
      assert Digits(0, 0) == [] && Digits(0, 1) == "0";
      assert Digits(n, 2) == "0" + [DigitChar(n)];
    } else {
      NatTextIsDigits(n, 2);
    }
  }

  /** The ranges the `Date` getters produce, with a four-digit year. */
  predicate InRange(d: DateParts)
  {
    1 <= d.day <= 31 && 0 <= d.month0 <= 11 && 1000 <= d.year <= 9999
    && 0 <= d.hours <= 23 && 0 <= d.minutes <= 59
  }

  /** Within those ranges the result is "dd-mm-yyyy hh:mm": every field zero-padded to
      two digits (the year written with its four digits), the month field holding
      `getMonth() + 1`. */
  lemma FormatDateShape(d: DateParts)
    requires InRange(d)
    ensures FormatDate(d) == Digits(d.day, 2) + "-" + Digits(d.month0 + 1, 2) + "-" + Digits(d.year, 4)
                             + " " + Digits(d.hours, 2) + ":" + Digits(d.minutes, 2)
    ensures |FormatDate(d)| == 16
  {
    Pad2Small(d.day);
    Pad2Small(d.month0 + 1);
    Pad2Small(d.hours);
    Pad2Small(d.minutes);
    NatTextIsDigits(d.year, 4);
  }
}
