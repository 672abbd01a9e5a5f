/** The decimal conversions of the log's format strings: `%0wd` as ISO C99 7.19.6.1 defines it,
    and the reading of such a number. */
module Decimal {

  function Digit(d: nat): char
    requires d < 10
  {
    "0123456789"[d]
  }

  function Digits(n: nat): (s: string)
    ensures |s| > 0
  {
    if n < 10 then [Digit(n)] else Digits(n / 10) + [Digit(n % 10)]
  }

  function Zeros(n: int): (s: string)
    ensures |s| == if n < 0 then 0 else n
    ensures forall c | c in s :: c == '0'
  {
    seq(if n < 0 then 0 else n, _ => '0')
  }

  /** `%0<width>d`. The sign counts towards the width. */
  function Padded(width: nat, x: int): string {
    if x >= 0 then Zeros(width - |Digits(x)|) + Digits(x)
    else "-" + Zeros(width - 1 - |Digits(-x)|) + Digits(-x)
  }

  predicate IsDigit(c: char) {
    '0' <= c <= '9'
  }

  function Value(s: string): int {
    if s == "" then 0 else Value(s[..|s| - 1]) * 10 + (s[|s| - 1] as int - '0' as int)
  }

  /** Reads an optionally signed decimal number. */
  function Number(s: string): int {
    if s != "" && s[0] == '-' then -Value(s[1..]) else Value(s)
  }

  lemma {:induction false} DigitsAreDigits(n: nat)
    ensures forall c | c in Digits(n) :: IsDigit(c)
  {
    if n >= 10 {
      DigitsAreDigits(n / 10);
    }
  }

  lemma {:induction false} ValueOfDigits(n: nat)
    ensures Value(Digits(n)) == n
  {
    if n >= 10 {
      ValueOfDigits(n / 10);
      assert Digits(n)[..|Digits(n)| - 1] == Digits(n / 10);
    } else {
      assert Digits(n)[..0] == "";
    }
  }

  lemma {:induction false} ValueOfZeros(k: int)
    ensures Value(Zeros(k)) == 0
    decreases if k < 0 then 0 else k
  {
    if k > 0 {
      assert Zeros(k)[..k - 1] == Zeros(k - 1);
      ValueOfZeros(k - 1);
      assert Zeros(k)[k - 1] in Zeros(k);
    }
  }

  lemma {:induction false} ValueWithZeros(k: int, s: string)
    ensures Value(Zeros(k) + s) == Value(s)
    decreases |s|
  {
    var z := Zeros(k);
    if s == "" {
      assert z + s == z;
      ValueOfZeros(k);
    } else {
      assert (z + s)[..|z + s| - 1] == z + s[..|s| - 1];
      ValueWithZeros(k, s[..|s| - 1]);
    }
  }

  lemma {:induction false} ValueOfPadding(k: int, n: nat)
    ensures Value(Zeros(k) + Digits(n)) == n
    ensures forall c | c in Zeros(k) + Digits(n) :: IsDigit(c)
  {
    ValueOfDigits(n);
    ValueWithZeros(k, Digits(n));
    DigitsAreDigits(n);
  }

  /** Printing is undone by reading, for every number and every width. */
  lemma {:induction false} NumberOfPadded(width: nat, x: int)
    ensures Number(Padded(width, x)) == x
  {
    hide Value, Digits, Zeros;
    if x >= 0 {
      ValueOfPadding(width - |Digits(x)|, x);
      assert Padded(width, x)[0] in Padded(width, x);
    } else {
      var s := Zeros(width - 1 - |Digits(-x)|) + Digits(-x);
      ValueOfPadding(width - 1 - |Digits(-x)|, -x);
      assert Padded(width, x) == "-" + s;
      assert ("-" + s)[1..] == s;
    }
  }

  /** A printed number is made of digits and perhaps a minus sign. */
  lemma {:induction false} PaddedChars(width: nat, x: int)
    ensures forall c | c in Padded(width, x) :: IsDigit(c) || c == '-'
    ensures |Padded(width, x)| > 0
  {
    DigitsAreDigits(if x >= 0 then x else -x);
  }

  function Pow10(k: nat): nat {
    if k == 0 then 1 else 10 * Pow10(k - 1)
  }

  lemma {:induction false} DigitsFitIff(n: nat, k: nat)
    requires k >= 1
    ensures |Digits(n)| <= k <==> n < Pow10(k)
  {
    if n >= 10 && k > 1 {
      DigitsFitIff(n / 10, k - 1);
    } else if k > 1 {
      Pow10AtLeast(k - 1);
    } else {
      assert Pow10(0) == 1;
    }
  }

  lemma {:induction false} Pow10AtLeast(k: nat)
    ensures Pow10(k) >= 1
  {
    if k > 0 {
      Pow10AtLeast(k - 1);
    }
  }

  /** The number of characters: the width, or as many as the number needs if those are more. */
  lemma {:induction false} PaddedFits(width: nat, x: int, k: nat)
    requires 2 <= width <= k
    ensures |Padded(width, x)| <= k <==> -(Pow10(k - 1) as int) < x < Pow10(k)
  {
    if x >= 0 {
      DigitsFitIff(x, k);
      Pow10AtLeast(k - 1);
    } else {
      DigitsFitIff(-x, k - 1);
      Pow10AtLeast(k);
    }
  }

  /** The width is a minimum; it is exact just for the numbers that fit it. */
  lemma {:induction false} PaddedWidth(width: nat, x: int)
    requires width >= 2
    ensures |Padded(width, x)| >= width
    ensures |Padded(width, x)| == width <==> -(Pow10(width - 1) as int) < x < Pow10(width)
  {
    if x >= 0 {
      DigitsFitIff(x, width);
      Pow10AtLeast(width - 1);
    } else {
      DigitsFitIff(-x, width - 1);
      Pow10AtLeast(width);
    }
  }
}
