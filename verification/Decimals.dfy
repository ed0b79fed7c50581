/** Decimal numbers of a fixed width, as the time's text writes them. */
module Decimals {
  function Digit(value: nat): char
    requires value < 10
  {
    ('0' as int + value) as char
  }

  predicate IsDigit(character: char) {
    '0' <= character <= '9'
  }

  function DigitValue(character: char): (value: nat)
    requires IsDigit(character)
    ensures value < 10 && Digit(value) == character
  {
    character as int - '0' as int
  }

  predicate AllDigits(text: string) {
    forall i | 0 <= i < |text| :: IsDigit(text[i])
  }

  function Pow10(exponent: nat): nat {
    if exponent == 0 then 1 else 10 * Pow10(exponent - 1)
  }

  // The last `width` decimal digits of `number`, with leading zeros.
  function Pad(number: nat, width: nat): (text: string)
    ensures |text| == width && AllDigits(text)
  {
    if width == 0 then "" else Pad(number / 10, width - 1) + [Digit(number % 10)]
  }

  // The number some decimal digits write.
  function Value(digits: string): nat
    requires AllDigits(digits)
  {
    if digits == "" then 0
    else 10 * Value(digits[..|digits| - 1]) + DigitValue(digits[|digits| - 1])
  }

  // The decimal digits of a number, with no leading zero.
  function DecimalText(number: nat): (text: string)
    ensures text != "" && AllDigits(text)
  {
    if number < 10 then [Digit(number)] else DecimalText(number / 10) + [Digit(number % 10)]
  }

  lemma {:induction false} DecimalReads(number: nat)
    ensures Value(DecimalText(number)) == number
    ensures DecimalText(number)[0] == '0' ==> number == 0
  {
    if number >= 10 {
      DecimalReads(number / 10);
      assert DecimalText(number)[..|DecimalText(number)| - 1] == DecimalText(number / 10);
    } else {
      assert DecimalText(number)[..0] == "";
    }
  }

  // A number that fits its width reads back.
  lemma {:induction false} ValueOfPad(number: nat, width: nat)
    requires number < Pow10(width)
    ensures Value(Pad(number, width)) == number
  {
    if width > 0 {
      ValueOfPad(number / 10, width - 1);
      assert Pad(number, width)[..width - 1] == Pad(number / 10, width - 1);
    }
  }

  // Digits are the padding of the number they write, so no two texts of a width write one number.
  lemma {:induction false} PadOfValue(digits: string)
    requires AllDigits(digits)
    ensures Value(digits) < Pow10(|digits|) && Pad(Value(digits), |digits|) == digits
  {
    if digits != "" {
      PadOfValue(digits[..|digits| - 1]);
    }
  }

  lemma Widths()
    ensures Pow10(2) == 100 && Pow10(4) == 10_000 && Pow10(9) == 1_000_000_000
  {
    assert Pow10(4) == 100 * Pow10(2);
    assert Pow10(6) == 100 * Pow10(4);
    assert Pow10(8) == 100 * Pow10(6);
  }

  // The text without its trailing zeros.
  function TrimZeros(text: string): (trimmed: string)
    ensures trimmed <= text
  {
    if text != "" && text[|text| - 1] == '0' then TrimZeros(text[..|text| - 1]) else text
  }

  function Zeros(count: nat): (text: string)
    ensures |text| == count && AllDigits(text)
    ensures forall i | 0 <= i < count :: text[i] == '0'
  {
    if count == 0 then "" else Zeros(count - 1) + "0"
  }

  // Putting the trimmed zeros back gives the text.
  lemma {:induction false} TrimmedZeros(text: string)
    ensures TrimZeros(text) + Zeros(|text| - |TrimZeros(text)|) == text
  {
    if text != "" && text[|text| - 1] == '0' {
      TrimmedZeros(text[..|text| - 1]);
      assert text == text[..|text| - 1] + "0";
    }
  }

  // Only zero trims to nothing.
  lemma {:induction false} TrimsToNothing(text: string)
    requires AllDigits(text) && TrimZeros(text) == ""
    ensures Value(text) == 0
  {
    if text != "" {
      TrimsToNothing(text[..|text| - 1]);
    }
  }
}
