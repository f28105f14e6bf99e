/** C strings and the decimal numbers in them. */
module CText {

  /** The text of a C string; reading at its end gives NUL. */
  type CString = s: string | '\0' !in s witness ""

  predicate IsDigit(c: char) { '0' <= c <= '9' }

  predicate AllDigits(s: string) { forall i :: 0 <= i < |s| ==> IsDigit(s[i]) }

  function DigitValue(c: char): nat
    requires IsDigit(c)
  {
    c as int - '0' as int
  }

  function Decimal(s: string): nat
    requires AllDigits(s)
  {
    if s == "" then 0 else Decimal(s[..|s| - 1]) * 10 + DigitValue(s[|s| - 1])
  }

  /** Digits are the ten of them, and each is worth its place. */
  lemma DigitsAreDecimal(c: char)
    ensures IsDigit(c) <==> c in "0123456789"
    ensures forall d :: 0 <= d < 10 ==> IsDigit("0123456789"[d]) && DigitValue("0123456789"[d]) == d
  {
    var s := "0123456789";
    assert s[0] == '0' && s[1] == '1' && s[2] == '2' && s[3] == '3' && s[4] == '4';
    assert s[5] == '5' && s[6] == '6' && s[7] == '7' && s[8] == '8' && s[9] == '9';
    if IsDigit(c) {
      assert s[c as int - '0' as int] == c;
    }
  }
}
