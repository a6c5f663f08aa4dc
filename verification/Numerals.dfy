/** Which texts are read as which numbers: an optional sign, any zeros, and the decimal digits. */
module Numerals {
  import opened Prelude
  import opened Text

  function Zeros(k: nat): (s: string)
    ensures |s| == k && forall i :: 0 <= i < k ==> s[i] == '0'
  {
    seq(k, i => '0')
  }

  /** `s` is `n` in decimal, perhaps after some zeros. */
  ghost predicate Decimal(s: string, n: nat) {
    exists k: nat {:trigger Zeros(k)} :: s == Zeros(k) + FormatNat(n)
  }

  ghost predicate Numeral(s: string, v: int) {
    || (v >= 0 && (Decimal(s, v) || (HasPrefix(s, "+") && Decimal(s[1..], v))))
    || (v <= 0 && HasPrefix(s, "-") && Decimal(s[1..], -v))
  }

  lemma {:induction false} ValueOfZeros(k: nat, s: string)
    requires Digits(s)
    ensures Digits(Zeros(k) + s) && DigitsValue(Zeros(k) + s) == DigitsValue(s)
  {
    if |s| > 0 {
      ValueOfZeros(k, s[..|s| - 1]);
      assert (Zeros(k) + s)[..k + |s| - 1] == Zeros(k) + s[..|s| - 1];
    } else if k > 0 {
      ValueOfZeros(k - 1, s);
      assert (Zeros(k) + s)[..k - 1] == Zeros(k - 1) + s;
    } else {
      assert Zeros(k) + s == s;
    }
  }

  lemma DecimalValue(s: string, n: nat)
    requires Decimal(s, n)
    ensures s != "" && Digits(s) && DigitsValue(s) == n
  {
    var k: nat :| s == Zeros(k) + FormatNat(n);
    ValueOfZeros(k, FormatNat(n));
    DigitsOfFormat(n);
  }

  lemma FormatSnoc(n: nat, c: char)
    requires Digit(c)
    ensures n > 0 ==> FormatNat(n * 10 + (c as int - '0' as int)) == FormatNat(n) + [c]
    ensures FormatNat(c as int - '0' as int) == [c]
  {
    var v := n * 10 + (c as int - '0' as int);
    assert v / 10 == n && v % 10 == c as int - '0' as int;
  }

  lemma ZerosMore(k: nat, c: string)
    ensures Zeros(k) + "0" + c == Zeros(k + 1) + c
  {
  }

  lemma DecimalSnoc(front: string, n: nat, c: char)
    requires Digit(c) && Decimal(front, n)
    ensures Decimal(front + [c], n * 10 + (c as int - '0' as int))
  {
    var k: nat :| front == Zeros(k) + FormatNat(n);
    FormatSnoc(n, c);
    if n > 0 {
      assert front + [c] == Zeros(k) + (FormatNat(n) + [c]);
    } else {
      ZerosMore(k, [c]);
      assert FormatNat(0) == "0" && front + [c] == Zeros(k + 1) + [c];
    }
  }

  lemma DecimalOne(s: string, c: char)
    requires Digit(c) && s == [c]
    ensures Decimal(s, c as int - '0' as int)
  {
    FormatSnoc(0, c);
    assert s == Zeros(0) + [c];
  }

  lemma ValueSnoc(front: string, c: char)
    requires Digits(front) && Digit(c)
    ensures Digits(front + [c]) && DigitsValue(front + [c]) == DigitsValue(front) * 10 + (c as int - '0' as int)
    ensures |front| == 0 ==> DigitsValue(front) == 0
  {
    assert (front + [c])[..|front|] == front;
  }

  lemma {:induction false} ValueDecimal(s: string)
    requires s != "" && Digits(s)
    ensures Decimal(s, DigitsValue(s))
  {
    var front, c := s[..|s| - 1], s[|s| - 1];
    assert Digit(c) && s == front + [c];
    ValueSnoc(front, c);
    if |front| == 0 {
      DecimalOne(s, c);
    } else {
      ValueDecimal(front);
      DecimalSnoc(front, DigitsValue(front), c);
    }
  }

  lemma DecimalIff(s: string, n: nat)
    ensures Decimal(s, n) <==> s != "" && Digits(s) && DigitsValue(s) == n
  {
    if Decimal(s, n) {
      DecimalValue(s, n);
    }
    if s != "" && Digits(s) {
      ValueDecimal(s);
    }
  }

  lemma OneSign(s: string, c: char)
    ensures HasPrefix(s, [c]) <==> s != "" && s[0] == c
  {
  }

  /** The digits of a text behind its sign. */
  lemma ParsesDigits(s: string, digits: string, minus: bool, v: int)
    requires minus == HasPrefix(s, "-") && digits == if minus || HasPrefix(s, "+") then s[1..] else s
    ensures ParseInt64(s) == Some(v) <==>
      && -MAX_INT64 - 1 <= v <= MAX_INT64 && digits != "" && Digits(digits)
      && v == if minus then -DigitsValue(digits) else DigitsValue(digits)
  {
    OneSign(s, '+');
    OneSign(s, '-');
  }

  lemma SignedIsNoDecimal(s: string, n: nat)
    requires HasPrefix(s, "-") || HasPrefix(s, "+")
    ensures !Decimal(s, n)
  {
    OneSign(s, '+');
    OneSign(s, '-');
    DecimalIff(s, n);
    assert !Digit(s[0]);
  }

  /** What ParseInt accepts, and the number it gives. */
  lemma ParsesIff(s: string, v: int)
    ensures ParseInt64(s) == Some(v) <==> -MAX_INT64 - 1 <= v <= MAX_INT64 && Numeral(s, v)
  {
    var minus := HasPrefix(s, "-");
    var digits := if minus || HasPrefix(s, "+") then s[1..] else s;
    ParsesDigits(s, digits, minus, v);
    DecimalIff(digits, if v < 0 then -v else v);
    if digits != s {
      SignedIsNoDecimal(s, if v < 0 then -v else v);
    }
  }
}
