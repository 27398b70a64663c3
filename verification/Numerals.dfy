/** Decimal numerals as the wire carries them, and the whole-token readers built on them. */
module Numerals {
  import opened Common
  import opened Scheduler

  predicate IsDigit(c: char) { '0' <= c <= '9' }

  predicate AllDigits(s: string) { forall i :: 0 <= i < |s| ==> IsDigit(s[i]) }

  /** The number a string of digits denotes, most significant digit first. */
  function Value(s: string): nat
    requires AllDigits(s)
  {
    if s == "" then 0 else 10 * Value(s[..|s| - 1]) + (s[|s| - 1] as int - '0' as int)
  }

  function Digit(d: nat): (c: char)
    requires d < 10
    ensures IsDigit(c)
  {
    ('0' as int + d) as char
  }

  function Numeral(n: nat): (s: string)
    ensures s != "" && AllDigits(s)
  {
    (if n < 10 then "" else Numeral(n / 10)) + [Digit(n % 10)]
  }

  function SignedNumeral(n: int): string {
    if n < 0 then "-" + Numeral(0 - n) else Numeral(n)
  }

  lemma NumeralIsItself(n: nat)
    ensures SignedNumeral(n) == Numeral(n)
  {
  }

  lemma ValueOfLonger(s: string, d: nat)
    requires AllDigits(s) && d < 10
    ensures AllDigits(s + [Digit(d)]) && Value(s + [Digit(d)]) == 10 * Value(s) + d
  {
    assert (s + [Digit(d)])[..|s|] == s;
  }

  lemma {:induction false} NumeralReadsBack(n: nat)
    ensures Value(Numeral(n)) == n
  {
    hide Value;
    if n < 10 {
      ValueOfLonger("", n);
      assert Value("") == 0 by { NoDigits(); }
      assert "" + [Digit(n)] == Numeral(n);
    } else {
      NumeralReadsBack(n / 10);
      ValueOfLonger(Numeral(n / 10), n % 10);
    }
  }

  lemma NoDigits()
    ensures Value("") == 0
  {
  }

  function Power(k: nat): nat {
    if k == 0 then 1 else 10 * Power(k - 1)
  }

  lemma {:induction false} NumeralIsShort(n: nat, k: nat)
    requires 0 < k && n < Power(k)
    ensures |Numeral(n)| <= k
  {
    if n >= 10 {
      NumeralIsShort(n / 10, k - 1);
    }
  }

  lemma {:induction false} PowerAdds(j: nat, k: nat)
    ensures Power(j + k) == Power(j) * Power(k)
  {
    if j > 0 {
      PowerAdds(j - 1, k);
    }
  }

  lemma NumeralOfBytesIsShort(n: Bytes)
    ensures |Numeral(n)| <= 20
  {
    assert Power(5) == 100_000;
    PowerAdds(5, 5);
    PowerAdds(10, 10);
    NumeralIsShort(n, 20);
  }

  // ---------------------------------------------------------- reading tokens

  /** The length of the longest prefix made of digits. */
  function DigitRun(s: string): (n: nat)
    ensures n <= |s| && AllDigits(s[..n])
    ensures n < |s| ==> !IsDigit(s[n])
  {
    if s == "" || !IsDigit(s[0]) then 0 else
      assert AllDigits([s[0]] + s[1..][..DigitRun(s[1..])]);
      assert s[..1 + DigitRun(s[1..])] == [s[0]] + s[1..][..DigitRun(s[1..])];
      1 + DigitRun(s[1..])
  }

  datatype Scan = NoNumber | TooLarge | Number(value: Bytes, stop: nat)

  /** The 64-bit scan of the C++ library: the longest run of digits, or why there is no value. */
  function ScanUnsigned(s: string): Scan {
    var n := DigitRun(s);
    if n == 0 then NoNumber
    else if Value(s[..n]) > MAX_BYTES then TooLarge
    else Number(Value(s[..n]), n)
  }

  function ParseUnsigned(token: string): Option<Bytes> {
    if token == "" then None else
      match ScanUnsigned(token)
      case Number(value, stop) => if stop != |token| then None else Some(value)
      case _ => None
  }

  /** A token is an unsigned number exactly when it is digits that denote a 64-bit value. */
  lemma UnsignedIsDigits(token: string, value: Bytes)
    ensures ParseUnsigned(token) == Some(value) <==> token != "" && AllDigits(token) && Value(token) == value
  {
    assert token[..|token|] == token;
    if DigitRun(token) < |token| {
      assert !AllDigits(token);
    }
  }

  function ParsePriority(token: string): Option<Priority> {
    if token == "" then None else
      var negative := token[0] == '-';
      var magnitude := ParseUnsigned(if token[0] == '-' || token[0] == '+' then token[1..] else token);
      if magnitude == None || magnitude.value > (if negative then 0x8000_0000 else 0x7FFF_FFFF) then None
      else if negative then Some(0 - magnitude.value)
      else Some(magnitude.value)
  }

  predicate SignedText(token: string, sign: string, digits: string, value: int) {
    && token == sign + digits
    && sign in {"", "+", "-"}
    && digits != "" && AllDigits(digits)
    && value == (if sign == "-" then 0 - Value(digits) else Value(digits))
  }

  /** A token is a priority exactly when it is an optional sign and digits within 32 bits. */
  lemma PriorityIsSignedDigits(token: string, value: Priority)
    ensures ParsePriority(token) == Some(value) <==> exists sign, digits :: SignedText(token, sign, digits, value)
  {
    if ParsePriority(token) == Some(value) {
      var signed := token[0] == '-' || token[0] == '+';
      var sign, digits := if signed then token[..1] else "", if signed then token[1..] else token;
      UnsignedIsDigits(digits, ParseUnsigned(digits).value);
      assert sign == (if token[0] == '-' then "-" else if token[0] == '+' then "+" else "");
      assert token == sign + digits;
      assert SignedText(token, sign, digits, value);
    }
    forall sign, digits | SignedText(token, sign, digits, value)
      ensures ParsePriority(token) == Some(value)
    {
      SignedTextIsRead(token, sign, digits, value);
    }
  }

  lemma SignedTextIsRead(token: string, sign: string, digits: string, value: Priority)
    requires SignedText(token, sign, digits, value)
    ensures ParsePriority(token) == Some(value)
  {
    UnsignedIsDigits(digits, Value(digits));
    if sign == "" {
      assert token == digits && IsDigit(digits[0]);
    } else {
      assert token[1..] == digits;
    }
  }

  function ParseTimeout(token: string): Option<Millis> {
    var value := ParseUnsigned(token);
    if value == None || value.value > 0x7FFF_FFFF_FFFF_FFFF then None else Some(value.value)
  }

  /** A token is a number of milliseconds exactly when it is digits within 63 bits. */
  lemma TimeoutIsDigits(token: string, t: Millis)
    ensures ParseTimeout(token) == Some(t) <==> token != "" && AllDigits(token) && Value(token) == t
  {
    if t >= 0 {
      UnsignedIsDigits(token, t);
    }
  }

  /** Printing and reading agree, up to the smallest 32-bit value; a minus sign is never a timeout. */
  lemma PriorityReadsBack(p: Priority)
    ensures ParsePriority(SignedNumeral(p)) == Some(p)
  {
    if p < 0 {
      NumeralReadsBack(0 - p);
      SignedTextIsRead(SignedNumeral(p), "-", Numeral(0 - p), p);
    } else {
      NumeralReadsBack(p);
      SignedTextIsRead(SignedNumeral(p), "", Numeral(p), p);
    }
  }

  lemma UnsignedReadsBack(n: Bytes)
    ensures ParseUnsigned(Numeral(n)) == Some(n)
  {
    NumeralReadsBack(n);
    UnsignedIsDigits(Numeral(n), n);
  }

  lemma TimeoutReadsBack(t: Millis)
    ensures ParseTimeout(SignedNumeral(t)) == if t < 0 then None else Some(t)
  {
    if t < 0 {
      var text := SignedNumeral(t);
      assert text[0] == '-';
      assert DigitRun(text) == 0;
    } else {
      UnsignedReadsBack(t);
    }
  }
}
