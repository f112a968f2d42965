/**
 * The two JavaScript built-ins the certificate id is made with:
 * `String(n)` on a non-negative integer and `s.padStart(len, ch)`.
 * `ParseDigits` is their partner: it reads a run of decimal digits back.
 */
module JsString {

  predicate IsDigit(c: char) {
    '0' <= c <= '9'
  }

  predicate AllDigits(s: string) {
    forall i :: 0 <= i < |s| ==> IsDigit(s[i])
  }

  function DigitChar(d: nat): (c: char)
    requires d < 10
    ensures IsDigit(c)
  {
    (48 + d) as char
  }

  function DigitValue(c: char): (d: nat)
    requires IsDigit(c)
    ensures d < 10 && DigitChar(d) == c
  {
    c as int - 48
  }

  /** `String(n)` for a natural number: its decimal form, no leading zero. */
  function NatToString(n: nat): (s: string)
    ensures 1 <= |s| && AllDigits(s)
    ensures |s| > 1 ==> s[0] != '0'
    decreases n
  {
    if n < 10 then [DigitChar(n)] else NatToString(n / 10) + [DigitChar(n % 10)]
  }

  /** The value of a string of decimal digits (leading zeros allowed). */
  function ParseDigits(s: string): (n: nat)
    requires AllDigits(s)
  {
    if s == [] then 0 else ParseDigits(s[..|s| - 1]) * 10 + DigitValue(s[|s| - 1])
  }

  /** Reading back the decimal form of `n` gives `n`. */
  lemma {:induction false} ParseNatToString(n: nat)
    ensures ParseDigits(NatToString(n)) == n
    decreases n
  {
    var s := NatToString(n);
    if n >= 10 {
      var t := NatToString(n / 10);
      assert s[..|s| - 1] == t;
      ParseNatToString(n / 10);
    }
  }

  /** The number of decimal digits of `n`, for the widths the id format cares about. */
  lemma {:induction false} NatToStringLength(n: nat)
    ensures n < 10 ==> |NatToString(n)| == 1
    ensures 10 <= n < 100 ==> |NatToString(n)| == 2
    ensures 100 <= n < 1000 ==> |NatToString(n)| == 3
    ensures 1000 <= n ==> |NatToString(n)| > 3
    decreases n
  {
    if n >= 10 {
      NatToStringLength(n / 10);
    }
  }

  function Repeat(c: char, n: nat): (r: string)
    ensures |r| == n && forall i :: 0 <= i < n ==> r[i] == c
  {
    seq(n, _ => c)
  }

  /**
   * `s.padStart(targetLength, padChar)`: `s` itself when it is already
   * `targetLength` long or longer, otherwise `s` behind enough copies of
   * `padChar` to reach `targetLength`.
   */
  function PadStart(s: string, targetLength: nat, padChar: char): (r: string)
    ensures |r| == if |s| >= targetLength then |s| else targetLength
    ensures r[|r| - |s|..] == s
    ensures forall i :: 0 <= i < |r| - |s| ==> r[i] == padChar
  {
    if |s| >= targetLength then s else Repeat(padChar, targetLength - |s|) + s
  }

  /** A leading '0' does not change the value of a digit string. */
  lemma {:induction false} ParseLeadingZero(s: string)
    requires AllDigits(s)
    ensures AllDigits(['0'] + s) && ParseDigits(['0'] + s) == ParseDigits(s)
    decreases |s|
  {
    var z := ['0'] + s;
    if s != [] {
      var init := s[..|s| - 1];
      assert z[..|z| - 1] == ['0'] + init;
      ParseLeadingZero(init);
    }
  }

  /** Any number of leading '0's does not change the value of a digit string. */
  lemma {:induction false} ParseLeadingZeros(k: nat, s: string)
    requires AllDigits(s)
    ensures AllDigits(Repeat('0', k) + s) && ParseDigits(Repeat('0', k) + s) == ParseDigits(s)
    decreases k
  {
    if k > 0 {
      var rest := Repeat('0', k - 1) + s;
      ParseLeadingZeros(k - 1, s);
      assert Repeat('0', k) + s == ['0'] + rest;
      ParseLeadingZero(rest);
    } else {
      assert Repeat('0', k) + s == s;
    }
  }

  /** Zero padding keeps the value: `ParseDigits` undoes `PadStart(_, _, '0')`. */
  lemma ParsePadStart(s: string, targetLength: nat)
    requires AllDigits(s)
    ensures AllDigits(PadStart(s, targetLength, '0'))
    ensures ParseDigits(PadStart(s, targetLength, '0')) == ParseDigits(s)
  {
    if |s| < targetLength {
      ParseLeadingZeros(targetLength - |s|, s);
    }
  }
}
