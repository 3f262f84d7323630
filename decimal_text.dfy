// Decimal numerals: the digits `operator<<` writes for an unsigned number,
// and the number a run of digits denotes, as the header of img_save and the
// face indices of an OBJ file use them.

module DecimalText {

  /** The decimal digits `operator<<` writes for an unsigned number, without leading zeros. */
  function Decimal(n: nat): (s: string)
    ensures |s| >= 1 && AllDigits(s) && (s[0] == '0' ==> n == 0)
  {
    if n < 10 then [DigitChar(n)] else Decimal(n / 10) + [DigitChar(n % 10)]
  }

  function DigitChar(d: nat): (c: char)
    requires d < 10
    ensures '0' <= c <= '9' && c as int - '0' as int == d
  {
    ('0' as int + d) as char
  }

  predicate AllDigits(s: string)
  {
    forall i :: 0 <= i < |s| ==> '0' <= s[i] <= '9'
  }

  /** The number a string of decimal digits denotes. */
  function DigitsValue(s: string): nat
    requires AllDigits(s)
  {
    if |s| == 0 then 0 else DigitsValue(s[..|s| - 1]) * 10 + (s[|s| - 1] as int - '0' as int)
  }

  /** Reading back the digits written for n gives n. */
  lemma {:induction false} DecimalRoundTrip(n: nat)
    ensures DigitsValue(Decimal(n)) == n
  {
    if n >= 10 {
      DecimalRoundTrip(n / 10);
      var s := Decimal(n);
      assert s[..|s| - 1] == Decimal(n / 10);
    }
  }

  /** The longest run of digits at the front of s, and what follows it. */
  function SplitDigits(s: string): (r: (string, string))
    ensures r.0 + r.1 == s && AllDigits(r.0)
    ensures |r.1| > 0 ==> !('0' <= r.1[0] <= '9')
  {
    if |s| > 0 && '0' <= s[0] <= '9' then
      var rest := SplitDigits(s[1..]);
      ([s[0]] + rest.0, rest.1)
    else ([], s)
  }

  lemma {:induction false} SplitDigitsPrefix(d: string, rest: string)
    requires AllDigits(d) && (|rest| > 0 ==> !('0' <= rest[0] <= '9'))
    ensures SplitDigits(d + rest) == (d, rest)
  {
    if |d| > 0 {
      var s := d + rest;
      assert s[0] == d[0] && s[1..] == d[1..] + rest;
      SplitDigitsPrefix(d[1..], rest);
      assert [d[0]] + d[1..] == d;
    } else {
      assert d + rest == rest;
    }
  }
}
