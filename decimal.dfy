/** Python's `str()` on an integer (decimal, with a leading '-' for negatives),
    and a parser that reads such text back, used to show that a label value
    identifies the integer it was rendered from. */
module Decimal {

  predicate IsDigit(c: char) {
    '0' <= c <= '9'
  }

  function DigitChar(d: nat): (c: char)
    requires d < 10
    ensures IsDigit(c)
  {
    ('0' as int + d) as char
  }

  function DigitValue(c: char): nat {
    if IsDigit(c) then (c as int - '0' as int) as nat else 0
  }

  /** Decimal digits of `n`, most significant first, without leading zeros. */
  function NatToString(n: nat): string
    decreases n
  {
    if n < 10 then [DigitChar(n)] else NatToString(n / 10) + [DigitChar(n % 10)]
  }

  /** `str(i)` for a Python int. */
  function IntToString(i: int): string {
    if i < 0 then "-" + NatToString(-i) else NatToString(i)
  }

  function ParseNat(s: string): nat {
    if s == [] then 0 else ParseNat(s[..|s| - 1]) * 10 + DigitValue(s[|s| - 1])
  }

  /** `int(s)` on the text `IntToString` produces. */
  function ParseInt(s: string): int {
    if |s| > 0 && s[0] == '-' then -(ParseNat(s[1..]) as int) else ParseNat(s)
  }

  /** `NatToString` writes at least one digit and nothing but digits. */
  lemma {:induction false} NatToStringDigits(n: nat)
    ensures |NatToString(n)| > 0
    ensures forall i :: 0 <= i < |NatToString(n)| ==> IsDigit(NatToString(n)[i])
    decreases n
  {
    if n >= 10 {
      NatToStringDigits(n / 10);
    }
  }

  /** `NatToString` writes no leading zero: only 0 itself starts with '0'. */
  lemma {:induction false} NatToStringCanonical(n: nat)
    ensures NatToString(n)[0] != '0' || n == 0
    decreases n
  {
    NatToStringDigits(n);
    if n >= 10 {
      NatToStringDigits(n / 10);
      NatToStringCanonical(n / 10);
      assert NatToString(n)[0] == NatToString(n / 10)[0];
    }
  }

  /** `IntToString` writes a leading '-' exactly for negative numbers. */
  lemma IntToStringSign(i: int)
    ensures |IntToString(i)| > 0
    ensures IntToString(i)[0] == '-' <==> i < 0
  {
    if i < 0 {
      NatToStringDigits(-i);
    } else {
      NatToStringDigits(i);
    }
  }

  lemma {:induction false} ParseNatOfNatToString(n: nat)
    ensures ParseNat(NatToString(n)) == n
    decreases n
  {
    if n >= 10 {
      var s := NatToString(n / 10);
      ParseNatOfNatToString(n / 10);
      var t := s + [DigitChar(n % 10)];
      assert NatToString(n) == t;
      assert t[..|t| - 1] == s;
    }
  }

  /** Reading back what `str()` wrote gives the original integer. */
  lemma IntToStringRoundTrip(i: int)
    ensures ParseInt(IntToString(i)) == i
  {
    if i < 0 {
      var s := NatToString(-i);
      ParseNatOfNatToString(-i);
      assert ("-" + s)[1..] == s;
    } else {
      ParseNatOfNatToString(i);
      IntToStringSign(i);
    }
  }

  /** Different integers are rendered as different strings. */
  lemma IntToStringInjective(i: int, j: int)
    ensures IntToString(i) == IntToString(j) ==> i == j
  {
    IntToStringRoundTrip(i);
    IntToStringRoundTrip(j);
  }
}
