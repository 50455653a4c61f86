/** Decimal numerals, printed and read back. */
module Decimal {
  import opened Common

  predicate IsDigit(c: char) { '0' <= c <= '9' }

  function DigitOf(d: nat): (c: char)
    requires d < 10
    ensures IsDigit(c) && c as int == '0' as int + d
  {
    ('0' as int + d) as char
  }

  /** The numeral of `n` without leading zeros. */
  function Dec(n: nat): string {
    if n < 10 then [DigitOf(n)] else Dec(n / 10) + [DigitOf(n % 10)]
  }

  lemma {:induction false} DecIsNumeral(n: nat)
    ensures Dec(n) != "" && (forall c | c in Dec(n) :: IsDigit(c)) && (Dec(n)[0] == '0' ==> n == 0)
  {
    if n >= 10 {
      DecIsNumeral(n / 10);
    }
  }

  /** The number of digits that `s` starts with. */
  function DigitRun(s: string): (n: nat)
    ensures n <= |s|
  {
    if s != "" && IsDigit(s[0]) then 1 + DigitRun(s[1..]) else 0
  }

  function Value(s: string): nat
    requires forall c | c in s :: IsDigit(c)
    decreases |s|
  {
    if s == "" then 0
    else
      assert IsDigit(s[|s| - 1]);
      Value(s[..|s| - 1]) * 10 + (s[|s| - 1] as int - '0' as int)
  }

  lemma {:induction false} DigitRunIsDigits(s: string)
    ensures forall c | c in s[..DigitRun(s)] :: IsDigit(c)
  {
    if s != "" && IsDigit(s[0]) {
      DigitRunIsDigits(s[1..]);
      assert s[..DigitRun(s)] == [s[0]] + s[1..][..DigitRun(s[1..])];
    }
  }

  /** The number that `s` starts with and what follows it; a numeral has no leading zero. */
  function ReadNat(s: string): (r: Option<(nat, string)>)
    ensures r.Some? ==> |r.value.1| < |s|
  {
    var n := DigitRun(s);
    if n == 0 || (s[0] == '0' && n > 1) then None
    else
      DigitRunIsDigits(s);
      Some((Value(s[..n]), s[n..]))
  }

  lemma {:induction false} DigitRunOf(digits: string, rest: string)
    requires forall c | c in digits :: IsDigit(c)
    requires rest == "" || !IsDigit(rest[0])
    ensures DigitRun(digits + rest) == |digits|
  {
    if digits == "" {
      assert digits + rest == rest;
    } else {
      assert (digits + rest)[1..] == digits[1..] + rest;
      DigitRunOf(digits[1..], rest);
    }
  }

  lemma {:induction false} ValueOfDec(n: nat)
    ensures (forall c | c in Dec(n) :: IsDigit(c)) && Value(Dec(n)) == n
  {
    DecIsNumeral(n);
    if n >= 10 {
      ValueOfDec(n / 10);
      assert Dec(n)[..|Dec(n)| - 1] == Dec(n / 10);
    } else {
      assert Dec(n)[..0] == "";
    }
  }

  /** Reading inverts printing, whatever non-digit follows. */
  lemma ReadPrinted(n: nat, rest: string)
    requires rest == "" || !IsDigit(rest[0])
    ensures ReadNat(Dec(n) + rest) == Some((n, rest))
  {
    var s := Dec(n) + rest;
    DecIsNumeral(n);
    DigitRunOf(Dec(n), rest);
    ValueOfDec(n);
    assert s[..|Dec(n)|] == Dec(n) && s[|Dec(n)|..] == rest;
    assert n == 0 ==> |Dec(n)| == 1;
  }
}
