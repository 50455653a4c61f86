/** Well-formed UTF-8, one character a byte. */
module Utf8 {

  predicate IsAscii(c: char) { c as int < 0x80 }

  predicate IsTail(c: char) { 0x80 <= c as int <= 0xBF }

  /** The width of the well-formed rune that starts `s`, or 0. */
  function RuneWidth(s: string): (w: nat)
    ensures w <= |s| && w <= 4
  {
    if s == "" then 0
    else
      var a := s[0] as int;
      if a < 0x80 then 1
      else if 0xC2 <= a <= 0xDF && |s| >= 2 && IsTail(s[1]) then 2
      else if 0xE0 <= a <= 0xEF && |s| >= 3 && IsTail(s[1]) && IsTail(s[2])
              && (a == 0xE0 ==> s[1] as int >= 0xA0) && (a == 0xED ==> s[1] as int <= 0x9F) then 3
      else if 0xF0 <= a <= 0xF4 && |s| >= 4 && IsTail(s[1]) && IsTail(s[2]) && IsTail(s[3])
              && (a == 0xF0 ==> s[1] as int >= 0x90) && (a == 0xF4 ==> s[1] as int <= 0x8F) then 4
      else 0
  }

  predicate Valid(s: string) {
    s == "" || (RuneWidth(s) > 0 && Valid(s[RuneWidth(s)..]))
  }

  lemma WidthOfPrefix(s: string, t: string)
    requires RuneWidth(s) > 0
    ensures RuneWidth(s + t) == RuneWidth(s)
  {
  }

  lemma {:induction false} ValidConcat(s: string, t: string)
    requires Valid(s) && Valid(t)
    ensures Valid(s + t)
    decreases |s|
  {
    if s == "" {
      assert s + t == t;
    } else {
      var w := RuneWidth(s);
      WidthOfPrefix(s, t);
      assert (s + t)[w..] == s[w..] + t;
      ValidConcat(s[w..], t);
    }
  }

  lemma {:induction false} AsciiIsValid(s: string)
    requires forall c | c in s :: IsAscii(c)
    ensures Valid(s)
  {
    if s != "" {
      assert IsAscii(s[0]) && RuneWidth(s) == 1;
      AsciiIsValid(s[1..]);
    }
  }

  lemma AsciiThen(s: string, t: string)
    requires (forall c | c in s :: IsAscii(c)) && Valid(t)
    ensures Valid(s + t)
  {
    AsciiIsValid(s);
    ValidConcat(s, t);
  }
}
