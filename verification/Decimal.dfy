/** Decimal rendering of task numbers, as in an f-string, and its inverse. */
module Decimal {

  function Print(n: nat): string {
    if n < 10 then [Digit(n)] else Print(n / 10) + [Digit(n % 10)]
  }

  function Digit(n: nat): char
    requires n < 10
  {
    ('0' as int + n) as char
  }

  predicate IsDigits(s: string) {
    s != "" && forall n :: 0 <= n < |s| ==> '0' <= s[n] <= '9'
  }

  function Parse(s: string): nat
    requires s == "" || IsDigits(s)
  {
    if s == "" then 0
    else Parse(s[..|s| - 1]) * 10 + (s[|s| - 1] as int - '0' as int)
  }

  /** str.lstrip("t"): every leading 't' goes. */
  function StripT(s: string): string {
    if s != "" && s[0] == 't' then StripT(s[1..]) else s
  }

  lemma {:induction false} ParsePrint(n: nat)
    ensures IsDigits(Print(n)) && Parse(Print(n)) == n
  {
    if n < 10 {
      assert Print(n)[..0] == "";
    } else {
      ParsePrint(n / 10);
      assert Print(n)[..|Print(n)| - 1] == Print(n / 10);
    }
  }

  lemma {:induction false} StripTKeeps(s: string, j: nat)
    requires j < |s| && s[j] != 't'
    ensures s[j] in StripT(s)
  {
    if s[0] == 't' {
      StripTKeeps(s[1..], j - 1);
    }
  }
}
