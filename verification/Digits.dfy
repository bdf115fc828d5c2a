/** Decimal printing, as Go's %d prints an integer. */
module Digits {

  function Digit(d: int): char
    requires 0 <= d < 10
  {
    '0' + d as char
  }

  function Natural(n: nat): (s: string)
    ensures |s| > 0
    ensures forall i :: 0 <= i < |s| ==> '0' <= s[i] <= '9'
  {
    if n < 10 then [Digit(n)] else Natural(n / 10) + [Digit(n % 10)]
  }

  function Decimal(n: int): string {
    if n < 0 then "-" + Natural(-n) else Natural(n)
  }
}
