/**
 What several modules need: optional values, lists without repeats, and numbers in decimal.
 */
module Helpers {

  datatype Option<+T> = None | Some(value: T)

  ghost predicate NoRepeats<T>(list: seq<T>) {
    forall i, j :: 0 <= i < j < |list| ==> list[i] != list[j]
  }

  function Decimal(n: nat): (s: string)
    ensures 0 < |s| && forall c | c in s :: '0' <= c <= '9'
  {
    var digit := ('0' as int + n % 10) as char;
    if n < 10 then [digit] else Decimal(n / 10) + [digit]
  }
}
