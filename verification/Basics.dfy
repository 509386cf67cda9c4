/** Small definitions shared by the models. */
module Basics {
  datatype Option<+T> = None | Some(value: T)

  ghost predicate Distinct(items: seq<string>) {
    forall m, n :: 0 <= m < n < |items| ==> items[m] != items[n]
  }

  function Max0(n: int): nat {
    if n < 0 then 0 else n
  }

  lemma ScaledMonotone(p: nat, m: int, n: int)
    requires m <= n
    ensures p * m <= p * n
  {
  }
}
