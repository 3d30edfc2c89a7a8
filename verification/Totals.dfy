/** Sums of ranks over goroutines. */
module Totals {

  function Total(w: seq<nat>): nat {
    if w == [] then 0 else w[0] + Total(w[1..])
  }

  lemma {:induction false} TotalUpdate(w: seq<nat>, i: nat, v: nat)
    requires i < |w|
    ensures Total(w[i := v]) + w[i] == Total(w) + v
  {
    if i == 0 {
      assert w[0 := v][1..] == w[1..];
    } else {
      assert w[i := v][1..] == w[1..][i - 1 := v];
      TotalUpdate(w[1..], i - 1, v);
    }
  }
}
