/** Sums of natural numbers in a sequence. */
module Sums {

  function Total(ws: seq<nat>): nat {
    if ws == [] then 0 else ws[0] + Total(ws[1..])
  }

  lemma {:induction false} TotalAppend(ws: seq<nat>, w: nat)
    ensures Total(ws + [w]) == Total(ws) + w
  {
    if ws == [] {
      assert ws + [w] == [w];
    } else {
      assert (ws + [w])[1..] == ws[1..] + [w];
      TotalAppend(ws[1..], w);
    }
  }

  lemma {:induction false} TotalUpdate(ws: seq<nat>, i: nat, w: nat)
    requires i < |ws|
    ensures Total(ws[i := w]) + ws[i] == Total(ws) + w
  {
    if i > 0 {
      assert ws[i := w][1..] == ws[1..][i - 1 := w];
      TotalUpdate(ws[1..], i - 1, w);
    } else {
      assert ws[0 := w][1..] == ws[1..];
    }
  }

  /** A pointwise bound, scaled, bounds the totals. */
  lemma {:induction false} TotalBound(ws: seq<nat>, c: nat, vs: seq<nat>)
    requires |ws| == |vs| && forall i :: 0 <= i < |ws| ==> ws[i] <= c * vs[i]
    ensures Total(ws) <= c * Total(vs)
  {
    if ws == [] {
    } else {
      TotalBound(ws[1..], c, vs[1..]);
      assert c * vs[0] + c * Total(vs[1..]) == c * Total(vs);
    }
  }

  lemma {:induction false} TotalAtLeast(ws: seq<nat>, i: nat)
    requires i < |ws|
    ensures ws[i] <= Total(ws)
  {
    if i == 0 {
    } else {
      TotalAtLeast(ws[1..], i - 1);
    }
  }

  lemma ScaledAtMost(c: nat, a: nat, b: nat)
    requires a <= b
    ensures c * a <= c * b
  {
  }
}
