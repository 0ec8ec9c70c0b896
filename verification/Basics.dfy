/** Small shared vocabulary: optional values, bytes, and sums of weights.

    The sums carry the termination measures of the three concurrent systems: every system
    gives each thread a weight and adds the weights up. */
module Basics {
  datatype Option<+T> = None | Some(value: T)

  newtype byte = x: int | 0 <= x < 256

  function Sum(ws: seq<nat>): nat {
    if ws == [] then 0 else ws[0] + Sum(ws[1..])
  }

  /** Counting a condition. */
  function One(b: bool): nat { if b then 1 else 0 }

  lemma {:induction false} SumZero(ws: seq<nat>)
    requires forall i :: 0 <= i < |ws| ==> ws[i] == 0
    ensures Sum(ws) == 0
  {
    if ws == [] {
    } else {
      SumZero(ws[1..]);
    }
  }

  lemma {:induction false} SumUpdate(ws: seq<nat>, i: nat, w: nat)
    requires i < |ws|
    ensures Sum(ws[i := w]) + ws[i] == Sum(ws) + w
  {
    if i == 0 {
      assert ws[0 := w][1..] == ws[1..];
    } else {
      assert ws[i := w][1..] == ws[1..][i - 1 := w];
      SumUpdate(ws[1..], i - 1, w);
    }
  }

  lemma {:induction false} SumAppend(ws: seq<nat>, w: nat)
    ensures Sum(ws + [w]) == Sum(ws) + w
  {
    if ws == [] {
      assert [] + [w] == [w];
    } else {
      assert (ws + [w])[1..] == ws[1..] + [w];
      SumAppend(ws[1..], w);
    }
  }

  /** If no entry grew by more than one, the sum grew by at most the number of entries. */
  lemma {:induction false} SumBump(ws: seq<nat>, vs: seq<nat>)
    requires |ws| == |vs|
    requires forall i :: 0 <= i < |ws| ==> vs[i] <= ws[i] + 1
    ensures Sum(vs) <= Sum(ws) + |ws|
  {
    if ws == [] {
    } else {
      SumBump(ws[1..], vs[1..]);
    }
  }

  lemma {:induction false} SumAtLeast(ws: seq<nat>, i: nat)
    requires i < |ws|
    ensures ws[i] <= Sum(ws)
  {
    if i == 0 {
    } else {
      SumAtLeast(ws[1..], i - 1);
    }
  }
}
