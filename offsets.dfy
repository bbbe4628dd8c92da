/**
 * The launch-offset recurrence of the rally timing calculator (the loop at
 * the end of `calculateTiming` in script.js).
 *
 * Numbers are exact reals, an abstraction of the IEEE-754 doubles the page
 * uses; the running sum is free of rounding error here. `travel[i]` is the
 * travel time of rally i+1 and `gaps[i]` (for i >= 1) the extra separation
 * wanted between the arrivals of rallies i and i+1; `gaps[0]` is a slot the
 * recurrence never reads.
 */
module Offsets {

  /** The two sequences the recurrence reads: at least one rally, and a gap
      slot for every rally. */
  predicate Shaped(travel: seq<real>, gaps: seq<real>)
  {
    1 <= |travel| && |gaps| == |travel|
  }

  /** Sum of a sequence of reals, from the front. */
  function Sum(s: seq<real>): real
  {
    if s == [] then 0.0 else s[0] + Sum(s[1..])
  }

  /** Adding one more element to the end adds it to the sum. */
  lemma {:induction false} SumAppend(s: seq<real>, x: real)
    ensures Sum(s + [x]) == Sum(s) + x
  {
    if s == [] {
      assert [] + [x] == [x];
    } else {
      assert (s + [x])[1..] == s[1..] + [x];
      SumAppend(s[1..], x);
    }
  }

  /** A sum of non-negative reals is non-negative. */
  lemma {:induction false} SumNonNegative(s: seq<real>)
    requires forall k :: 0 <= k < |s| ==> s[k] >= 0.0
    ensures Sum(s) >= 0.0
  {
    if s != [] {
      SumNonNegative(s[1..]);
    }
  }

  /** The recurrence as written: rally 1 launches at offset 0, and rally i+1
      launches `travel[i-1] - travel[i] + gaps[i]` after rally i. */
  function Offset(travel: seq<real>, gaps: seq<real>, i: nat): real
    requires Shaped(travel, gaps) && i < |travel|
  {
    if i == 0 then 0.0
    else Offset(travel, gaps, i - 1) + (travel[i - 1] - travel[i] + gaps[i])
  }

  /** When rally i+1 reaches the target, measured from rally 1's launch. */
  function Arrival(travel: seq<real>, gaps: seq<real>, i: nat): real
    requires Shaped(travel, gaps) && i < |travel|
  {
    Offset(travel, gaps, i) + travel[i]
  }

  /** Closed form of the telescoping recurrence: the offset of rally i+1 is
      the difference in travel time to rally 1 plus all the gaps up to it. */
  lemma {:induction false} OffsetClosedForm(travel: seq<real>, gaps: seq<real>, i: nat)
    requires Shaped(travel, gaps) && i < |travel|
    ensures Offset(travel, gaps, i) == travel[0] - travel[i] + Sum(gaps[1..i + 1])
  {
    if i > 0 {
      OffsetClosedForm(travel, gaps, i - 1);
      assert gaps[1..i + 1] == gaps[1..i] + [gaps[i]];
      SumAppend(gaps[1..i], gaps[i]);
    }
  }

  /** Each rally arrives exactly its gap after the one before it. */
  lemma ArrivalStep(travel: seq<real>, gaps: seq<real>, i: nat)
    requires Shaped(travel, gaps) && 1 <= i < |travel|
    ensures Arrival(travel, gaps, i) == Arrival(travel, gaps, i - 1) + gaps[i]
  {
  }

  /** Between the arrivals of rallies j+1 and k+1 lie exactly the gaps in
      between. */
  lemma {:induction false} ArrivalSpacing(travel: seq<real>, gaps: seq<real>, j: nat, k: nat)
    requires Shaped(travel, gaps) && j <= k < |travel|
    ensures Arrival(travel, gaps, k) == Arrival(travel, gaps, j) + Sum(gaps[j + 1..k + 1])
    decreases k - j
  {
    if j == k {
      assert gaps[j + 1..k + 1] == [];
    } else {
      ArrivalSpacing(travel, gaps, j, k - 1);
      assert gaps[j + 1..k + 1] == gaps[j + 1..k] + [gaps[k]];
      SumAppend(gaps[j + 1..k], gaps[k]);
    }
  }

  /** With no negative gap the rallies arrive in order: rally k+1 never
      lands before rally j+1 when j <= k. */
  lemma ArrivalsInOrder(travel: seq<real>, gaps: seq<real>, j: nat, k: nat)
    requires Shaped(travel, gaps) && j <= k < |travel|
    requires forall g :: 1 <= g < |gaps| ==> gaps[g] >= 0.0
    ensures Arrival(travel, gaps, j) <= Arrival(travel, gaps, k)
  {
    ArrivalSpacing(travel, gaps, j, k);
    SumNonNegative(gaps[j + 1..k + 1]);
  }

  /** With every gap zero, all rallies land at the same moment as rally 1. */
  lemma ZeroGapsConverge(travel: seq<real>, gaps: seq<real>, i: nat)
    requires Shaped(travel, gaps) && i < |travel|
    requires forall g :: 1 <= g < |gaps| ==> gaps[g] == 0.0
    ensures Arrival(travel, gaps, i) == travel[0]
  {
    ArrivalSpacing(travel, gaps, 0, i);
    ZeroSum(gaps[1..i + 1]);
  }

  /** A sum of zeros is zero. */
  lemma {:induction false} ZeroSum(s: seq<real>)
    requires forall k :: 0 <= k < |s| ==> s[k] == 0.0
    ensures Sum(s) == 0.0
  {
    if s != [] {
      ZeroSum(s[1..]);
    }
  }

  /** The recurrence never reads `gaps[0]`: whatever that slot holds, the
      offsets are the same. */
  lemma {:induction false} OffsetIgnoresFirstGap(travel: seq<real>, gaps: seq<real>, g0: real, i: nat)
    requires Shaped(travel, gaps) && i < |travel|
    ensures Offset(travel, gaps[0 := g0], i) == Offset(travel, gaps, i)
  {
    if i > 0 {
      OffsetIgnoresFirstGap(travel, gaps, g0, i - 1);
    }
  }

  /** The offset loop: `offsets[0] = 0`, then each offset from the one
      before, written into an array in place. */
  method ComputeOffsets(travel: seq<real>, gaps: seq<real>) returns (offsets: seq<real>)
    requires Shaped(travel, gaps)
    ensures |offsets| == |travel| && offsets[0] == 0.0
    ensures forall i :: 0 <= i < |travel| ==> offsets[i] == Offset(travel, gaps, i)
    ensures forall i :: 0 <= i < |travel| ==>
      offsets[i] == travel[0] - travel[i] + Sum(gaps[1..i + 1])
  {
    var n := |travel|;
    var a := new real[n];
    a[0] := 0.0;
    for i := 1 to n
      invariant forall k :: 0 <= k < i ==> a[k] == Offset(travel, gaps, k)
    {
      var offset := travel[i - 1] - travel[i] + gaps[i];
      a[i] := a[i - 1] + offset;
    }
    offsets := a[..];
    forall i | 0 <= i < n
      ensures offsets[i] == travel[0] - travel[i] + Sum(gaps[1..i + 1])
    {
      OffsetClosedForm(travel, gaps, i);
    }
  }
}
