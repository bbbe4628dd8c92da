/**
 * `calculateTiming` of script.js: the early guard on the rally count, the
 * validator, and the offset loop, in that order.
 *
 * Numbers are exact reals standing for the page's IEEE-754 doubles. The
 * form fields reach this model already parsed: `num` is what `parseInt`
 * made of the count field, `travelTimes[i]` and `gaps[i]` what
 * `parseFloat` made of the fields for rally i+1; `gaps[0]` is the hole the
 * page leaves in its gap array.
 */
module Timing {
  import opened Wrappers
  import opened Validation
  import opened Offsets

  /** What the button press leads to: the "specify the number of rallies
      first" message, a validation message, or the launch offsets. */
  datatype Outcome =
    | CountNotSpecified
    | Rejected(error: ValidationError)
    | Launch(offsets: seq<real>)

  /** The early guard of `calculateTiming`: no count, or fewer than two. */
  predicate CountMissing(num: Option<int>)
  {
    num.None? || num.value < 2
  }

  /** The numbers at `lo..n-1` of an accepted field array; slots below `lo`,
      which the recurrence never reads, are filled with 0. */
  function Values(s: seq<Option<real>>, lo: nat, n: nat): (r: seq<real>)
    requires forall i :: lo <= i < n ==> At(s, i).Some?
    ensures |r| == n
    ensures forall i :: lo <= i < n ==> Some(r[i]) == At(s, i)
  {
    seq(n, i requires 0 <= i < n => if i < lo then 0.0 else At(s, i).value)
  }

  /** A button press: offsets are produced exactly when the validator
      accepts, and then they are the recurrence's offsets, starting at 0,
      in closed form, with arrivals in rally order. */
  method CalculateTiming(num: Option<int>, travelTimes: seq<Option<real>>, gaps: seq<Option<real>>)
    returns (outcome: Outcome)
    ensures outcome.CountNotSpecified? <==> CountMissing(num)
    ensures outcome.Rejected? <==> !CountMissing(num) && Validate(num, travelTimes, gaps).Some?
    ensures outcome.Rejected? ==> Validate(num, travelTimes, gaps) == Some(outcome.error)
    ensures outcome.Launch? <==> Validate(num, travelTimes, gaps) == None
    ensures outcome.Launch? ==>
      var n := num.value;
      var travel := Values(travelTimes, 0, n);
      var gap := Values(gaps, 1, n);
      |outcome.offsets| == n && outcome.offsets[0] == 0.0 &&
      (forall i :: 0 <= i < n ==> outcome.offsets[i] == Offset(travel, gap, i)) &&
      (forall i :: 0 <= i < n ==> outcome.offsets[i] == travel[0] - travel[i] + Sum(gap[1..i + 1])) &&
      (forall j, k :: 0 <= j <= k < n ==> outcome.offsets[j] + travel[j] <= outcome.offsets[k] + travel[k])
  {
    if num.None? || num.value < 2 {
      return CountNotSpecified;
    }
    var error := ValidateInputs(num, travelTimes, gaps);
    if error.Some? {
      return Rejected(error.value);
    }
    var n := num.value;
    var travel := Values(travelTimes, 0, n);
    var gap := Values(gaps, 1, n);
    var offsets := ComputeOffsets(travel, gap);
    forall j, k | 0 <= j <= k < n
      ensures offsets[j] + travel[j] <= offsets[k] + travel[k]
    {
      ArrivalsInOrder(travel, gap, j, k);
    }
    return Launch(offsets);
  }

  /** Three rallies with travel times 90, 80, 100 and gaps 5, 10 are
      accepted and launch at offsets 0, 15 and 5. */
  lemma ThreeRallyScenario()
    ensures
      var travelTimes := [Some(90.0), Some(80.0), Some(100.0)];
      var gaps := [None, Some(5.0), Some(10.0)];
      Validate(Some(3), travelTimes, gaps) == None &&
      Offset(Values(travelTimes, 0, 3), Values(gaps, 1, 3), 0) == 0.0 &&
      Offset(Values(travelTimes, 0, 3), Values(gaps, 1, 3), 1) == 15.0 &&
      Offset(Values(travelTimes, 0, 3), Values(gaps, 1, 3), 2) == 5.0
  {
  }

  /** Two rallies with equal travel times and no gap launch together. */
  lemma EqualRallyScenario()
    ensures
      var travelTimes := [Some(50.0), Some(50.0)];
      var gaps := [None, Some(0.0)];
      Validate(Some(2), travelTimes, gaps) == None &&
      Offset(Values(travelTimes, 0, 2), Values(gaps, 1, 2), 0) == 0.0 &&
      Offset(Values(travelTimes, 0, 2), Values(gaps, 1, 2), 1) == 0.0
  {
  }

  /** A negative first travel time is reported as rally 1's, and eleven
      rallies are too many. */
  lemma RejectionScenarios()
    ensures Validate(Some(2), [Some(-5.0), Some(10.0)], [None, Some(0.0)]) == Some(InvalidTravelTime(0))
    ensures Validate(Some(11), [], []) == Some(InvalidCount)
  {
  }
}
