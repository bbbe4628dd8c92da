/**
 * The input validator of the rally timing calculator (`validateInputs` in
 * script.js).
 *
 * Numbers are modelled as exact reals, an abstraction of the IEEE-754
 * doubles the page computes with: nothing in the validator depends on
 * rounding. A parsed value that JavaScript's `isNaN` would reject -- `NaN`
 * from a failed parse or `undefined` from an array slot that was never
 * written -- is `None`. The rally count comes from `parseInt`, so it is an
 * integer or `None`.
 */
module Validation {
  import opened Wrappers

  /** The three messages `validateInputs` can return. The index is the loop
      index at which the scan stopped: the travel-time message shows it as
      "Rally i+1", the gap message as "after Rally i". */
  datatype ValidationError =
    | InvalidCount
    | InvalidTravelTime(index: nat)
    | InvalidGap(index: nat)

  /** The two kinds of per-rally field the validator scans. */
  datatype Field = Travel | Gap

  /** JavaScript array read `s[i]`: a slot past the end reads as `undefined`,
      which `isNaN` rejects like `NaN`. */
  function At(s: seq<Option<real>>, i: nat): Option<real>
  {
    if i < |s| then s[i] else None
  }

  /** A field passes when it is a number and, for a travel time, positive,
      for a gap, not negative. */
  predicate Passes(field: Field, v: Option<real>)
  {
    v.Some? &&
    match field
    case Travel => v.value > 0.0
    case Gap => v.value >= 0.0
  }

  /** The count the validator accepts: a number from 2 to 10. */
  predicate CountOk(num: Option<int>)
  {
    num.Some? && 2 <= num.value <= 10
  }

  /** Every field of kind `field` at indices `lo..hi-1` passes. */
  predicate AllPass(field: Field, s: seq<Option<real>>, lo: nat, hi: int)
  {
    forall j :: lo <= j < hi ==> Passes(field, At(s, j))
  }

  /** The lowest index in `lo..hi-1` whose field fails, if any: the ordered,
      short-circuiting scan of one validator loop. */
  function FirstFailing(field: Field, s: seq<Option<real>>, lo: nat, hi: int): (r: Option<nat>)
    decreases hi - lo
    ensures r.None? <==> AllPass(field, s, lo, hi)
    ensures r.Some? ==> lo <= r.value < hi && !Passes(field, At(s, r.value))
    ensures r.Some? ==> AllPass(field, s, lo, r.value)
  {
    if hi <= lo then None
    else if !Passes(field, At(s, lo)) then Some(lo)
    else FirstFailing(field, s, lo + 1, hi)
  }

  /** What `validateInputs(num, travelTimes, gaps)` returns, `None` standing
      for `null`: the count first, then travel times `0..num-1`, then gaps
      `1..num-1`, reporting the first failure. */
  function Validate(num: Option<int>, travelTimes: seq<Option<real>>, gaps: seq<Option<real>>)
    : (r: Option<ValidationError>)
    ensures r == None <==>
      CountOk(num) && AllPass(Travel, travelTimes, 0, num.value) && AllPass(Gap, gaps, 1, num.value)
  {
    if !CountOk(num) then Some(InvalidCount)
    else
      match FirstFailing(Travel, travelTimes, 0, num.value)
      case Some(i) => Some(InvalidTravelTime(i))
      case None =>
        match FirstFailing(Gap, gaps, 1, num.value)
        case Some(i) => Some(InvalidGap(i))
        case None => None
  }

  /** `validateInputs` as the page runs it: two counted loops with early
      returns. */
  method ValidateInputs(num: Option<int>, travelTimes: seq<Option<real>>, gaps: seq<Option<real>>)
    returns (error: Option<ValidationError>)
    ensures error == Validate(num, travelTimes, gaps)
  {
    if num.None? || num.value < 2 || num.value > 10 {
      return Some(InvalidCount);
    }
    var n := num.value;
    for i := 0 to n
      invariant FirstFailing(Travel, travelTimes, 0, n) == FirstFailing(Travel, travelTimes, i, n)
    {
      if !Passes(Travel, At(travelTimes, i)) {
        return Some(InvalidTravelTime(i));
      }
    }
    for i := 1 to n
      invariant FirstFailing(Gap, gaps, 1, n) == FirstFailing(Gap, gaps, i, n)
    {
      if !Passes(Gap, At(gaps, i)) {
        return Some(InvalidGap(i));
      }
    }
    return None;
  }

  /** The count is checked before anything else: an unusable count is
      reported whatever the arrays hold, and only then. */
  lemma CountErrorFirst(num: Option<int>, travelTimes: seq<Option<real>>, gaps: seq<Option<real>>)
    ensures Validate(num, travelTimes, gaps) == Some(InvalidCount) <==> !CountOk(num)
  {
  }

  /** A travel-time error names the lowest index below the count whose
      entry is missing, not a number or not positive. */
  lemma ReportsFirstBadTravelTime(num: Option<int>, travelTimes: seq<Option<real>>, gaps: seq<Option<real>>, i: nat)
    ensures Validate(num, travelTimes, gaps) == Some(InvalidTravelTime(i)) <==>
      CountOk(num) && i < num.value && !Passes(Travel, At(travelTimes, i)) &&
      AllPass(Travel, travelTimes, 0, i)
  {
  }

  /** A gap error is reported only once every travel time below the count
      passed, and names the lowest index in `1..num-1` whose gap is missing,
      not a number or negative. */
  lemma ReportsFirstBadGap(num: Option<int>, travelTimes: seq<Option<real>>, gaps: seq<Option<real>>, i: nat)
    ensures Validate(num, travelTimes, gaps) == Some(InvalidGap(i)) <==>
      CountOk(num) && AllPass(Travel, travelTimes, 0, num.value) &&
      1 <= i < num.value && !Passes(Gap, At(gaps, i)) && AllPass(Gap, gaps, 1, i)
  {
  }

  /** The validator reads travel times only below the count and gaps only
      at `1..num-1`: `gaps[0]` and every entry at or past the count can hold
      anything without changing the verdict. */
  lemma ReadsOnlyFormFields(num: Option<int>, travelTimes: seq<Option<real>>, gaps: seq<Option<real>>,
                            travelTimes': seq<Option<real>>, gaps': seq<Option<real>>)
    requires CountOk(num) ==> forall i :: 0 <= i < num.value ==> At(travelTimes, i) == At(travelTimes', i)
    requires CountOk(num) ==> forall i :: 1 <= i < num.value ==> At(gaps, i) == At(gaps', i)
    ensures Validate(num, travelTimes, gaps) == Validate(num, travelTimes', gaps')
  {
  }
}
