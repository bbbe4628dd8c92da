# Rally timing calculator, modelled in Dafny

The page computes launch times for 2 to 10 sequential "rallies". Each rally
has a travel time, and each rally after the first has a gap. The gap is the
extra separation wanted between its arrival and the previous rally's
arrival. The page answers with launch offsets relative to rally 1.

The model covers the page's numeric core in `script.js`:

- `validateInputs`, the ordered, short-circuiting validator. It checks the
  count, then travel times `0..num-1`, then gaps `1..num-1`. Modelled as the
  pure specification `Validation.Validate` and the imperative
  `Validation.ValidateInputs` (two counted loops with early returns), which
  is proved equal to it.
- The offset recurrence at the end of `calculateTiming`:
  `offsets[0] = 0`, `offsets[i] = offsets[i-1] + travel[i-1] - travel[i] + gap[i]`.
  Modelled as the recursive specification `Offsets.Offset` and the
  array-filling method `Offsets.ComputeOffsets`. Its closed form and its
  arrival invariant are proved.
- `calculateTiming` as a whole (`Timing.CalculateTiming`). It runs the early
  count guard, then the validator, then the offset loop. Offsets exist
  exactly when the validator accepts.

Modelling choices:

- Numbers are exact reals, an abstraction of the IEEE-754 doubles the page
  uses. Nothing in the core depends on rounding.
- A parsed value that `isNaN` rejects is `None`. This covers `NaN` from a
  failed `parseFloat`/`parseInt` and `undefined` from an array slot that was
  never written. Reading past the end of an array gives `None` (`Validation.At`).
- The validator's three message strings are the datatype `ValidationError`.
  `InvalidTravelTime(i)` and `InvalidGap(i)` carry the loop index. The
  travel-time message shows it as "Rally i+1"; the gap message shows it as
  "after Rally i".
- The gap array the page builds has a hole at index 0. Before the offset
  loop, `Timing.Values` fills that slot with 0. `Offsets.OffsetIgnoresFirstGap`
  proves the recurrence never reads it.
- `validateInputs` only tests `isNaN`, so an infinite travel time (a field
  holding `1e309` parses to `Infinity`) passes it. Exact reals have no
  infinity, so such inputs lie outside the model.

## Model

| member | source | states |
|---|---|---|
| `Validation.Validate` | script.js:76-94 | The validator returns `null` (here `None`) if and only if the count is in 2..10, every travel time below the count is a number > 0, and every gap at 1..count-1 is a number >= 0 |
| `Validation.ValidateInputs` | script.js:76-94 | The two-loop, early-return validator returns exactly what the ordered-scan specification `Validate` returns |
| `Validation.FirstFailing` | script.js:81-91 | One validator loop: the result is none iff every field in the range passes; otherwise it is the lowest failing index, and every earlier field passes |
| `Validation.CountErrorFirst` | script.js:77-79 | The count error is reported whatever the arrays hold when the count is missing, below 2 or above 10, and never otherwise |
| `Validation.ReportsFirstBadTravelTime` | script.js:81-85 | A travel-time error at index i is reported iff the count is valid, i < count, entry i is missing or <= 0, and every travel time before i passes |
| `Validation.ReportsFirstBadGap` | script.js:87-91 | A gap error at index i is reported iff the count is valid, all travel times below the count pass, 1 <= i < count, gap i is missing or negative, and every gap in 1..i-1 passes |
| `Validation.ReadsOnlyFormFields` | script.js:76-94 | The verdict depends only on travel times below the count and gaps at 1..count-1; `gaps[0]` and entries at or past the count are never inspected |
| `Offsets.ComputeOffsets` | script.js:147-153 | The offset loop yields one offset per rally, the first is 0, each equals the recurrence `Offset`, and each equals the closed form `travel[0] - travel[i] + sum(gaps[1..i])` |
| `Offsets.OffsetClosedForm` | script.js:149-153 | The telescoping recurrence equals its closed form: `offset[i] = travel[0] - travel[i] + gaps[1] + ... + gaps[i]` |
| `Offsets.ArrivalStep` | script.js:150-152 | Arrival time `offset[i] + travel[i]` is the previous rally's arrival plus gap i, as the comment at line 150 intends |
| `Offsets.ArrivalSpacing` | script.js:149-153 | Between the arrivals of rallies j and k lie exactly the gaps j+1..k |
| `Offsets.ArrivalsInOrder` | script.js:149-153 | With no negative gap (what the validator guarantees), arrivals never decrease with rally index |
| `Offsets.ZeroGapsConverge` | script.js:149-153 | With all gaps zero, every rally arrives at the same moment as rally 1 |
| `Offsets.OffsetIgnoresFirstGap` | script.js:149-153 | The recurrence never reads `gaps[0]`: any value there gives the same offsets |
| `Timing.CalculateTiming` | script.js:109-153 | A missing count or a count below 2 gives the "specify the number of rallies" message. Otherwise a validator error is reported exactly when `Validate` reports one. Offsets are produced exactly when `Validate` accepts. Then there are `num` of them, the first is 0, they follow the recurrence and its closed form, and arrivals are in rally order |
| `Timing.ThreeRallyScenario` | script.js:140-153 | Travel times 90, 80, 100 with gaps 5, 10 (and the hole at gap 0) are accepted, and their values give offsets 0, 15, 5 |
| `Timing.EqualRallyScenario` | script.js:140-153 | Travel times 50, 50 with gap 0 are accepted, and their values give offsets 0, 0 |
| `Timing.RejectionScenarios` | script.js:76-94 | Travel times -5, 10 give the travel-time error for rally 1, and a count of 11 gives the count error |

## Left out

- Form generation in `generateRallyInputs` (script.js:15-67), including labels and input attributes. This is DOM construction.
- Reading the form in `calculateTiming` (script.js:110, 117-137). Both `getElementById` lookups and `parseInt`/`parseFloat` are left out. Their results are the inputs `num`, `travelTimes` and `gaps`, as `Option` values.
- The "Please fill in all required fields" branches for a missing input element (script.js:123-126, 131-134). Element lookup is not modelled. On the page's own form, a count above 10 leaves no input fields (script.js:24-26), so the lookup fails first and the count-above-10 branch of `validateInputs` is not reachable from `calculateTiming`; the model, which takes the parsed values as given, reports it as `InvalidCount`.
- The text of the error messages, `displayError`, the result HTML, the `toFixed(1)` formatting and `scrollIntoView` (script.js:100-104, 156-177). These are presentation. The `+` sign is shown iff the offset is >= 0.
- Event wiring and the Enter-key handler (script.js:9-10, 181-194). These are browser plumbing.
- IEEE-754 behaviour: rounding in the running sum, infinities, and `NaN` propagation beyond the `isNaN` checks.
