# simath Riemann sums in Dafny

This project models `simath/methods.py`, a small numerical module with three
pure functions in a chain:

- `avg(*args)` is the arithmetic mean of at least two numbers.
- `intervalize(interval, step)` cuts `[lo, hi]` into `int((hi - lo) / step)`
  back-to-back sub-intervals of width `step`. It drops whatever sliver
  narrower than `step` is left at the top.
- `rmsum(func, step, interval, type, verbose)` partitions the interval with
  `intervalize` and takes one sample of `func` per sub-interval, chosen by
  the rule named in `type`:
  - `left` samples the start;
  - `right` samples the end;
  - `midpoint` samples `avg(start, end)`;
  - `trapezoidal` takes `avg(f(start), f(end))`.

  It multiplies the sum of the samples by `step`.

Python floats become exact `real`s. Python's `ValueError` becomes a
`Result` value whose `Failure` says which check refused the call.

Modules:

- `Results` (`results.dfy`) holds the shared `Option`, `Failure` and
  `Result` types.
- `Average` (`average.dfy`) has `Sum` (Python's `sum`), `Avg` and `Mean2`.
  `Mean2` is the two-argument `avg` that the summation rules call.
- `Partition` (`partition.dfy`) has:
  - `Interval`;
  - `Truncate`, which is Python's `int()` on a real;
  - `Intervalize`;
  - the predicate `IsTiling`, for a run of back-to-back pieces of equal
    width from a given start;
  - the lemmas that pin down the shape of the partition.
- `Riemann` (`riemann.dfy`) has:
  - the `Rule` datatype and `ParseRule`, which reads the `type` string;
  - the per-sub-interval `Sample` and its sum `RuleSum`;
  - `Estimate`, which is `result`: the sum of the samples times `step`;
  - `RiemannSum`, which is `rmsum` itself;
  - `PointSum`, a reference sum of `f` at evenly spaced points, which is
    independent of any partition.
- `Examples` (`examples.dfy`) holds the worked examples for the three
  operations, checked against the model.

The lemmas about the rules are stated over any tiling `parts` from `lo`
with width `step`. `NamedRuleValue` (through the helper lemma
`RiemannSumValue`) connects them to `rmsum`: a call with an accepted rule
name returns
`Estimate(f, rule, Intervalize(iv, step).value, step)`.
`Partition.IntervalizeTiles` says that this partition is a tiling from
`iv.lo`. `Partition.IntervalizeUnique` says that it is the only tiling with
that number of pieces.

## Model

| member | source | states |
|---|---|---|
| Average.Sum | simath/methods.py:10 | definition: Python's `sum(args)`, adding the elements from the left starting at zero |
| Average.Avg | simath/methods.py:8-10 | fails with `TooFewArguments` exactly when fewer than two numbers are given; otherwise the mean times the count is the sum |
| Average.SumWithin | simath/methods.py:10 | if every argument lies in `[a, b]`, the sum of `n` of them lies in `[n*a, n*b]` |
| Average.AvgWithin | simath/methods.py:8-10 | the mean lies within any range that holds all the arguments, so the mean of equal numbers is that number |
| Average.Mean2 | simath/methods.py:8-10 | the two-argument mean never fails and is `(a+b)/2`; it is equally far from both arguments and lies between them |
| Partition.Truncate | simath/methods.py:25 | `int(x)` truncates toward zero: the floor for non-negative `x`, the ceiling for negative `x` |
| Partition.Cell | simath/methods.py:26 | definition: the comprehension's element for index `i`, `[lo + i*step, lo + (i+1)*step]` |
| Partition.Grid | simath/methods.py:26 | definition: the comprehension itself, `Cell(lo, step, i)` for `i` in `range(n)` |
| Partition.Intervalize | simath/methods.py:23-26 | refuses with `StepTooLarge` exactly when the step exceeds `hi - lo` |
| Partition.StepCount | simath/methods.py:25 | for `0 < step <= width`, `int(width/step)` is the floor of the quotient, at least 1; that many steps fit in the width and one more does not |
| Partition.GridShape | simath/methods.py:26 | the list `[lo + i*step, lo + (i+1)*step]` for `i < n` is a tiling inside `[lo, lo + n*step]` and ends exactly at `lo + n*step` |
| Partition.GridFits | simath/methods.py:25-26 | with the whole number of steps in the interval, the list stays inside `[lo, hi]` and stops less than one step short of `hi`; a step equal to the width gives `[[lo, hi]]` |
| Partition.IntervalizeShape | simath/methods.py:23-26 | a successful split has `floor(width/step) >= 1` pieces and is a tiling from `lo`; every piece lies inside the interval with `start < end`; the dropped remainder is in `[0, step)`; `step == width` gives exactly `[[lo, hi]]` |
| Partition.TilingNth | simath/methods.py:26 | in any tiling from `lo`, piece `i` is forced to be `[lo + i*step, lo + (i+1)*step]` |
| Partition.TilingTail | simath/methods.py:26 | removing the first piece of a tiling leaves a tiling that starts one step later |
| Partition.TilingClosedForm | simath/methods.py:26 | every piece of a tiling is at its grid position |
| Partition.TilingUpward | simath/methods.py:26 | with a positive step every piece of a tiling has `start < end` |
| Partition.IntervalizeTiles | simath/methods.py:26 | a successful split is a tiling from `lo` |
| Partition.IntervalizeUnique | simath/methods.py:25-26 | any tiling from `lo` with `floor(width/step)` pieces is exactly the list `intervalize` returns |
| Riemann.RuleName | simath/methods.py:50-65 | definition: the four strings the dispatch compares against, `"right"`, `"left"`, `"trapezoidal"` and `"midpoint"` |
| Riemann.Sample | simath/methods.py:51-66 | definition: one sub-interval's term under each rule, `f(end)` (line 51), `f(start)` (line 56), `avg(f(start), f(end))` (line 61) and `f(avg(start, end))` (line 66) |
| Riemann.RuleSum | simath/methods.py:51-66 | definition: `sum(... for x in interval)`, the terms of all sub-intervals added up |
| Riemann.Estimate | simath/methods.py:51-66 | definition: `result = sum(...) * step` |
| Riemann.ParseRule | simath/methods.py:46-71 | `None` and `""` select midpoint; an accepted string is the name of the rule it selects; anything else fails with `UnknownRule` carrying the string |
| Riemann.ParseRuleName | simath/methods.py:50-66 | each of the four names selects its own rule |
| Riemann.RiemannSum | simath/methods.py:45-75 | succeeds exactly when the step fits and the rule name is accepted; a step too large fails with `StepTooLarge` whatever the name; otherwise the failure is `UnknownRule(type)` |
| Riemann.PointRuleOverIntervalize | simath/methods.py:25-66 | over the partition `intervalize` returns, the left, right and midpoint estimates are `step` times the sum of `f` at the start, end or centre of each of the `floor(width/step)` pieces from `lo` |
| Riemann.PointRuleRiemannSum | simath/methods.py:45-66 | end to end, `rmsum` with `"left"`, `"right"` or `"midpoint"` succeeds and returns `step * (f(lo + o) + f(lo + o + step) + ...)` over `floor(width/step)` points, the offset `o` being `0`, `step` or `step/2` |
| Riemann.TrapezoidalRiemannSum | simath/methods.py:45-75 | end to end, `rmsum` with `"trapezoidal"` succeeds and returns the mean of what `"left"` and `"right"` return |
| Riemann.NamedRuleValue | simath/methods.py:50-66 | calling with a rule's own name returns that rule's estimate over the partition |
| Riemann.DefaultRuleIsMidpoint | simath/methods.py:46-49 | `type=None` and `type=""` give the same outcome as `type="midpoint"`, value or failure |
| Riemann.VerboseHasNoEffect | simath/methods.py:73-75 | the verbose flag changes neither the value nor whether the call fails |
| Riemann.RiemannSumOfConstant | simath/methods.py:45-75 | for a constant `c` every accepted rule returns `k * c * step`, where `k` is the number of sub-intervals |
| Riemann.RuleSumOfTiling | simath/methods.py:50-66 | over a tiling from `lo`, the left, right and midpoint sums equal the reference sums at `lo + i*step`, `lo + (i+1)*step` and `lo + (i+1/2)*step` |
| Riemann.TrapezoidalIsMeanOfEnds | simath/methods.py:60-61 | over any list of sub-intervals the trapezoidal sum is the mean of the left and right sums |
| Riemann.RuleSumOfConstant | simath/methods.py:50-66 | for a constant `c`, every rule sums to `k * c` over `k` sub-intervals |
| Riemann.RuleSumMonotone | simath/methods.py:50-66 | a rule whose sample is never larger on any sub-interval never gives a larger sum |
| Riemann.PointRuleClosedForm | simath/methods.py:50-66 | over a tiling, the left, right and midpoint results are `step` times the reference sums at the start, end and centre of each piece |
| Riemann.TrapezoidalClosedForm | simath/methods.py:60-61 | the trapezoidal result is the mean of the left and right results |
| Riemann.RuleSumRightMinusLeft | simath/methods.py:50-56 | over back-to-back pieces the right sum minus the left sum is `f(end of last) - f(lo)` |
| Riemann.RightMinusLeft | simath/methods.py:50-56 | the right result minus the left result is `step * (f(end of last piece) - f(lo))` |
| Riemann.SamplesOrderedWhenIncreasing | simath/methods.py:50-66 | for a nondecreasing, midpoint-convex `f` on an upward piece, the samples satisfy left <= midpoint <= trapezoidal <= right |
| Riemann.SamplesOrderedWhenDecreasing | simath/methods.py:50-66 | for a nonincreasing, midpoint-convex `f`, the samples satisfy right <= midpoint <= trapezoidal <= left |
| Riemann.RuleSumsOrderedWhenIncreasing | simath/methods.py:50-66 | the same left <= midpoint <= trapezoidal <= right order for the sums over upward pieces |
| Riemann.RuleSumsOrderedWhenDecreasing | simath/methods.py:50-66 | the same right <= midpoint <= trapezoidal <= left order for the sums over upward pieces |
| Riemann.EstimatesFollowSums | simath/methods.py:51 | multiplying by a positive `step` keeps two rule sums in order |
| Riemann.RulesOrderedWhenIncreasing | simath/methods.py:50-66 | over a tiling with positive step, the four results of a nondecreasing midpoint-convex `f` satisfy left <= midpoint <= trapezoidal <= right |
| Riemann.RulesOrderedWhenDecreasing | simath/methods.py:50-66 | over such a tiling the results of a nonincreasing midpoint-convex `f` satisfy right <= midpoint <= trapezoidal <= left |
| Riemann.RiemannSumsOrderedWhenIncreasing | simath/methods.py:45-71 | end to end, for a nondecreasing midpoint-convex `f`, the `"left"`, `"midpoint"`, `"trapezoidal"` and `"right"` results of `rmsum` are in that order |
| Riemann.RiemannSumsOrderedWhenDecreasing | simath/methods.py:45-71 | end to end, for a nonincreasing midpoint-convex `f`, the `"right"`, `"midpoint"`, `"trapezoidal"` and `"left"` results of `rmsum` are in that order |
| Examples.AvgExamples | simath/methods.py:8-10 | `avg(2, 4) = 3`, `avg(1, 2, 3, 4) = 2.5`, and `avg(5)` fails |
| Examples.IntervalizeExamples | simath/methods.py:23-26 | `[0, 1]` with step 0.25 gives the four quarters; step 0.3 gives three pieces; step 2 fails |
| Examples.IdentityExamples | simath/methods.py:50-61 | for `f(x) = x` on `[0, 1]` with step 0.5, left gives 0.25, right gives 0.75 and trapezoidal gives 0.5 |
| Examples.ConstantExample | simath/methods.py:45-75 | the constant 1 on `[0, 10]` with step 1 and no rule name gives 10 |

## Left out

- Console tracing under `verbose` (simath/methods.py:47-48, 52-54, 57-59, 62-64, 67-69, 73-74) is output only. The flag is a parameter that the value does not depend on.
- Floating point: the model computes over exact reals. Rounding effects are not modelled. For example, Python gives `int(0.3/0.1) == 2`, while the exact quotient gives 3.
- Partition.Intervalize: requires `step > 0`; a zero or negative step is not modelled. Python then raises `ValueError` or `ZeroDivisionError`, or returns an empty or reversed list.
- Riemann.RiemannSum: requires `step > 0`, for the same reason.
- The wording of the `ValueError` messages is not modelled; only the kind of failure is.
- `func` is modelled as a total, pure function `real -> real`. Exceptions it raises at a sample point (for example `math.log` at 0) and its side effects, including the second evaluation of each point under `verbose` (simath/methods.py:54, 59, 64, 69), are not modelled. So `RiemannSum` succeeding exactly when the step fits and the name is accepted holds for such an `f` only.
- Python's dynamic typing of `func`, `interval` and `type` is replaced by `real -> real`, an `Interval` datatype and an optional string.
- The unused `Enum` import (simath/methods.py:1) has no counterpart.
- A table-valued input mode, in which a mapping of points to values replaces `func`, has no code in `simath/methods.py`, so there is nothing to model.
- Addition order: Python's `sum` folds from the left and `RuleSum` folds from the right. Over exact reals the results are equal.
- The ordering lemmas ask for `f` to be monotone and midpoint-convex (`f((x+y)/2) <= (f(x)+f(y))/2`) rather than strictly monotone and convex. This is a weaker hypothesis, so the lemmas cover more functions.
