/** `rmsum(func, step, interval, type, verbose)`: partition the interval
    with `intervalize`, take one sample of `func` per sub-interval as the
    named rule says, and multiply the sum of the samples by `step`. */
module Riemann {
  import opened Results
  import opened Average
  import opened Partition

  /** Which point(s) of a sub-interval stand for it in the sum. */
  datatype Rule = Left | Right | Midpoint | Trapezoidal

  /** The string that selects a rule. */
  function RuleName(rule: Rule): string
  {
    match rule
    case Left => "left"
    case Right => "right"
    case Midpoint => "midpoint"
    case Trapezoidal => "trapezoidal"
  }

  /** Reads the `type` argument: absent or empty means midpoint, one of
      the four names selects that rule, anything else is refused. */
  function ParseRule(name: Option<string>): (r: Result<Rule>)
    ensures name == None || name == Some("") ==> r == Ok(Midpoint)
    ensures r.Ok? ==> name == None || name == Some("") || name == Some(RuleName(r.value))
    ensures r.Err? ==> name.Some? && r.error == UnknownRule(name.value)
  {
    if name == None || name == Some("") then Ok(Midpoint)
    else if name.value == "right" then Ok(Right)
    else if name.value == "left" then Ok(Left)
    else if name.value == "trapezoidal" then Ok(Trapezoidal)
    else if name.value == "midpoint" then Ok(Midpoint)
    else Err(UnknownRule(name.value))
  }

  /** Every rule is selected by its own name. */
  lemma ParseRuleName(rule: Rule)
    ensures ParseRule(Some(RuleName(rule))) == Ok(rule)
  {
  }

  /** The contribution of one sub-interval under `rule`, before it is
      weighted by the step. */
  function Sample(f: real -> real, rule: Rule, iv: Interval): real
  {
    match rule
    case Right => f(iv.hi)
    case Left => f(iv.lo)
    case Trapezoidal => Mean2(f(iv.lo), f(iv.hi))
    case Midpoint => f(Mean2(iv.lo, iv.hi))
  }

  /** Python's `sum(... for x in interval)`: the samples of all the
      sub-intervals added up (exact arithmetic makes the order of the
      additions immaterial). This is `Average.Sum` of the samples taken
      in the other order, written as its own fold so that the rule lemmas
      can peel off the first piece. */
  function RuleSum(f: real -> real, rule: Rule, parts: seq<Interval>): real
  {
    if |parts| == 0 then 0.0 else Sample(f, rule, parts[0]) + RuleSum(f, rule, parts[1..])
  }

  /** `f(a) + f(a + h) + ... + f(a + (n-1)*h)`: a reference sum over
      `n` evenly spaced points, independent of any partition. */
  function PointSum(f: real -> real, a: real, h: real, n: nat): real
    decreases n
  {
    if n == 0 then 0.0 else f(a) + PointSum(f, a + h, h, n - 1)
  }

  /** `result`: the samples of `rule` over `parts` added up and weighted
      by the step width. */
  function Estimate(f: real -> real, rule: Rule, parts: seq<Interval>, step: real): real
  {
    RuleSum(f, rule, parts) * step
  }

  /** The Riemann sum of `f` over `iv` with sub-intervals of width `step`.
      It fails with `StepTooLarge` before looking at the rule, and with
      `UnknownRule` for a name it does not know; `verbose` only selects
      console tracing and has no part in the value. */
  function RiemannSum(f: real -> real, step: real, iv: Interval, rule: Option<string>, verbose: bool): (r: Result<real>)
    requires step > 0.0
    ensures r.Ok? <==> step <= iv.Width() && ParseRule(rule).Ok?
    ensures step > iv.Width() ==> r.Err? && r.error == StepTooLarge
    ensures step <= iv.Width() && r.Err? ==> rule.Some? && r.error == UnknownRule(rule.value)
  {
    var parts := Intervalize(iv, step);
    if parts.Err? then Err(parts.error)
    else
      var kind := ParseRule(rule);
      if kind.Err? then Err(kind.error)
      else Ok(Estimate(f, kind.value, parts.value, step))
  }

  // ---------------------------------------------------------------------
  // The sums over a partition

  /** Where a point rule samples a sub-interval, measured from its low
      end: nothing for left, a whole step for right, half for midpoint. */
  function Offset(rule: Rule, step: real): real
    requires rule != Trapezoidal
  {
    match rule
    case Left => 0.0
    case Right => step
    case Midpoint => step / 2.0
  }

  /** Over a tiling from `lo`, the left, right and midpoint sums are the
      reference sums at the points `lo + i*step`, `lo + (i+1)*step` and
      `lo + (i+1/2)*step`. */
  lemma {:induction false} RuleSumOfTiling(f: real -> real, rule: Rule, parts: seq<Interval>, lo: real, step: real)
    requires rule != Trapezoidal
    requires IsTiling(parts, lo, step)
    ensures RuleSum(f, rule, parts) == PointSum(f, lo + Offset(rule, step), step, |parts|)
  {
    if |parts| > 0 {
      var first := parts[0];
      assert first.hi == lo + step;
      assert Sample(f, rule, first) == f(lo + Offset(rule, step));
      TilingTail(parts, lo, step);
      RuleSumOfTiling(f, rule, parts[1..], lo + step, step);
      assert (lo + step) + Offset(rule, step) == (lo + Offset(rule, step)) + step;
    }
  }

  /** The trapezoidal sum is the mean of the left and right sums, over
      any list of sub-intervals. */
  lemma {:induction false} TrapezoidalIsMeanOfEnds(f: real -> real, parts: seq<Interval>)
    ensures RuleSum(f, Trapezoidal, parts) == (RuleSum(f, Left, parts) + RuleSum(f, Right, parts)) / 2.0
  {
    if |parts| > 0 {
      TrapezoidalIsMeanOfEnds(f, parts[1..]);
    }
  }

  /** A constant function contributes the same sample under every rule. */
  lemma {:induction false} RuleSumOfConstant(f: real -> real, c: real, rule: Rule, parts: seq<Interval>)
    requires forall x :: f(x) == c
    ensures RuleSum(f, rule, parts) == |parts| as real * c
  {
    if |parts| > 0 {
      RuleSumOfConstant(f, c, rule, parts[1..]);
      assert Sample(f, rule, parts[0]) == c;
    }
  }

  /** A rule whose sample is never larger gives a sum that is never
      larger. */
  lemma {:induction false} RuleSumMonotone(f: real -> real, lower: Rule, upper: Rule, parts: seq<Interval>)
    requires forall i :: 0 <= i < |parts| ==> Sample(f, lower, parts[i]) <= Sample(f, upper, parts[i])
    ensures RuleSum(f, lower, parts) <= RuleSum(f, upper, parts)
  {
    if |parts| > 0 {
      var rest := parts[1..];
      assert forall i :: 0 <= i < |rest| ==> rest[i] == parts[i + 1];
      RuleSumMonotone(f, lower, upper, rest);
    }
  }

  // ---------------------------------------------------------------------
  // The sums `rmsum` returns

  /** A call whose rule name is accepted succeeds once the step fits, and
      returns the estimate over the partition for the rule the name
      selects (that partition is the tiling of `IntervalizeShape`). */
  lemma RiemannSumValue(f: real -> real, step: real, iv: Interval, name: Option<string>, verbose: bool)
    requires 0.0 < step <= iv.Width()
    requires ParseRule(name).Ok?
    ensures RiemannSum(f, step, iv, name, verbose).Ok?
    ensures RiemannSum(f, step, iv, name, verbose).value
         == Estimate(f, ParseRule(name).value, Intervalize(iv, step).value, step)
  {
  }

  /** A call made with a rule's own name returns that rule's estimate. */
  lemma NamedRuleValue(f: real -> real, step: real, iv: Interval, rule: Rule, verbose: bool)
    requires 0.0 < step <= iv.Width()
    ensures RiemannSum(f, step, iv, Some(RuleName(rule)), verbose).Ok?
    ensures RiemannSum(f, step, iv, Some(RuleName(rule)), verbose).value
         == Estimate(f, rule, Intervalize(iv, step).value, step)
  {
    ParseRuleName(rule);
    RiemannSumValue(f, step, iv, Some(RuleName(rule)), verbose);
  }

  /** An absent or empty rule name is the midpoint rule. */
  lemma DefaultRuleIsMidpoint(f: real -> real, step: real, iv: Interval, verbose: bool)
    requires step > 0.0
    ensures RiemannSum(f, step, iv, None, verbose) == RiemannSum(f, step, iv, Some("midpoint"), verbose)
    ensures RiemannSum(f, step, iv, Some(""), verbose) == RiemannSum(f, step, iv, Some("midpoint"), verbose)
  {
    var named := RiemannSum(f, step, iv, Some("midpoint"), verbose);
    var absent := RiemannSum(f, step, iv, None, verbose);
    var empty := RiemannSum(f, step, iv, Some(""), verbose);
    if step <= iv.Width() {
      NamedRuleValue(f, step, iv, Midpoint, verbose);
      RiemannSumValue(f, step, iv, None, verbose);
      RiemannSumValue(f, step, iv, Some(""), verbose);
      assert named.Ok? && absent.Ok? && empty.Ok?;
      assert absent.value == named.value && empty.value == named.value;
    } else {
      assert named == Err(StepTooLarge) && absent == Err(StepTooLarge) && empty == Err(StepTooLarge);
    }
  }

  /** Tracing does not change the answer, nor whether there is one. */
  lemma VerboseHasNoEffect(f: real -> real, step: real, iv: Interval, name: Option<string>)
    requires step > 0.0
    ensures RiemannSum(f, step, iv, name, true) == RiemannSum(f, step, iv, name, false)
  {
  }

  /** A constant function `c` gives `k * c * step` under every accepted
      rule name, `k` being the number of sub-intervals. */
  lemma RiemannSumOfConstant(f: real -> real, c: real, step: real, iv: Interval, name: Option<string>, verbose: bool)
    requires 0.0 < step <= iv.Width()
    requires forall x :: f(x) == c
    requires ParseRule(name).Ok?
    ensures RiemannSum(f, step, iv, name, verbose).Ok?
    ensures RiemannSum(f, step, iv, name, verbose).value == |Intervalize(iv, step).value| as real * c * step
  {
    var parts := Intervalize(iv, step).value;
    var rule := ParseRule(name).value;
    RiemannSumValue(f, step, iv, name, verbose);
    assert RuleSum(f, rule, parts) == |parts| as real * c by {
      RuleSumOfConstant(f, c, rule, parts);
    }
  }

  // ---------------------------------------------------------------------
  // The estimates over a tiling

  /** The left, right and midpoint estimates over a tiling of `k` pieces
      from `lo`: `step` times the sum of `f` at `lo + i*step`,
      `lo + (i+1)*step` and `lo + (i+1/2)*step` for `i < k`. */
  lemma PointRuleClosedForm(f: real -> real, rule: Rule, parts: seq<Interval>, lo: real, step: real)
    requires rule != Trapezoidal
    requires IsTiling(parts, lo, step)
    ensures Estimate(f, rule, parts, step) == PointSum(f, lo + Offset(rule, step), step, |parts|) * step
  {
    RuleSumOfTiling(f, rule, parts, lo, step);
  }

  /** Scaling a mean scales both of its terms. */
  lemma ScaleMean(x: real, y: real, c: real)
    ensures (x + y) / 2.0 * c == (x * c + y * c) / 2.0
  {
  }

  /** The trapezoidal estimate is the mean of the left and right ones. */
  lemma TrapezoidalClosedForm(f: real -> real, parts: seq<Interval>, step: real)
    ensures Estimate(f, Trapezoidal, parts, step)
         == (Estimate(f, Left, parts, step) + Estimate(f, Right, parts, step)) / 2.0
  {
    TrapezoidalIsMeanOfEnds(f, parts);
    ScaleMean(RuleSum(f, Left, parts), RuleSum(f, Right, parts), step);
  }

  /** Over back-to-back sub-intervals the right sum exceeds the left sum
      by `f(end) - f(start)`: every interior point is sampled by both. */
  lemma {:induction false} RuleSumRightMinusLeft(f: real -> real, parts: seq<Interval>, lo: real, step: real)
    requires IsTiling(parts, lo, step) && |parts| > 0
    ensures RuleSum(f, Right, parts) - RuleSum(f, Left, parts) == f(parts[|parts| - 1].hi) - f(lo)
  {
    var rest := parts[1..];
    if |rest| > 0 {
      TilingTail(parts, lo, step);
      RuleSumRightMinusLeft(f, rest, lo + step, step);
      assert rest[|rest| - 1] == parts[|parts| - 1];
    }
  }

  /** Scaling two numbers scales their difference. */
  lemma ScaleDifference(x: real, y: real, c: real, d: real)
    requires x - y == d
    ensures x * c - y * c == d * c
  {
  }

  /** The right estimate exceeds the left one by `step` times the change
      of `f` from `lo` to the end of the last sub-interval. */
  lemma RightMinusLeft(f: real -> real, parts: seq<Interval>, lo: real, step: real)
    requires IsTiling(parts, lo, step) && |parts| > 0
    ensures Estimate(f, Right, parts, step) - Estimate(f, Left, parts, step)
         == (f(parts[|parts| - 1].hi) - f(lo)) * step
  {
    RuleSumRightMinusLeft(f, parts, lo, step);
    ScaleDifference(RuleSum(f, Right, parts), RuleSum(f, Left, parts), step, f(parts[|parts| - 1].hi) - f(lo));
  }

  /** The left, right and midpoint estimates over the partition that
      `intervalize` returns, in closed form. */
  lemma PointRuleOverIntervalize(f: real -> real, step: real, iv: Interval, rule: Rule)
    requires 0.0 < step <= iv.Width()
    requires rule != Trapezoidal
    ensures Estimate(f, rule, Intervalize(iv, step).value, step)
         == PointSum(f, iv.lo + Offset(rule, step), step, (iv.Width() / step).Floor) * step
  {
    var parts := Intervalize(iv, step).value;
    assert |parts| == (iv.Width() / step).Floor by {
      IntervalizeShape(iv, step);
    }
    IntervalizeTiles(iv, step);
    PointRuleClosedForm(f, rule, parts, iv.lo, step);
  }

  /** `rmsum` end to end for the left, right and midpoint names: `step`
      times the sum of `f` at the start, end or centre of each of the
      `floor(width / step)` sub-intervals from `lo`. */
  lemma PointRuleRiemannSum(f: real -> real, step: real, iv: Interval, rule: Rule, verbose: bool)
    requires 0.0 < step <= iv.Width()
    requires rule != Trapezoidal
    ensures RiemannSum(f, step, iv, Some(RuleName(rule)), verbose).Ok?
    ensures RiemannSum(f, step, iv, Some(RuleName(rule)), verbose).value
         == PointSum(f, iv.lo + Offset(rule, step), step, (iv.Width() / step).Floor) * step
  {
    NamedRuleValue(f, step, iv, rule, verbose);
    PointRuleOverIntervalize(f, step, iv, rule);
  }

  /** `rmsum` end to end for the trapezoidal name: the mean of what the
      left and right names return. */
  lemma TrapezoidalRiemannSum(f: real -> real, step: real, iv: Interval, verbose: bool)
    requires 0.0 < step <= iv.Width()
    ensures RiemannSum(f, step, iv, Some("trapezoidal"), verbose).Ok?
    ensures RiemannSum(f, step, iv, Some("trapezoidal"), verbose).value
         == (RiemannSum(f, step, iv, Some("left"), verbose).value
             + RiemannSum(f, step, iv, Some("right"), verbose).value) / 2.0
  {
    NamedRuleValue(f, step, iv, Trapezoidal, verbose);
    NamedRuleValue(f, step, iv, Left, verbose);
    NamedRuleValue(f, step, iv, Right, verbose);
    TrapezoidalClosedForm(f, Intervalize(iv, step).value, step);
  }

  // ---------------------------------------------------------------------
  // Ordering of the rules

  ghost predicate Nondecreasing(f: real -> real)
  {
    forall x, y :: x <= y ==> f(x) <= f(y)
  }

  ghost predicate Nonincreasing(f: real -> real)
  {
    forall x, y :: x <= y ==> f(y) <= f(x)
  }

  /** The value at a midpoint is at most the mean of the end values. */
  ghost predicate MidpointConvex(f: real -> real)
  {
    forall x, y {:trigger f(Mean2(x, y))} :: x <= y ==> f(Mean2(x, y)) <= Mean2(f(x), f(y))
  }

  /** For a nondecreasing midpoint-convex `f`: left <= midpoint <=
      trapezoidal <= right, sub-interval by sub-interval. */
  lemma SamplesOrderedWhenIncreasing(f: real -> real, parts: seq<Interval>)
    requires Nondecreasing(f) && MidpointConvex(f)
    requires forall i :: 0 <= i < |parts| ==> parts[i].lo <= parts[i].hi
    ensures forall i :: 0 <= i < |parts| ==> Sample(f, Left, parts[i]) <= Sample(f, Midpoint, parts[i])
    ensures forall i :: 0 <= i < |parts| ==> Sample(f, Midpoint, parts[i]) <= Sample(f, Trapezoidal, parts[i])
    ensures forall i :: 0 <= i < |parts| ==> Sample(f, Trapezoidal, parts[i]) <= Sample(f, Right, parts[i])
  {
    forall i | 0 <= i < |parts|
      ensures Sample(f, Left, parts[i]) <= Sample(f, Midpoint, parts[i])
      ensures Sample(f, Midpoint, parts[i]) <= Sample(f, Trapezoidal, parts[i])
      ensures Sample(f, Trapezoidal, parts[i]) <= Sample(f, Right, parts[i])
    {
      var a, b := parts[i].lo, parts[i].hi;
      assert f(a) <= f(Mean2(a, b));
      assert f(a) <= f(b);
    }
  }

  /** For a nonincreasing midpoint-convex `f`: right <= midpoint <=
      trapezoidal <= left, sub-interval by sub-interval. */
  lemma SamplesOrderedWhenDecreasing(f: real -> real, parts: seq<Interval>)
    requires Nonincreasing(f) && MidpointConvex(f)
    requires forall i :: 0 <= i < |parts| ==> parts[i].lo <= parts[i].hi
    ensures forall i :: 0 <= i < |parts| ==> Sample(f, Right, parts[i]) <= Sample(f, Midpoint, parts[i])
    ensures forall i :: 0 <= i < |parts| ==> Sample(f, Midpoint, parts[i]) <= Sample(f, Trapezoidal, parts[i])
    ensures forall i :: 0 <= i < |parts| ==> Sample(f, Trapezoidal, parts[i]) <= Sample(f, Left, parts[i])
  {
    forall i | 0 <= i < |parts|
      ensures Sample(f, Right, parts[i]) <= Sample(f, Midpoint, parts[i])
      ensures Sample(f, Midpoint, parts[i]) <= Sample(f, Trapezoidal, parts[i])
      ensures Sample(f, Trapezoidal, parts[i]) <= Sample(f, Left, parts[i])
    {
      var a, b := parts[i].lo, parts[i].hi;
      assert f(b) <= f(Mean2(a, b));
      assert f(b) <= f(a);
    }
  }

  /** For a nondecreasing midpoint-convex `f`, the rule sums over any
      list of sub-intervals are ordered left <= midpoint <= trapezoidal
      <= right. */
  lemma RuleSumsOrderedWhenIncreasing(f: real -> real, parts: seq<Interval>)
    requires Nondecreasing(f) && MidpointConvex(f)
    requires forall i :: 0 <= i < |parts| ==> parts[i].lo <= parts[i].hi
    ensures RuleSum(f, Left, parts) <= RuleSum(f, Midpoint, parts)
    ensures RuleSum(f, Midpoint, parts) <= RuleSum(f, Trapezoidal, parts)
    ensures RuleSum(f, Trapezoidal, parts) <= RuleSum(f, Right, parts)
  {
    SamplesOrderedWhenIncreasing(f, parts);
    RuleSumMonotone(f, Left, Midpoint, parts);
    RuleSumMonotone(f, Midpoint, Trapezoidal, parts);
    RuleSumMonotone(f, Trapezoidal, Right, parts);
  }

  /** For a nonincreasing midpoint-convex `f`, the rule sums over any
      list of sub-intervals are ordered right <= midpoint <= trapezoidal
      <= left. */
  lemma RuleSumsOrderedWhenDecreasing(f: real -> real, parts: seq<Interval>)
    requires Nonincreasing(f) && MidpointConvex(f)
    requires forall i :: 0 <= i < |parts| ==> parts[i].lo <= parts[i].hi
    ensures RuleSum(f, Right, parts) <= RuleSum(f, Midpoint, parts)
    ensures RuleSum(f, Midpoint, parts) <= RuleSum(f, Trapezoidal, parts)
    ensures RuleSum(f, Trapezoidal, parts) <= RuleSum(f, Left, parts)
  {
    SamplesOrderedWhenDecreasing(f, parts);
    RuleSumMonotone(f, Right, Midpoint, parts);
    RuleSumMonotone(f, Midpoint, Trapezoidal, parts);
    RuleSumMonotone(f, Trapezoidal, Left, parts);
  }

  /** Rule sums in some order give estimates in the same order: a common
      positive step scales them both. */
  lemma EstimatesFollowSums(f: real -> real, a: Rule, b: Rule, parts: seq<Interval>, step: real)
    requires step > 0.0
    requires RuleSum(f, a, parts) <= RuleSum(f, b, parts)
    ensures Estimate(f, a, parts, step) <= Estimate(f, b, parts, step)
  {
    ScaleLe(RuleSum(f, a, parts), RuleSum(f, b, parts), step);
  }

  /** Over a tiling, the four estimates of a nondecreasing midpoint-convex
      function are ordered left <= midpoint <= trapezoidal <= right. */
  lemma RulesOrderedWhenIncreasing(f: real -> real, parts: seq<Interval>, lo: real, step: real)
    requires step > 0.0 && IsTiling(parts, lo, step)
    requires Nondecreasing(f) && MidpointConvex(f)
    ensures Estimate(f, Left, parts, step) <= Estimate(f, Midpoint, parts, step)
    ensures Estimate(f, Midpoint, parts, step) <= Estimate(f, Trapezoidal, parts, step)
    ensures Estimate(f, Trapezoidal, parts, step) <= Estimate(f, Right, parts, step)
  {
    TilingUpward(parts, lo, step);
    RuleSumsOrderedWhenIncreasing(f, parts);
    EstimatesFollowSums(f, Left, Midpoint, parts, step);
    EstimatesFollowSums(f, Midpoint, Trapezoidal, parts, step);
    EstimatesFollowSums(f, Trapezoidal, Right, parts, step);
  }

  /** Over a tiling, the four estimates of a nonincreasing midpoint-convex
      function are ordered right <= midpoint <= trapezoidal <= left. */
  lemma RulesOrderedWhenDecreasing(f: real -> real, parts: seq<Interval>, lo: real, step: real)
    requires step > 0.0 && IsTiling(parts, lo, step)
    requires Nonincreasing(f) && MidpointConvex(f)
    ensures Estimate(f, Right, parts, step) <= Estimate(f, Midpoint, parts, step)
    ensures Estimate(f, Midpoint, parts, step) <= Estimate(f, Trapezoidal, parts, step)
    ensures Estimate(f, Trapezoidal, parts, step) <= Estimate(f, Left, parts, step)
  {
    TilingUpward(parts, lo, step);
    RuleSumsOrderedWhenDecreasing(f, parts);
    EstimatesFollowSums(f, Right, Midpoint, parts, step);
    EstimatesFollowSums(f, Midpoint, Trapezoidal, parts, step);
    EstimatesFollowSums(f, Trapezoidal, Left, parts, step);
  }

  /** End to end: for a nondecreasing midpoint-convex `f`, the results of
      `rmsum` under the four rule names are ordered
      left <= midpoint <= trapezoidal <= right. */
  lemma RiemannSumsOrderedWhenIncreasing(f: real -> real, step: real, iv: Interval, verbose: bool)
    requires 0.0 < step <= iv.Width()
    requires Nondecreasing(f) && MidpointConvex(f)
    ensures RiemannSum(f, step, iv, Some("left"), verbose).value
         <= RiemannSum(f, step, iv, Some("midpoint"), verbose).value
    ensures RiemannSum(f, step, iv, Some("midpoint"), verbose).value
         <= RiemannSum(f, step, iv, Some("trapezoidal"), verbose).value
    ensures RiemannSum(f, step, iv, Some("trapezoidal"), verbose).value
         <= RiemannSum(f, step, iv, Some("right"), verbose).value
  {
    NamedRuleValue(f, step, iv, Left, verbose);
    NamedRuleValue(f, step, iv, Midpoint, verbose);
    NamedRuleValue(f, step, iv, Trapezoidal, verbose);
    NamedRuleValue(f, step, iv, Right, verbose);
    IntervalizeTiles(iv, step);
    RulesOrderedWhenIncreasing(f, Intervalize(iv, step).value, iv.lo, step);
  }

  /** End to end: for a nonincreasing midpoint-convex `f`, the results of
      `rmsum` under the four rule names are ordered
      right <= midpoint <= trapezoidal <= left. */
  lemma RiemannSumsOrderedWhenDecreasing(f: real -> real, step: real, iv: Interval, verbose: bool)
    requires 0.0 < step <= iv.Width()
    requires Nonincreasing(f) && MidpointConvex(f)
    ensures RiemannSum(f, step, iv, Some("right"), verbose).value
         <= RiemannSum(f, step, iv, Some("midpoint"), verbose).value
    ensures RiemannSum(f, step, iv, Some("midpoint"), verbose).value
         <= RiemannSum(f, step, iv, Some("trapezoidal"), verbose).value
    ensures RiemannSum(f, step, iv, Some("trapezoidal"), verbose).value
         <= RiemannSum(f, step, iv, Some("left"), verbose).value
  {
    NamedRuleValue(f, step, iv, Left, verbose);
    NamedRuleValue(f, step, iv, Midpoint, verbose);
    NamedRuleValue(f, step, iv, Trapezoidal, verbose);
    NamedRuleValue(f, step, iv, Right, verbose);
    IntervalizeTiles(iv, step);
    RulesOrderedWhenDecreasing(f, Intervalize(iv, step).value, iv.lo, step);
  }
}
