/** Worked examples for the three operations, stated over exact reals. */
module Examples {
  import opened Results
  import opened Average
  import opened Partition
  import opened Riemann

  lemma AvgExamples()
    ensures Avg([2.0, 4.0]).Ok? && Avg([2.0, 4.0]).value == 3.0
    ensures Avg([1.0, 2.0, 3.0, 4.0]).Ok? && Avg([1.0, 2.0, 3.0, 4.0]).value == 2.5
    ensures Avg([5.0]) == Err(TooFewArguments)
  {
    assert Mean2(2.0, 4.0) == 3.0;
    var xs := [1.0, 2.0, 3.0, 4.0];
    assert xs[..3] == [1.0, 2.0, 3.0];
    assert [1.0, 2.0, 3.0][..2] == [1.0, 2.0];
    assert [1.0, 2.0][..1] == [1.0];
    assert [1.0][..0] == [];
    assert Sum([1.0]) == 1.0;
    assert Sum([1.0, 2.0]) == 3.0;
    assert Sum([1.0, 2.0, 3.0]) == 6.0;
    assert Sum(xs) == 10.0;
  }

  lemma IntervalizeExamples()
    ensures Intervalize(Interval(0.0, 1.0), 0.25)
         == Ok([Interval(0.0, 0.25), Interval(0.25, 0.5), Interval(0.5, 0.75), Interval(0.75, 1.0)])
    ensures Intervalize(Interval(0.0, 1.0), 0.3).Ok? && |Intervalize(Interval(0.0, 1.0), 0.3).value| == 3
    ensures Intervalize(Interval(0.0, 1.0), 2.0) == Err(StepTooLarge)
  {
    assert 1.0 / 0.25 == 4.0;
    assert (4.0).Floor == 4;
    assert Truncate(1.0 / 0.25) == 4;
    var g := Grid(0.0, 0.25, 4);
    assert g[0] == Interval(0.0, 0.25) && g[1] == Interval(0.25, 0.5);
    assert g[2] == Interval(0.5, 0.75) && g[3] == Interval(0.75, 1.0);
    assert g == [Interval(0.0, 0.25), Interval(0.25, 0.5), Interval(0.5, 0.75), Interval(0.75, 1.0)];
    assert 3.0 <= 1.0 / 0.3 < 4.0;
    assert Truncate(1.0 / 0.3) == 3;
  }

  /** The left, right and trapezoidal sums of the identity over `[0, 1]`
      in two steps of one half. */
  lemma IdentityExamples(id: real -> real)
    requires forall x :: id(x) == x
    ensures RiemannSum(id, 0.5, Interval(0.0, 1.0), Some("left"), false).Ok?
    ensures RiemannSum(id, 0.5, Interval(0.0, 1.0), Some("left"), false).value == 0.25
    ensures RiemannSum(id, 0.5, Interval(0.0, 1.0), Some("right"), false).value == 0.75
    ensures RiemannSum(id, 0.5, Interval(0.0, 1.0), Some("trapezoidal"), false).value == 0.5
  {
    var parts := Intervalize(Interval(0.0, 1.0), 0.5).value;
    assert 1.0 / 0.5 == 2.0;
    assert parts == [Interval(0.0, 0.5), Interval(0.5, 1.0)];
    NamedRuleValue(id, 0.5, Interval(0.0, 1.0), Left, false);
    NamedRuleValue(id, 0.5, Interval(0.0, 1.0), Right, false);
    NamedRuleValue(id, 0.5, Interval(0.0, 1.0), Trapezoidal, false);
  }

  /** The constant one over `[0, 10]` in unit steps, default rule. */
  lemma ConstantExample(one: real -> real)
    requires forall x :: one(x) == 1.0
    ensures RiemannSum(one, 1.0, Interval(0.0, 10.0), None, false).Ok?
    ensures RiemannSum(one, 1.0, Interval(0.0, 10.0), None, false).value == 10.0
  {
    RiemannSumOfConstant(one, 1.0, 1.0, Interval(0.0, 10.0), None, false);
    assert |Intervalize(Interval(0.0, 10.0), 1.0).value| == 10;
  }
}
