/** The arithmetic mean `avg(*args)`: the mean of at least two numbers,
    refused for fewer. Python's variadic arguments become a sequence. */
module Average {
  import opened Results

  /** Python's `sum` over a sequence: a left fold starting from zero. */
  function Sum(xs: seq<real>): real
  {
    if |xs| == 0 then 0.0 else Sum(xs[..|xs| - 1]) + xs[|xs| - 1]
  }

  /** Every element lies in `[a, b]`. */
  predicate AllWithin(xs: seq<real>, a: real, b: real)
  {
    forall i :: 0 <= i < |xs| ==> a <= xs[i] <= b
  }

  /** Bounds every element puts on the sum: `n*a <= Sum(xs) <= n*b`. */
  lemma {:induction false} SumWithin(xs: seq<real>, a: real, b: real)
    requires AllWithin(xs, a, b)
    ensures |xs| as real * a <= Sum(xs) <= |xs| as real * b
  {
    if |xs| > 0 {
      var init := xs[..|xs| - 1];
      assert AllWithin(init, a, b) by {
        forall i | 0 <= i < |init| ensures a <= init[i] <= b {
          assert init[i] == xs[i];
        }
      }
      SumWithin(init, a, b);
      assert a <= xs[|xs| - 1] <= b;
    }
  }

  /** The mean of `args`; fails when fewer than two numbers are given. */
  function Avg(args: seq<real>): (r: Result<real>)
    ensures r.Err? <==> |args| < 2
    ensures r.Err? ==> r.error == TooFewArguments
    ensures r.Ok? ==> r.value * |args| as real == Sum(args)
  {
    if |args| < 2 then Err(TooFewArguments)
    else Ok(Sum(args) / |args| as real)
  }

  /** The mean never leaves a range that contains all the arguments; in
      particular the mean of equal numbers is that number. */
  lemma AvgWithin(args: seq<real>, a: real, b: real)
    requires |args| >= 2
    requires AllWithin(args, a, b)
    ensures a <= Avg(args).value <= b
  {
    SumWithin(args, a, b);
    var n := |args| as real;
    var m := Avg(args).value;
    assert m * n == Sum(args);
    assert n * a <= m * n <= n * b;
  }

  /** `avg(a, b)`, the two-argument call the summation rules make; it
      never fails and lands halfway between its arguments. */
  function Mean2(a: real, b: real): (r: real)
    ensures r == (a + b) / 2.0
    ensures r - a == b - r
    ensures a <= b ==> a <= r <= b
  {
    assert Sum([a, b]) == a + b by {
      assert [a, b][..1] == [a];
      assert [a][..0] == [];
      assert Sum([a]) == a;
    }
    Avg([a, b]).value
  }
}
